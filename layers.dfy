/** The watermark layer stack: the layer record, partial updates, and the
    transforms the editor applies to the stack (update, broadcast, add,
    remove, duplicate) together with the active-layer lookup. */
module LayerModel {
  import opened Wrappers

  /** Layer ids are strings built from the clock and a random number; here
      they are opaque, and a fresh one is supplied by the caller. */
  type LayerId = string
  /** Logo ids are opaque numbers; only equality is used. */
  type LogoId = int

  datatype LayerKind = Text | Image

  /** The eight compositing operations the editor offers. */
  datatype BlendMode =
    SourceOver | Multiply | Screen | Overlay | SoftLight | HardLight | ColorDodge | Difference

  /** One watermark layer. Text and image layers share one flat record, as
      in the editor: a text layer still carries a (null) logo reference and
      an image layer still carries text settings. */
  datatype Layer = Layer(
    id: LayerId,
    kind: LayerKind,
    visible: bool,
    name: string,
    blendMode: BlendMode,
    opacity: real,
    rotation: real,
    size: real,
    posX: real,
    posY: real,
    isTiled: bool,
    tileDensity: real,
    text: string,
    textColor: string,
    isBold: bool,
    isItalic: bool,
    strokeWidth: real,
    strokeColor: string,
    logoId: Option<LogoId>)

  /** An entry of the logo library. */
  datatype Logo = Logo(id: LogoId, name: string)

  const TextLayerName: string := "文字水印"
  const ImageLayerName: string := "Logo水印"
  const CopySuffix: string := " (复制)"

  /** A new layer with the editor's defaults. */
  function CreateLayer(kind: LayerKind, logoId: Option<LogoId>, id: LayerId): (l: Layer)
    ensures l.id == id && l.kind == kind && l.logoId == logoId
    ensures l.visible && !l.isTiled && l.blendMode == SourceOver
    ensures l.posX == 50.0 && l.posY == 50.0 && l.size == 150.0 && l.rotation == 0.0
    ensures l.name == if kind == Text then TextLayerName else ImageLayerName
  {
    Layer(id, kind, true, if kind == Text then TextLayerName else ImageLayerName,
          SourceOver, 0.8, 0.0, 150.0, 50.0, 50.0, false, 50.0,
          "@我的版权水印", "#ffffff", true, false, 2.0, "#000000", logoId)
  }

  // ---------------------------------------------------------------------
  // Partial updates: the object spread `{ ...layer, ...updates }`
  // ---------------------------------------------------------------------

  /** A partial layer: every property except `id` is either present (Some)
      or absent (None). */
  datatype Patch = Patch(
    kind: Option<LayerKind>,
    visible: Option<bool>,
    name: Option<string>,
    blendMode: Option<BlendMode>,
    opacity: Option<real>,
    rotation: Option<real>,
    size: Option<real>,
    posX: Option<real>,
    posY: Option<real>,
    isTiled: Option<bool>,
    tileDensity: Option<real>,
    text: Option<string>,
    textColor: Option<string>,
    isBold: Option<bool>,
    isItalic: Option<bool>,
    strokeWidth: Option<real>,
    strokeColor: Option<string>,
    logoId: Option<Option<LogoId>>)

  /** The empty update `{}`. */
  const NoChange: Patch := Patch(None, None, None, None, None, None, None, None, None,
                                 None, None, None, None, None, None, None, None, None)

  /** The property a patch carries wins over the one the layer has. */
  function Over<T>(current: T, update: Option<T>): T {
    update.GetOr(current)
  }

  /** `{ ...l, ...p }` */
  function Merge(l: Layer, p: Patch): (r: Layer)
    ensures r.id == l.id
  {
    Layer(l.id, Over(l.kind, p.kind), Over(l.visible, p.visible), Over(l.name, p.name),
          Over(l.blendMode, p.blendMode), Over(l.opacity, p.opacity),
          Over(l.rotation, p.rotation), Over(l.size, p.size), Over(l.posX, p.posX),
          Over(l.posY, p.posY), Over(l.isTiled, p.isTiled),
          Over(l.tileDensity, p.tileDensity), Over(l.text, p.text),
          Over(l.textColor, p.textColor), Over(l.isBold, p.isBold),
          Over(l.isItalic, p.isItalic), Over(l.strokeWidth, p.strokeWidth),
          Over(l.strokeColor, p.strokeColor), Over(l.logoId, p.logoId))
  }

  /** Of two settings of one property, the later one if present. */
  function Latest<T>(earlier: Option<T>, later: Option<T>): Option<T> {
    if later.Some? then later else earlier
  }

  /** `{ ...p, ...q }`: the keys of q win. */
  function Combine(p: Patch, q: Patch): Patch {
    Patch(Latest(p.kind, q.kind), Latest(p.visible, q.visible), Latest(p.name, q.name),
          Latest(p.blendMode, q.blendMode), Latest(p.opacity, q.opacity), Latest(p.rotation, q.rotation),
          Latest(p.size, q.size), Latest(p.posX, q.posX), Latest(p.posY, q.posY),
          Latest(p.isTiled, q.isTiled), Latest(p.tileDensity, q.tileDensity), Latest(p.text, q.text),
          Latest(p.textColor, q.textColor), Latest(p.isBold, q.isBold), Latest(p.isItalic, q.isItalic),
          Latest(p.strokeWidth, q.strokeWidth), Latest(p.strokeColor, q.strokeColor), Latest(p.logoId, q.logoId))
  }

  /** Merging nothing leaves the layer as it was. */
  lemma MergeNoChange(l: Layer)
    ensures Merge(l, NoChange) == l
  {
  }

  /** Applying the same update twice is applying it once. */
  lemma MergeIdempotent(l: Layer, p: Patch)
    ensures Merge(Merge(l, p), p) == Merge(l, p)
  {
  }

  /** Two successive updates are one update with the later keys winning. */
  lemma MergeCombine(l: Layer, p: Patch, q: Patch)
    ensures Merge(Merge(l, p), q) == Merge(l, Combine(p, q))
  {
  }

  // ---------------------------------------------------------------------
  // Ids and lookup
  // ---------------------------------------------------------------------

  /** The ids of a stack, in stack order. */
  function Ids(layers: seq<Layer>): (ids: seq<LayerId>)
    ensures |ids| == |layers|
    ensures forall i :: 0 <= i < |layers| ==> ids[i] == layers[i].id
  {
    seq(|layers|, i requires 0 <= i < |layers| => layers[i].id)
  }

  /** No two layers of the stack share an id. */
  ghost predicate UniqueIds(layers: seq<Layer>) {
    forall i, j :: 0 <= i < j < |layers| ==> layers[i].id != layers[j].id
  }

  /** `layers.findIndex(l => l.id === id)`: the first position holding
      `id`, or -1. */
  function IndexOfId(layers: seq<Layer>, id: LayerId): (k: int)
    ensures -1 <= k < |layers|
    ensures 0 <= k ==> layers[k].id == id
    ensures forall j :: 0 <= j < |layers| && (k < 0 || j < k) ==> layers[j].id != id
  {
    if layers == [] then -1
    else if layers[0].id == id then 0
    else
      var k := IndexOfId(layers[1..], id);
      if k < 0 then -1 else k + 1
  }

  /** `layers.find(l => l.id === id)` */
  function FindById(layers: seq<Layer>, id: LayerId): (r: Option<Layer>)
    ensures r.Some? ==> r.value in layers && r.value.id == id
    ensures r.Some? ==> exists k :: 0 <= k < |layers| && layers[k] == r.value
                                      && forall j :: 0 <= j < k ==> layers[j].id != id
    ensures r.None? <==> id !in Ids(layers)
  {
    var k := IndexOfId(layers, id);
    if k < 0 then None else Some(layers[k])
  }

  /** In a stack with unique ids, looking up the id of a layer finds that
      layer. */
  lemma FindByIdUnique(layers: seq<Layer>, k: nat)
    requires UniqueIds(layers) && k < |layers|
    ensures FindById(layers, layers[k].id) == Some(layers[k])
  {
  }

  /** The layer the editor works on: the one whose id is active, falling
      back to the bottom layer when none matches. */
  function ActiveLayer(layers: seq<Layer>, active: Option<LayerId>): (r: Layer)
    requires |layers| > 0
    ensures r in layers
    ensures active.Some? && active.value in Ids(layers) ==> r.id == active.value
    ensures active.None? || active.value !in Ids(layers) ==> r == layers[0]
  {
    match active
    case None => layers[0]
    case Some(a) => FindById(layers, a).GetOr(layers[0])
  }

  // ---------------------------------------------------------------------
  // Updates
  // ---------------------------------------------------------------------

  /** `layers.map(l => l.id === id ? { ...l, ...p } : l)` */
  function UpdateLayer(layers: seq<Layer>, id: LayerId, p: Patch): (r: seq<Layer>)
    ensures Ids(r) == Ids(layers)
    ensures forall i :: 0 <= i < |layers| && layers[i].id != id ==> r[i] == layers[i]
    ensures forall i :: 0 <= i < |layers| && layers[i].id == id ==> r[i] == Merge(layers[i], p)
  {
    seq(|layers|, i requires 0 <= i < |layers| =>
          if layers[i].id == id then Merge(layers[i], p) else layers[i])
  }

  /** `layers.map(l => ({ ...l, ...p }))` */
  function UpdateAll(layers: seq<Layer>, p: Patch): (r: seq<Layer>)
    ensures Ids(r) == Ids(layers)
    ensures forall i :: 0 <= i < |layers| ==> r[i] == Merge(layers[i], p)
  {
    seq(|layers|, i requires 0 <= i < |layers| => Merge(layers[i], p))
  }

  /** An update addressed to an id that is not in the stack changes nothing. */
  lemma UpdateUnknownId(layers: seq<Layer>, id: LayerId, p: Patch)
    requires id !in Ids(layers)
    ensures UpdateLayer(layers, id, p) == layers
  {
  }

  /** Updates addressed to two different layers commute. */
  lemma UpdatesCommute(layers: seq<Layer>, a: LayerId, p: Patch, b: LayerId, q: Patch)
    requires a != b
    ensures UpdateLayer(UpdateLayer(layers, a, p), b, q) == UpdateLayer(UpdateLayer(layers, b, q), a, p)
  {
  }

  /** Updating the layers with the given ids one after another. */
  function UpdateEach(layers: seq<Layer>, ids: seq<LayerId>, p: Patch): seq<Layer>
    decreases |ids|
  {
    if ids == [] then layers else UpdateEach(UpdateLayer(layers, ids[0], p), ids[1..], p)
  }

  /** After updating each id of `ids` in turn, exactly the layers whose id
      is listed carry the update. */
  lemma {:induction false} UpdateEachAt(layers: seq<Layer>, ids: seq<LayerId>, p: Patch)
    ensures |UpdateEach(layers, ids, p)| == |layers|
    ensures forall i :: 0 <= i < |layers| ==>
      UpdateEach(layers, ids, p)[i] == if layers[i].id in ids then Merge(layers[i], p) else layers[i]
    decreases |ids|
  {
    if ids != [] {
      var once := UpdateLayer(layers, ids[0], p);
      UpdateEachAt(once, ids[1..], p);
      assert Ids(once) == Ids(layers);
      forall i | 0 <= i < |layers|
        ensures UpdateEach(layers, ids, p)[i] == if layers[i].id in ids then Merge(layers[i], p) else layers[i]
      {
        assert once[i].id == layers[i].id;
        assert layers[i].id in ids <==> layers[i].id == ids[0] || layers[i].id in ids[1..];
        if layers[i].id == ids[0] {
          MergeIdempotent(layers[i], p);
        }
      }
    }
  }

  /** Broadcasting an update to all layers is the same as updating every
      layer by its own id. */
  lemma UpdateAllIsUpdateEachLayer(layers: seq<Layer>, p: Patch)
    ensures UpdateAll(layers, p) == UpdateEach(layers, Ids(layers), p)
  {
    UpdateEachAt(layers, Ids(layers), p);
  }

  // ---------------------------------------------------------------------
  // The stack with its active layer
  // ---------------------------------------------------------------------

  /** The layer list together with the id of the active layer (null until
      the editor picks the bottom layer). */
  datatype Stack = Stack(layers: seq<Layer>, active: Option<LayerId>)

  /** The active id, when set, names a layer of the stack. */
  ghost predicate ActiveInStack(st: Stack) {
    st.active.Some? ==> st.active.value in Ids(st.layers)
  }

  /** The stack invariant: never empty, unique ids, and the active id
      names one of its layers. */
  ghost predicate WellFormed(st: Stack) {
    |st.layers| >= 1 && UniqueIds(st.layers) && ActiveInStack(st)
  }

  /** The offset position of a new layer: both coordinates are
      50 + 2 * (layers already in the stack). */
  function NewLayerPosition(count: nat): real {
    50.0 + (count as real) * 2.0
  }

  /** `addLayer`: append a fresh layer, offset it, and make it active. */
  function AddLayer(st: Stack, kind: LayerKind, logoId: Option<LogoId>, freshId: LayerId): (r: Stack)
    requires freshId !in Ids(st.layers)
    ensures |r.layers| == |st.layers| + 1 && r.layers[..|st.layers|] == st.layers
    ensures r.layers[|st.layers|].id == freshId && r.active == Some(freshId)
    ensures r.layers[|st.layers|].kind == kind && r.layers[|st.layers|].logoId == logoId
    ensures r.layers[|st.layers|].posX == r.layers[|st.layers|].posY == 50.0 + 2.0 * (|st.layers| as real)
    ensures r.layers[|st.layers|] == CreateLayer(kind, logoId, freshId).(posX := NewLayerPosition(|st.layers|),
                                                                        posY := NewLayerPosition(|st.layers|))
  {
    var created := CreateLayer(kind, logoId, freshId);
    var n := |st.layers|;
    Stack(st.layers + [created.(posX := NewLayerPosition(n), posY := NewLayerPosition(n))], Some(freshId))
  }

  /** Appending a layer with a fresh id keeps the ids unique. */
  lemma AppendFreshUnique(layers: seq<Layer>, l: Layer)
    requires UniqueIds(layers) && l.id !in Ids(layers)
    ensures UniqueIds(layers + [l])
    ensures Ids(layers + [l]) == Ids(layers) + [l.id]
  {
    assert forall i :: 0 <= i < |layers| ==> layers[i].id in Ids(layers);
  }

  /** Adding a layer keeps the stack well formed, and the new layer is the
      one the editor then works on. */
  lemma AddLayerWellFormed(st: Stack, kind: LayerKind, logoId: Option<LogoId>, freshId: LayerId)
    requires WellFormed(st) && freshId !in Ids(st.layers)
    ensures WellFormed(AddLayer(st, kind, logoId, freshId))
    ensures var r := AddLayer(st, kind, logoId, freshId);
            ActiveLayer(r.layers, r.active) == r.layers[|r.layers| - 1]
  {
    var r := AddLayer(st, kind, logoId, freshId);
    AppendFreshUnique(st.layers, r.layers[|st.layers|]);
    assert r.layers == st.layers + [r.layers[|st.layers|]];
    FindByIdUnique(r.layers, |st.layers|);
  }

  /** `layers.filter(l => l.id !== id)` */
  function WithoutId(layers: seq<Layer>, id: LayerId): (r: seq<Layer>)
    ensures |r| <= |layers|
  {
    if layers == [] then []
    else (if layers[0].id == id then [] else [layers[0]]) + WithoutId(layers[1..], id)
  }

  /** Filtering distributes over concatenation, so the remaining layers keep
      their relative order. */
  lemma {:induction false} WithoutIdAppend(a: seq<Layer>, b: seq<Layer>, id: LayerId)
    ensures WithoutId(a + b, id) == WithoutId(a, id) + WithoutId(b, id)
  {
    if a == [] {
      assert a + b == b;
    } else {
      assert (a + b)[0] == a[0] && (a + b)[1..] == a[1..] + b;
      WithoutIdAppend(a[1..], b, id);
    }
  }

  /** The filter keeps only layers of the stack, none of them with `id`. */
  lemma {:induction false} WithoutIdSubset(layers: seq<Layer>, id: LayerId, l: Layer)
    requires l in WithoutId(layers, id)
    ensures l in layers && l.id != id
  {
    var head := if layers[0].id == id then [] else [layers[0]];
    assert WithoutId(layers, id) == head + WithoutId(layers[1..], id);
    if l !in head {
      WithoutIdSubset(layers[1..], id, l);
    }
  }

  /** Every layer with another id survives the filter. */
  lemma {:induction false} WithoutIdKeeps(layers: seq<Layer>, id: LayerId, l: Layer)
    requires l in layers && l.id != id
    ensures l in WithoutId(layers, id)
  {
    if layers[0] != l {
      WithoutIdKeeps(layers[1..], id, l);
    }
  }

  /** The ids left after the filter are the old ids other than `id`. */
  lemma WithoutIdIds(layers: seq<Layer>, id: LayerId, x: LayerId)
    ensures x in Ids(WithoutId(layers, id)) <==> x in Ids(layers) && x != id
  {
    var r := WithoutId(layers, id);
    if x in Ids(r) {
      var i :| 0 <= i < |r| && r[i].id == x;
      WithoutIdSubset(layers, id, r[i]);
      var j :| 0 <= j < |layers| && layers[j] == r[i];
      assert Ids(layers)[j] == x;
    }
    if x in Ids(layers) && x != id {
      var j :| 0 <= j < |layers| && layers[j].id == x;
      WithoutIdKeeps(layers, id, layers[j]);
      var i :| 0 <= i < |r| && r[i] == layers[j];
      assert Ids(r)[i] == x;
    }
  }

  /** Filtering out an id no layer has changes nothing. */
  lemma {:induction false} WithoutIdAbsent(layers: seq<Layer>, id: LayerId)
    requires forall i :: 0 <= i < |layers| ==> layers[i].id != id
    ensures WithoutId(layers, id) == layers
  {
    if layers != [] {
      WithoutIdAbsent(layers[1..], id);
      assert layers == [layers[0]] + layers[1..];
    }
  }

  /** Filtering keeps the ids unique. */
  lemma {:induction false} WithoutIdUnique(layers: seq<Layer>, id: LayerId)
    requires UniqueIds(layers)
    ensures UniqueIds(WithoutId(layers, id))
  {
    if layers != [] {
      var tail := layers[1..];
      WithoutIdUnique(tail, id);
      var rest := WithoutId(tail, id);
      forall l | l in rest ensures l.id != layers[0].id {
        WithoutIdSubset(tail, id, l);
        var j :| 0 <= j < |tail| && tail[j] == l;
        assert layers[j + 1] == l;
      }
    }
  }

  /** With unique ids, removing a present id drops exactly one layer and
      removing an absent one drops none. */
  lemma {:induction false} WithoutIdLength(layers: seq<Layer>, id: LayerId)
    requires UniqueIds(layers)
    ensures |WithoutId(layers, id)| == if id in Ids(layers) then |layers| - 1 else |layers|
  {
    if layers != [] {
      var tail := layers[1..];
      assert Ids(layers) == [layers[0].id] + Ids(tail);
      if layers[0].id == id {
        forall j | 0 <= j < |tail| ensures tail[j].id != id {
          assert layers[j + 1] == tail[j];
        }
        WithoutIdAbsent(tail, id);
      } else {
        WithoutIdLength(tail, id);
      }
    }
  }

  /** Filtering out the id of a bottom layer that is the only one with it
      leaves the layers above it. */
  lemma WithoutIdDropsBottom(x: Layer, above: seq<Layer>)
    requires forall i :: 0 <= i < |above| ==> above[i].id != x.id
    ensures WithoutId([x] + above, x.id) == above
  {
    assert WithoutId([x], x.id) == [] by {
      assert [x][1..] == [];
    }
    WithoutIdAppend([x], above, x.id);
    WithoutIdAbsent(above, x.id);
  }

  /** Filtering out the id of the only layer that has it splices that
      layer out. */
  lemma WithoutIdSplice(below: seq<Layer>, x: Layer, above: seq<Layer>)
    requires forall i :: 0 <= i < |below| ==> below[i].id != x.id
    requires forall i :: 0 <= i < |above| ==> above[i].id != x.id
    ensures WithoutId(below + ([x] + above), x.id) == below + above
  {
    WithoutIdDropsBottom(x, above);
    WithoutIdAppend(below, [x] + above, x.id);
    WithoutIdAbsent(below, x.id);
  }

  /** With unique ids, filtering out the id of the layer at k is cutting
      that one position out of the stack: the layers below and above it
      stay, in their order. */
  lemma WithoutIdIsRemoveAt(layers: seq<Layer>, k: nat)
    requires UniqueIds(layers) && k < |layers|
    ensures WithoutId(layers, layers[k].id) == layers[..k] + layers[k + 1..]
  {
    var below, above := layers[..k], layers[k + 1..];
    forall i | 0 <= i < |below| ensures below[i].id != layers[k].id {
      assert below[i] == layers[i];
    }
    forall i | 0 <= i < |above| ensures above[i].id != layers[k].id {
      assert above[i] == layers[k + 1 + i];
    }
    WithoutIdSplice(below, layers[k], above);
    assert layers[k..] == [layers[k]] + above;
    assert layers == below + layers[k..];
  }

  /** What `removeLayer` refuses to do, and says so. */
  datatype Refusal = KeepAtLeastOneLayer

  /** The last layer of a non-empty stack. */
  function Top(layers: seq<Layer>): Layer
    requires |layers| > 0
  {
    layers[|layers| - 1]
  }

  /** `removeLayer`: refused on a stack of one layer; otherwise filters out
      `id` and, if that was the active layer, activates the new top layer. */
  function RemoveLayer(st: Stack, id: LayerId): (r: Result<Stack, Refusal>)
    requires UniqueIds(st.layers)
    ensures r.Failure? <==> |st.layers| <= 1
    ensures r.Failure? ==> r.error == KeepAtLeastOneLayer
    ensures r.Success? ==> r.value.layers == WithoutId(st.layers, id) && |r.value.layers| >= 1
    ensures r.Success? && st.active != Some(id) ==> r.value.active == st.active
    ensures r.Success? && st.active == Some(id) ==> r.value.active == Some(Top(r.value.layers).id)
  {
    if |st.layers| <= 1 then Failure(KeepAtLeastOneLayer)
    else
      var remaining := WithoutId(st.layers, id);
      WithoutIdLength(st.layers, id);
      Success(Stack(remaining, if st.active == Some(id) then Some(Top(remaining).id) else st.active))
  }

  /** Removing a layer keeps the stack well formed (in particular never
      empty), deletes exactly the layer with that id, and keeps every other
      layer in its relative order. */
  lemma RemoveLayerWellFormed(st: Stack, id: LayerId)
    requires WellFormed(st)
    ensures var r := RemoveLayer(st, id);
            r.Success? ==> (&& WellFormed(r.value)
                            && id !in Ids(r.value.layers)
                            && |r.value.layers| == (if id in Ids(st.layers) then |st.layers| - 1 else |st.layers|))
  {
    var r := RemoveLayer(st, id);
    if r.Success? {
      WithoutIdUnique(st.layers, id);
      WithoutIdLength(st.layers, id);
      WithoutIdIds(st.layers, id, id);
      if st.active.Some? {
        WithoutIdIds(st.layers, id, st.active.value);
      }
      if st.active == Some(id) {
        var rem := r.value.layers;
        assert Ids(rem)[|rem| - 1] == Top(rem).id;
      }
    }
  }

  /** A copy of `l` under a fresh id: named with a suffix and shifted by 5
      in both directions. */
  function CopyOf(l: Layer, freshId: LayerId): (c: Layer)
    ensures c.id == freshId && c.name == l.name + CopySuffix
    ensures c.posX == l.posX + 5.0 && c.posY == l.posY + 5.0
    ensures c.(id := l.id, name := l.name, posX := l.posX, posY := l.posY) == l
  {
    l.(id := freshId, name := l.name + CopySuffix, posX := l.posX + 5.0, posY := l.posY + 5.0)
  }

  /** `duplicateLayer`: an unknown id changes nothing; otherwise a copy of
      the layer is appended and made active. */
  function DuplicateLayer(st: Stack, id: LayerId, freshId: LayerId): (r: Stack)
    requires freshId !in Ids(st.layers)
    ensures id !in Ids(st.layers) ==> r == st
    ensures id in Ids(st.layers) ==>
              && |r.layers| == |st.layers| + 1
              && r.layers[..|st.layers|] == st.layers
              && r.active == Some(freshId)
              && var original := FindById(st.layers, id).value;
                 original.id == id && r.layers[|st.layers|] == CopyOf(original, freshId)
  {
    match FindById(st.layers, id)
    case None => st
    case Some(original) => Stack(st.layers + [CopyOf(original, freshId)], Some(freshId))
  }

  /** Duplicating keeps the stack well formed, and the copy becomes the
      layer the editor works on. */
  lemma DuplicateLayerWellFormed(st: Stack, id: LayerId, freshId: LayerId)
    requires WellFormed(st) && freshId !in Ids(st.layers)
    ensures WellFormed(DuplicateLayer(st, id, freshId))
    ensures var r := DuplicateLayer(st, id, freshId);
            id in Ids(st.layers) ==> ActiveLayer(r.layers, r.active) == r.layers[|r.layers| - 1]
  {
    var r := DuplicateLayer(st, id, freshId);
    if id in Ids(st.layers) {
      var copy := r.layers[|st.layers|];
      AppendFreshUnique(st.layers, copy);
      assert r.layers == st.layers + [copy];
      FindByIdUnique(r.layers, |st.layers|);
    }
  }

  /** Updating one layer keeps the stack well formed: ids and order are
      untouched. */
  lemma UpdateKeepsWellFormed(st: Stack, id: LayerId, p: Patch)
    requires WellFormed(st)
    ensures WellFormed(Stack(UpdateLayer(st.layers, id, p), st.active))
  {
    var r := UpdateLayer(st.layers, id, p);
    assert forall i :: 0 <= i < |r| ==> r[i].id == Ids(r)[i] == Ids(st.layers)[i];
  }

  /** Broadcasting an update keeps the stack well formed. */
  lemma UpdateAllKeepsWellFormed(st: Stack, p: Patch)
    requires WellFormed(st)
    ensures WellFormed(Stack(UpdateAll(st.layers, p), st.active))
  {
    var r := UpdateAll(st.layers, p);
    assert forall i :: 0 <= i < |r| ==> r[i].id == Ids(r)[i] == Ids(st.layers)[i];
  }
}
