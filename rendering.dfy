/** Which layers a render pass paints, and in what order. The drawing
    itself (fonts, shadows, blending, tiling geometry) is not modelled: a
    pass is summarised by the sequence of layers it hands to the drawing
    routine. */
module Rendering {
  import opened Wrappers
  import opened LayerModel

  /** The ids of the logo library, in library order. */
  function LogoIds(logos: seq<Logo>): seq<LogoId> {
    seq(|logos|, i requires 0 <= i < |logos| => logos[i].id)
  }

  /** A text layer can always be drawn; an image layer only when its logo
      reference resolves in the library (otherwise the layer is skipped). */
  predicate Drawable(l: Layer, logos: seq<Logo>) {
    l.kind == Text || (l.logoId.Some? && l.logoId.value in LogoIds(logos))
  }

  /** A layer reaches the canvas when it is visible and drawable. */
  predicate Paints(l: Layer, logos: seq<Logo>) {
    l.visible && Drawable(l, logos)
  }

  /** The layers a render pass paints, bottom (index 0) first. */
  function PaintedLayers(layers: seq<Layer>, logos: seq<Logo>): (r: seq<Layer>)
    ensures |r| <= |layers|
    ensures forall l :: l in r ==> l in layers && Paints(l, logos)
  {
    if layers == [] then []
    else (if Paints(layers[0], logos) then [layers[0]] else []) + PaintedLayers(layers[1..], logos)
  }

  /** Painting a stack is painting its lower part, then its upper part. */
  lemma {:induction false} PaintedAppend(a: seq<Layer>, b: seq<Layer>, logos: seq<Logo>)
    ensures PaintedLayers(a + b, logos) == PaintedLayers(a, logos) + PaintedLayers(b, logos)
  {
    if a == [] {
      assert a + b == b;
    } else {
      assert (a + b)[0] == a[0] && (a + b)[1..] == a[1..] + b;
      PaintedAppend(a[1..], b, logos);
    }
  }

  /** Everything below position k is painted before everything above it. */
  lemma PaintedInStackOrder(layers: seq<Layer>, k: nat, logos: seq<Logo>)
    requires k <= |layers|
    ensures PaintedLayers(layers, logos) == PaintedLayers(layers[..k], logos) + PaintedLayers(layers[k..], logos)
  {
    assert layers == layers[..k] + layers[k..];
    PaintedAppend(layers[..k], layers[k..], logos);
  }

  /** Every visible, drawable layer of the stack is painted. */
  lemma {:induction false} PaintedKeeps(layers: seq<Layer>, logos: seq<Logo>, l: Layer)
    requires l in layers && Paints(l, logos)
    ensures l in PaintedLayers(layers, logos)
  {
    if layers[0] != l {
      PaintedKeeps(layers[1..], logos, l);
    }
  }

  /** A layer is painted exactly when it is in the stack, visible and
      drawable. */
  lemma PaintedIff(layers: seq<Layer>, logos: seq<Logo>, l: Layer)
    ensures l in PaintedLayers(layers, logos) <==> l in layers && l.visible && Drawable(l, logos)
  {
    if l in layers && Paints(l, logos) {
      PaintedKeeps(layers, logos, l);
    }
  }

  /** The update the eye toggle sends to hide a layer. */
  const Hide: Patch := NoChange.(visible := Some(false))

  /** Hiding a layer paints exactly what removing it would paint. */
  lemma {:induction false} HidingIsRemovingFromPaint(layers: seq<Layer>, id: LayerId, logos: seq<Logo>)
    ensures PaintedLayers(UpdateLayer(layers, id, Hide), logos) == PaintedLayers(WithoutId(layers, id), logos)
  {
    if layers != [] {
      var updated := UpdateLayer(layers, id, Hide);
      assert updated != [] && updated[1..] == UpdateLayer(layers[1..], id, Hide);
      HidingIsRemovingFromPaint(layers[1..], id, logos);
      var rest := WithoutId(layers[1..], id);
      if layers[0].id == id {
        assert !updated[0].visible;
        assert PaintedLayers(updated, logos) == PaintedLayers(updated[1..], logos);
        assert WithoutId(layers, id) == rest;
      } else {
        assert updated[0] == layers[0];
        var kept := [layers[0]] + rest;
        assert WithoutId(layers, id) == kept;
        assert kept[0] == layers[0] && kept[1..] == rest;
      }
    }
  }

  /** A new text layer is always painted; a new logo layer is painted
      exactly when its logo is in the library. */
  lemma CreatedLayerPaints(kind: LayerKind, logoId: Option<LogoId>, id: LayerId, logos: seq<Logo>)
    ensures Paints(CreateLayer(kind, logoId, id), logos) <==>
              kind == Text || (logoId.Some? && logoId.value in LogoIds(logos))
  {
  }

  /** A duplicate is painted exactly when its original is, on top of
      everything that was painted before. */
  lemma DuplicatePaintsLikeOriginal(st: Stack, id: LayerId, freshId: LayerId, logos: seq<Logo>)
    requires freshId !in Ids(st.layers) && id in Ids(st.layers)
    ensures var original := FindById(st.layers, id).value;
            PaintedLayers(DuplicateLayer(st, id, freshId).layers, logos)
              == PaintedLayers(st.layers, logos) + (if Paints(original, logos) then [CopyOf(original, freshId)] else [])
  {
    var original := FindById(st.layers, id).value;
    var copy := CopyOf(original, freshId);
    assert DuplicateLayer(st, id, freshId).layers == st.layers + [copy];
    PaintedAppend(st.layers, [copy], logos);
    assert [copy][1..] == [];
  }

  /** The render loop: walks the stack bottom-up and hands every visible
      layer to the drawing routine, which gives up on an image layer whose
      logo is not in the library. Returns the layers actually drawn, in
      the order they are drawn. */
  method RenderLayers(layers: seq<Layer>, logos: seq<Logo>) returns (drawn: seq<Layer>)
    ensures drawn == PaintedLayers(layers, logos)
  {
    drawn := [];
    for i := 0 to |layers|
      invariant drawn == PaintedLayers(layers[..i], logos)
    {
      var layer := layers[i];
      if layer.visible && Drawable(layer, logos) {
        drawn := drawn + [layer];
      }
      assert layers[..i + 1] == layers[..i] + [layer];
      PaintedAppend(layers[..i], [layer], logos);
      assert [layer][1..] == [];
    }
    assert layers[..|layers|] == layers;
  }
}
