/** The image list at the bottom of the editor: which image is shown
    (`selectedIndex`) and which images are ticked for batch export
    (`selectedIds`). */
module ImageSelection {

  /** Image ids are opaque numbers; only equality is used. */
  type ImageId = int

  /** A loaded image; its pixels and file handle are not modelled. */
  datatype ImageItem = ImageItem(id: ImageId, name: string)

  /** The list, the ticked ids, and the index of the image on the canvas. */
  datatype Gallery = Gallery(images: seq<ImageItem>, selected: set<ImageId>, selectedIndex: nat)

  /** The ids of the list. */
  function ImageIds(images: seq<ImageItem>): set<ImageId> {
    set i | 0 <= i < |images| :: images[i].id
  }

  ghost predicate UniqueImageIds(images: seq<ImageItem>) {
    forall i, j :: 0 <= i < j < |images| ==> images[i].id != images[j].id
  }

  /** The gallery invariant: ids are unique and only listed images are
      ticked. */
  ghost predicate Consistent(g: Gallery) {
    UniqueImageIds(g.images) && g.selected <= ImageIds(g.images)
  }

  /** `toggleSelection`: tick an unticked id, untick a ticked one. */
  function Toggle(selected: set<ImageId>, id: ImageId): (r: set<ImageId>)
    ensures id in r <==> id !in selected
    ensures forall x :: x != id ==> (x in r <==> x in selected)
  {
    if id in selected then selected - {id} else selected + {id}
  }

  /** Toggling the same id twice restores the selection. */
  lemma ToggleTwice(selected: set<ImageId>, id: ImageId)
    ensures Toggle(Toggle(selected, id), id) == selected
  {
  }

  /** Toggling a listed image keeps the gallery consistent. */
  lemma ToggleConsistent(g: Gallery, id: ImageId)
    requires Consistent(g) && id in ImageIds(g.images)
    ensures Consistent(g.(selected := Toggle(g.selected, id)))
  {
  }

  /** `selectAll`: clear the selection when as many ids are ticked as there
      are images, tick every image otherwise. */
  function SelectAll(selected: set<ImageId>, images: seq<ImageItem>): (r: set<ImageId>)
    ensures r == {} || r == ImageIds(images)
    ensures |selected| == |images| ==> r == {}
    ensures |selected| != |images| ==> r == ImageIds(images)
  {
    if |selected| == |images| then {} else ImageIds(images)
  }

  /** With unique ids, there are as many ids as images. */
  lemma {:induction false} ImageIdsCount(images: seq<ImageItem>)
    requires UniqueImageIds(images)
    ensures |ImageIds(images)| == |images|
  {
    if images != [] {
      var last := |images| - 1;
      var init := images[..last];
      ImageIdsCount(init);
      assert ImageIds(images) == ImageIds(init) + {images[last].id};
      assert images[last].id !in ImageIds(init);
    }
  }

  /** A subset as large as its superset is the superset. */
  lemma SubsetOfSameSize(a: set<ImageId>, b: set<ImageId>)
    requires a <= b && |a| == |b|
    ensures a == b
  {
    assert |b - a| == |b| - |a|;
  }

  /** On a consistent gallery the size test means "everything is ticked":
      select-all unticks everything when all images are ticked and ticks
      every image otherwise. */
  lemma SelectAllIsAllOrNothing(g: Gallery)
    requires Consistent(g)
    ensures SelectAll(g.selected, g.images) ==
              if g.selected == ImageIds(g.images) then {} else ImageIds(g.images)
    ensures Consistent(g.(selected := SelectAll(g.selected, g.images)))
  {
    ImageIdsCount(g.images);
    if |g.selected| == |g.images| {
      SubsetOfSameSize(g.selected, ImageIds(g.images));
    }
  }

  /** `removeImage`: drop the image at `index`, untick its id, and when it
      was the image on the canvas show the one before it (or the first). */
  function RemoveImage(g: Gallery, index: nat): (r: Gallery)
    requires index < |g.images|
    ensures |r.images| == |g.images| - 1
    ensures forall i :: 0 <= i < index ==> r.images[i] == g.images[i]
    ensures forall i :: index <= i < |r.images| ==> r.images[i] == g.images[i + 1]
    ensures r.selected == g.selected - {g.images[index].id}
    ensures index == g.selectedIndex ==> r.selectedIndex == if index == 0 then 0 else index - 1
    ensures index != g.selectedIndex ==> r.selectedIndex == g.selectedIndex
  {
    var removed := g.images[index];
    Gallery(g.images[..index] + g.images[index + 1..],
            g.selected - {removed.id},
            if index == g.selectedIndex then (if index == 0 then 0 else index - 1) else g.selectedIndex)
  }

  /** Removing an image of a consistent gallery removes exactly its id from
      the list, and the gallery stays consistent. */
  lemma RemoveImageConsistent(g: Gallery, index: nat)
    requires Consistent(g) && index < |g.images|
    ensures var r := RemoveImage(g, index);
            && ImageIds(r.images) == ImageIds(g.images) - {g.images[index].id}
            && Consistent(r)
  {
    var r := RemoveImage(g, index);
    var gone := g.images[index].id;
    forall x | x in ImageIds(r.images) ensures x in ImageIds(g.images) - {gone} {
      var i :| 0 <= i < |r.images| && r.images[i].id == x;
      if i < index {
        assert g.images[i].id == x;
      } else {
        assert g.images[i + 1].id == x;
      }
    }
    forall x | x in ImageIds(g.images) - {gone} ensures x in ImageIds(r.images) {
      var i :| 0 <= i < |g.images| && g.images[i].id == x;
      if i < index {
        assert r.images[i].id == x;
      } else {
        assert i != index;
        assert r.images[i - 1].id == x;
      }
    }
  }

  /** Removing the image on the canvas, when it is not the first, shows
      the image that was just before it. */
  lemma RemoveShownImageShowsPrevious(g: Gallery, index: nat)
    requires index < |g.images| && index == g.selectedIndex && index > 0
    ensures var r := RemoveImage(g, index);
            r.selectedIndex < |r.images| && r.images[r.selectedIndex] == g.images[index - 1]
  {
  }

  /** Removing an image before the one on the canvas keeps the index, so
      the canvas moves on to the image that followed the shown one (or to
      no image when the shown one was last). */
  lemma RemoveEarlierImageKeepsIndex(g: Gallery, index: nat)
    requires index < g.selectedIndex < |g.images|
    ensures var r := RemoveImage(g, index);
            && r.selectedIndex == g.selectedIndex
            && (g.selectedIndex + 1 < |g.images| ==> r.images[r.selectedIndex] == g.images[g.selectedIndex + 1])
            && (g.selectedIndex + 1 == |g.images| ==> r.selectedIndex == |r.images|)
  {
  }

  /** The end of the upload handler: the decoded images are appended, and
      an empty list starts showing its first image. */
  function AppendImages(g: Gallery, added: seq<ImageItem>): (r: Gallery)
    ensures r.images == g.images + added && r.selected == g.selected
    ensures r.selectedIndex == if g.images == [] then 0 else g.selectedIndex
  {
    Gallery(g.images + added, g.selected, if |g.images| == 0 then 0 else g.selectedIndex)
  }

  /** Appending images with new, distinct ids keeps the gallery consistent. */
  lemma AppendImagesConsistent(g: Gallery, added: seq<ImageItem>)
    requires Consistent(g) && UniqueImageIds(added) && ImageIds(added) !! ImageIds(g.images)
    ensures Consistent(AppendImages(g, added))
  {
    var all := g.images + added;
    forall i, j | 0 <= i < j < |all| ensures all[i].id != all[j].id {
      if i < |g.images| && j >= |g.images| {
        assert all[i].id in ImageIds(g.images);
        assert all[j] == added[j - |g.images|];
        assert all[j].id in ImageIds(added);
      } else if i >= |g.images| {
        assert all[i] == added[i - |g.images|] && all[j] == added[j - |g.images|];
      }
    }
    forall x | x in g.selected ensures x in ImageIds(all) {
      var i :| 0 <= i < |g.images| && g.images[i].id == x;
      assert all[i] == g.images[i];
    }
  }
}
