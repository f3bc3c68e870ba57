/** The editor component's state and its event handlers. Each field is one
    piece of component state (or one mutable ref of the drag handlers);
    each method is one handler, and its postcondition ties the new state to
    the pure transforms of LayerModel, ImageSelection and DragControl. */
module Editor {
  import opened Wrappers
  import opened LayerModel
  import opened Rendering
  import opened ImageSelection
  import opened DragControl

  class WatermarkApp {
    // layer stack
    var layers: seq<Layer>
    var activeLayerId: Option<LayerId>
    var logoLibrary: seq<Logo>
    // image list
    var imageList: seq<ImageItem>
    var selectedIndex: nat
    var selectedIds: set<ImageId>
    // drag refs
    var isDragging: bool
    var dragStart: Point
    var initialPos: Point

    /** The stack is never empty, its ids are unique, the active id names a
        layer of it, and only listed images are ticked. */
    ghost predicate Valid()
      reads this
    {
      && WellFormed(Stack(layers, activeLayerId))
      && Consistent(Gallery(imageList, selectedIds, selectedIndex))
    }

    /** The layer the handlers act on. */
    function Active(): Layer
      reads this
      requires Valid()
    {
      ActiveLayer(layers, activeLayerId)
    }

    /** A fresh editor: one default text layer, no active id yet, no images,
        no logos, no drag. */
    constructor (initialId: LayerId)
      ensures Valid()
      ensures layers == [CreateLayer(Text, None, initialId)] && activeLayerId == None
      ensures logoLibrary == [] && imageList == [] && selectedIds == {} && selectedIndex == 0
      ensures !isDragging
    {
      layers := [CreateLayer(Text, None, initialId)];
      activeLayerId := None;
      logoLibrary := [];
      imageList := [];
      selectedIndex := 0;
      selectedIds := {};
      isDragging := false;
      dragStart := Point(0.0, 0.0);
      initialPos := Point(0.0, 0.0);
    }

    /** The effect that activates the bottom layer while no layer is active. */
    method PickInitialLayer()
      requires Valid()
      modifies this`activeLayerId
      ensures Valid()
      ensures old(activeLayerId).None? ==> activeLayerId == Some(layers[0].id)
      ensures old(activeLayerId).Some? ==> activeLayerId == old(activeLayerId)
    {
      if activeLayerId.None? {
        activeLayerId := Some(layers[0].id);
        assert Ids(layers)[0] == layers[0].id;
      }
    }

    /** Clicking a layer in the layer list makes it active. */
    method SetActiveLayer(id: LayerId)
      requires Valid() && id in Ids(layers)
      modifies this`activeLayerId
      ensures Valid() && activeLayerId == Some(id)
    {
      activeLayerId := Some(id);
    }

    /** `updateLayer`: merge `p` into the layer with this id. */
    method UpdateLayer(id: LayerId, p: Patch)
      requires Valid()
      modifies this`layers
      ensures Valid()
      ensures layers == LayerModel.UpdateLayer(old(layers), id, p)
    {
      UpdateKeepsWellFormed(Stack(layers, activeLayerId), id, p);
      layers := LayerModel.UpdateLayer(layers, id, p);
    }

    /** `updateAllLayers`: merge `p` into every layer when the user
        confirms; a declined confirmation changes nothing. */
    method UpdateAllLayers(p: Patch, confirmed: bool)
      requires Valid()
      modifies this`layers
      ensures Valid()
      ensures layers == if confirmed then UpdateAll(old(layers), p) else old(layers)
    {
      if confirmed {
        UpdateAllKeepsWellFormed(Stack(layers, activeLayerId), p);
        layers := UpdateAll(layers, p);
      }
    }

    /** `addLayer` */
    method AddLayer(kind: LayerKind, logoId: Option<LogoId>, freshId: LayerId)
      requires Valid() && freshId !in Ids(layers)
      modifies this`layers, this`activeLayerId
      ensures Valid()
      ensures Stack(layers, activeLayerId) == LayerModel.AddLayer(old(Stack(layers, activeLayerId)), kind, logoId, freshId)
      ensures Active() == layers[|layers| - 1] && Active().id == freshId
    {
      var st := LayerModel.AddLayer(Stack(layers, activeLayerId), kind, logoId, freshId);
      AddLayerWellFormed(Stack(layers, activeLayerId), kind, logoId, freshId);
      layers, activeLayerId := st.layers, st.active;
    }

    /** `removeLayer`: refused (and reported) when only one layer is left. */
    method RemoveLayer(id: LayerId) returns (refused: bool)
      requires Valid()
      modifies this`layers, this`activeLayerId
      ensures Valid()
      ensures refused <==> |old(layers)| <= 1
      ensures refused ==> layers == old(layers) && activeLayerId == old(activeLayerId)
      ensures !refused ==> Stack(layers, activeLayerId) == LayerModel.RemoveLayer(old(Stack(layers, activeLayerId)), id).value
    {
      var st := Stack(layers, activeLayerId);
      RemoveLayerWellFormed(st, id);
      match LayerModel.RemoveLayer(st, id)
      case Failure(_) =>
        refused := true;
      case Success(next) =>
        refused := false;
        layers, activeLayerId := next.layers, next.active;
    }

    /** `duplicateLayer` */
    method DuplicateLayer(id: LayerId, freshId: LayerId)
      requires Valid() && freshId !in Ids(layers)
      modifies this`layers, this`activeLayerId
      ensures Valid()
      ensures Stack(layers, activeLayerId) == LayerModel.DuplicateLayer(old(Stack(layers, activeLayerId)), id, freshId)
    {
      var st := LayerModel.DuplicateLayer(Stack(layers, activeLayerId), id, freshId);
      DuplicateLayerWellFormed(Stack(layers, activeLayerId), id, freshId);
      layers, activeLayerId := st.layers, st.active;
    }

    /** The end of the logo upload handler: the logo joins the library and
        a logo layer showing it is added. */
    method AddLogo(logo: Logo, freshId: LayerId)
      requires Valid() && freshId !in Ids(layers)
      modifies this`logoLibrary, this`layers, this`activeLayerId
      ensures Valid()
      ensures logoLibrary == old(logoLibrary) + [logo]
      ensures Stack(layers, activeLayerId) == LayerModel.AddLayer(old(Stack(layers, activeLayerId)), Image, Some(logo.id), freshId)
      ensures Paints(layers[|layers| - 1], logoLibrary)
    {
      logoLibrary := logoLibrary + [logo];
      AddLayer(Image, Some(logo.id), freshId);
      assert LogoIds(logoLibrary)[|logoLibrary| - 1] == logo.id;
    }

    /** The end of the image upload handler. */
    method AddImages(added: seq<ImageItem>)
      requires Valid() && UniqueImageIds(added) && ImageIds(added) !! ImageIds(imageList)
      modifies this`imageList, this`selectedIndex
      ensures Valid()
      ensures Gallery(imageList, selectedIds, selectedIndex) == AppendImages(old(Gallery(imageList, selectedIds, selectedIndex)), added)
    {
      var g := Gallery(imageList, selectedIds, selectedIndex);
      AppendImagesConsistent(g, added);
      var next := AppendImages(g, added);
      imageList, selectedIndex := next.images, next.selectedIndex;
    }

    /** Clicking a thumbnail shows that image. */
    method ShowImage(index: nat)
      requires Valid() && index < |imageList|
      modifies this`selectedIndex
      ensures Valid() && selectedIndex == index
    {
      selectedIndex := index;
    }

    /** `removeImage` */
    method RemoveImage(index: nat)
      requires Valid() && index < |imageList|
      modifies this`imageList, this`selectedIds, this`selectedIndex
      ensures Valid()
      ensures Gallery(imageList, selectedIds, selectedIndex) == ImageSelection.RemoveImage(old(Gallery(imageList, selectedIds, selectedIndex)), index)
    {
      var g := Gallery(imageList, selectedIds, selectedIndex);
      RemoveImageConsistent(g, index);
      var next := ImageSelection.RemoveImage(g, index);
      imageList, selectedIds, selectedIndex := next.images, next.selected, next.selectedIndex;
    }

    /** `toggleSelection`, from the tick box of a listed image. */
    method ToggleSelection(id: ImageId)
      requires Valid() && id in ImageIds(imageList)
      modifies this`selectedIds
      ensures Valid()
      ensures selectedIds == Toggle(old(selectedIds), id)
    {
      ToggleConsistent(Gallery(imageList, selectedIds, selectedIndex), id);
      selectedIds := Toggle(selectedIds, id);
    }

    /** `selectAll` */
    method SelectAll()
      requires Valid()
      modifies this`selectedIds
      ensures Valid()
      ensures selectedIds == if old(selectedIds) == ImageIds(imageList) then {} else ImageIds(imageList)
    {
      SelectAllIsAllOrNothing(Gallery(imageList, selectedIds, selectedIndex));
      selectedIds := ImageSelection.SelectAll(selectedIds, imageList);
    }

    /** `handlePointerDown`: start a drag of the active layer unless it is
        tiled. */
    method PointerDown(pointer: Point)
      requires Valid()
      modifies this`isDragging, this`dragStart, this`initialPos
      ensures Valid()
      ensures Active().isTiled ==> isDragging == old(isDragging) && dragStart == old(dragStart) && initialPos == old(initialPos)
      ensures !Active().isTiled ==> isDragging && dragStart == pointer && initialPos == Point(Active().posX, Active().posY)
    {
      var target := Active();
      if !target.isTiled {
        isDragging := true;
        dragStart := pointer;
        initialPos := Point(target.posX, target.posY);
      }
    }

    /** `handlePointerMove`: during a drag, move the active layer to the
        drag position; otherwise do nothing. */
    method PointerMove(pointer: Point, rectWidth: real, rectHeight: real)
      requires Valid() && rectWidth > 0.0 && rectHeight > 0.0
      modifies this`layers
      ensures Valid()
      ensures !isDragging ==> layers == old(layers)
      ensures isDragging ==>
                var target := old(Active()).id;
                var p := DragPosition(dragStart, initialPos, pointer, rectWidth, rectHeight);
                && |layers| == |old(layers)|
                && forall i :: 0 <= i < |layers| ==>
                     layers[i] == if old(layers[i]).id == target then old(layers[i]).(posX := p.x, posY := p.y) else old(layers[i])
    {
      if isDragging {
        var target := Active().id;
        var p := DragPosition(dragStart, initialPos, pointer, rectWidth, rectHeight);
        MoveOnlyMovesTarget(layers, target, p);
        UpdateLayer(target, MoveTo(p));
      }
    }

    /** `handlePointerUp`: the drag ends, whatever the state. */
    method PointerUp()
      requires Valid()
      modifies this`isDragging
      ensures Valid()
      ensures !isDragging
    {
      isDragging := false;
    }

    /** The drawing effect: with an image on the canvas, the layers the
        render pass paints; without one, nothing is drawn. */
    method Render() returns (drawn: Option<seq<Layer>>)
      ensures selectedIndex >= |imageList| ==> drawn == None
      ensures selectedIndex < |imageList| ==> drawn == Some(PaintedLayers(layers, logoLibrary))
    {
      if selectedIndex < |imageList| {
        var painted := RenderLayers(layers, logoLibrary);
        drawn := Some(painted);
      } else {
        drawn := None;
      }
    }
  }
}
