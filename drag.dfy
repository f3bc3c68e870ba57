/** The single-pointer drag: the pointer's displacement, as a percentage of
    the canvas's on-screen size, is added to the position the layer had
    when the drag started. */
module DragControl {
  import opened Wrappers
  import opened LayerModel

  /** A pointer position in screen pixels, or a layer position in percent. */
  datatype Point = Point(x: real, y: real)

  /** The layer position for the pointer at `pointer`, in a drag that began
      with the pointer at `dragStart` and the layer at `initialPos`, over a
      canvas shown `width` by `height` pixels. */
  function DragPosition(dragStart: Point, initialPos: Point, pointer: Point, width: real, height: real): (p: Point)
    requires width > 0.0 && height > 0.0
    ensures (p.x - initialPos.x) * width == (pointer.x - dragStart.x) * 100.0
    ensures (p.y - initialPos.y) * height == (pointer.y - dragStart.y) * 100.0
  {
    Point(initialPos.x + (pointer.x - dragStart.x) / width * 100.0,
          initialPos.y + (pointer.y - dragStart.y) / height * 100.0)
  }

  /** Bringing the pointer back to where the drag began puts the layer
      back where it was. */
  lemma DragBackToStart(dragStart: Point, initialPos: Point, width: real, height: real)
    requires width > 0.0 && height > 0.0
    ensures DragPosition(dragStart, initialPos, dragStart, width, height) == initialPos
  {
  }

  /** Moves within one drag do not accumulate: between any two pointer
      positions the layer moves by their displacement in percent. */
  lemma DragStepsAreProportional(dragStart: Point, initialPos: Point, a: Point, b: Point, width: real, height: real)
    requires width > 0.0 && height > 0.0
    ensures var pa := DragPosition(dragStart, initialPos, a, width, height);
            var pb := DragPosition(dragStart, initialPos, b, width, height);
            (pb.x - pa.x) * width == (b.x - a.x) * 100.0 && (pb.y - pa.y) * height == (b.y - a.y) * 100.0
  {
    var pa := DragPosition(dragStart, initialPos, a, width, height);
    var pb := DragPosition(dragStart, initialPos, b, width, height);
    assert (pb.x - pa.x) * width == (pb.x - initialPos.x) * width - (pa.x - initialPos.x) * width;
    assert (pb.y - pa.y) * height == (pb.y - initialPos.y) * height - (pa.y - initialPos.y) * height;
  }

  /** The update a pointer move sends: the two coordinates and nothing else. */
  function MoveTo(p: Point): Patch {
    NoChange.(posX := Some(p.x), posY := Some(p.y))
  }

  /** A move changes the coordinates of the layers with the given id and
      leaves every other property of every layer as it was. */
  lemma MoveOnlyMovesTarget(layers: seq<Layer>, id: LayerId, p: Point)
    ensures var r := UpdateLayer(layers, id, MoveTo(p));
            && |r| == |layers|
            && forall i :: 0 <= i < |layers| ==>
                 r[i] == if layers[i].id == id then layers[i].(posX := p.x, posY := p.y) else layers[i]
  {
  }
}
