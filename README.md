# Watermark editor: layer stack, image selection and drag controller

This project models the state logic of the watermark editor component
`WatermarkApp` (`src/App.jsx`) in Dafny and proves what its handlers
promise.

The editor keeps an ordered **stack of watermark layers** (text or logo),
with one **active layer**. It also keeps a **list of images**, the index of
the image shown on the canvas, and a set of image ids ticked for batch
export. A single-pointer **drag** moves the active layer. A **render pass**
paints the visible layers in stack order, bottom first.

Modules:

- `Wrappers` (`wrappers.dfy`): `Option` and `Result`.
- `LayerModel` (`layers.dfy`): the layer record and `createLayer`. Partial
  updates `{ ...layer, ...updates }` are modelled as a `Patch` with one
  optional value per property. The module has the pure stack transforms
  (`updateLayer`, `updateAllLayers`, `addLayer`, `removeLayer`,
  `duplicateLayer`), the `find`-based active-layer lookup, and the stack
  invariant `WellFormed`: never empty, unique ids, and the active id names
  a layer.
- `Rendering` (`rendering.dfy`): which layers a render pass hands to the
  drawing routine, and in what order. It also holds the render loop as a
  method.
- `ImageSelection` (`selection.dfy`): `toggleSelection`, `selectAll`,
  `removeImage` and the append at the end of an upload, over a `Gallery`
  value.
- `DragControl` (`drag.dfy`): the pointer-delta-to-percent formula and the
  position-only update it sends.
- `Editor` (`editor.dfy`): class `WatermarkApp`. It has one field per piece
  of component state (`layers`, `activeLayerId`, `logoLibrary`,
  `imageList`, `selectedIndex`, `selectedIds`) and per drag ref
  (`isDragging`, `dragStart`, `initialPos`). Each handler is one method.
  Every method keeps `Valid()` and ties the new state to the pure
  transform above.

How the environment is modelled:

- Ids come from the clock plus a random number. Here they are opaque values,
  and a fresh layer id is a parameter with the precondition that no layer
  already has it.
- `window.confirm` is the boolean parameter `confirmed` of
  `UpdateAllLayers`.
- The `alert` of `removeLayer` is the `Failure(KeepAtLeastOneLayer)` result,
  or `refused == true` on the class method.
- The on-screen size of the canvas (`getBoundingClientRect`) is passed to
  `PointerMove`. So is the pointer position, taken from the mouse or from
  the first touch.
- Positions, sizes and opacities are `real`.

Behaviour kept exactly as written:

- `removeImage` moves `selectedIndex` only when the removed image was the
  one shown. Removing an earlier image keeps the index, so the canvas then
  shows the image after the one that was shown. If the shown image was
  last, the index points past the end and nothing is drawn
  (`RemoveEarlierImageKeepsIndex`).
- `selectAll` compares the number of ticked ids with the number of images.
  The model proves that on a consistent gallery this test means "every
  image is ticked" (`SelectAllIsAllOrNothing`).
- A pointer move during a drag moves the active layer even when that layer
  became tiled after the drag began. Only pointer-down checks `isTiled`.

## Model

| member | source | states |
|---|---|---|
| LayerModel.CreateLayer | src/App.jsx:5-31 | a new layer carries the given id, kind and logo reference, is visible and untiled, blends normally, and sits at (50, 50) with size 150 and no rotation; its name depends on its kind |
| LayerModel.Merge | src/App.jsx:97 | merging an update never changes a layer's id |
| LayerModel.MergeNoChange | src/App.jsx:95-99 | an empty update leaves a layer unchanged |
| LayerModel.MergeIdempotent | src/App.jsx:95-99 | applying the same update twice equals applying it once |
| LayerModel.MergeCombine | src/App.jsx:95-99 | two successive updates equal one update in which the later keys win |
| LayerModel.IndexOfId | src/App.jsx:131 | the lookup returns the first position holding the id, or -1 exactly when no layer has it |
| LayerModel.FindById | src/App.jsx:131-132 | the lookup finds the first layer of the stack with that id (no layer below it has the id), and finds nothing exactly when the id is absent |
| LayerModel.FindByIdUnique | src/App.jsx:69 | with unique ids, looking up a layer's id returns that very layer |
| LayerModel.ActiveLayer | src/App.jsx:69 | the active layer belongs to the stack; it has the active id when that id is in the stack, and is the bottom layer when no id is active or the id is unknown |
| LayerModel.UpdateLayer | src/App.jsx:95-99 | ids and order are unchanged; the layers with the id receive the update and every other layer stays identical |
| LayerModel.UpdateAll | src/App.jsx:101-105 | ids and order are unchanged and every layer receives the same update |
| LayerModel.UpdateUnknownId | src/App.jsx:95-99 | an update for an id not in the stack changes nothing |
| LayerModel.UpdatesCommute | src/App.jsx:95-99 | updates of two different layers can be applied in either order |
| LayerModel.UpdateEachAt | src/App.jsx:95-99 | updating a list of ids one after another updates exactly the layers whose id is listed |
| LayerModel.UpdateAllIsUpdateEachLayer | src/App.jsx:101-105 | broadcasting an update to all layers equals updating each layer by its own id |
| LayerModel.UpdateKeepsWellFormed | src/App.jsx:95-99 | a single-layer update keeps the stack non-empty, its ids unique and the active id valid |
| LayerModel.UpdateAllKeepsWellFormed | src/App.jsx:101-105 | a broadcast update keeps the stack invariant |
| LayerModel.AddLayer | src/App.jsx:107-114 | exactly one layer is appended and the old layers stay in place; it has the fresh id, the requested kind and logo, posX = posY = 50 + 2 × old length, every other property is the default of a new layer (so it is visible and untiled), and it becomes active |
| LayerModel.AppendFreshUnique | src/App.jsx:111 | appending a layer with an unused id keeps ids unique |
| LayerModel.AddLayerWellFormed | src/App.jsx:107-114 | adding keeps the stack invariant, and the active-layer lookup then returns the new top layer |
| LayerModel.WithoutId | src/App.jsx:122 | the filter never lengthens the stack |
| LayerModel.WithoutIdAppend | src/App.jsx:122 | filtering distributes over concatenation, so the kept layers stay in their relative order |
| LayerModel.WithoutIdSubset | src/App.jsx:122 | every kept layer comes from the stack and has another id |
| LayerModel.WithoutIdKeeps | src/App.jsx:122 | every layer with another id is kept |
| LayerModel.WithoutIdIds | src/App.jsx:122 | the remaining ids are exactly the old ids other than the removed one |
| LayerModel.WithoutIdAbsent | src/App.jsx:122 | filtering an id that no layer has returns the stack unchanged |
| LayerModel.WithoutIdUnique | src/App.jsx:122 | filtering keeps ids unique |
| LayerModel.WithoutIdLength | src/App.jsx:122 | with unique ids, the filter drops exactly one layer when the id is present and none otherwise |
| LayerModel.WithoutIdIsRemoveAt | src/App.jsx:122 | with unique ids, removing the id of the layer at position k gives exactly the layers below k followed by the layers above k |
| LayerModel.RemoveLayer | src/App.jsx:116-127 | refused with KeepAtLeastOneLayer exactly when at most one layer is left; otherwise the result is the filtered stack and is non-empty; the active id stays unless it was removed, and then becomes the new top layer's id |
| LayerModel.RemoveLayerWellFormed | src/App.jsx:118-126 | an accepted removal keeps the stack invariant (so the stack is never empty), no layer keeps the removed id, and the length drops by one exactly when the id was present |
| LayerModel.CopyOf | src/App.jsx:133-139 | the copy has the fresh id, the name with the copy suffix, and a position shifted by 5 on both axes; it equals the original in every other property |
| LayerModel.DuplicateLayer | src/App.jsx:129-142 | an unknown id changes nothing; otherwise one copy of the first layer with that id is appended above the unchanged stack and becomes active |
| LayerModel.DuplicateLayerWellFormed | src/App.jsx:129-142 | duplicating keeps the stack invariant, and the active-layer lookup then returns the copy |
| Rendering.PaintedLayers | src/App.jsx:271-282 | a render pass paints no more layers than the stack holds, and only visible, drawable layers of the stack |
| Rendering.PaintedAppend | src/App.jsx:271-273 | painting a stack paints its lower part first and then its upper part |
| Rendering.PaintedInStackOrder | src/App.jsx:271-273 | everything below any position is painted before everything above it |
| Rendering.PaintedKeeps | src/App.jsx:271-282 | every visible, drawable layer of the stack is painted |
| Rendering.PaintedIff | src/App.jsx:271-282 | a layer is painted exactly when it is in the stack, visible, and is a text layer or a logo layer whose logo is in the library |
| Rendering.HidingIsRemovingFromPaint | src/App.jsx:538 | hiding a layer with the eye toggle paints exactly what removing it would paint |
| Rendering.CreatedLayerPaints | src/App.jsx:5-31 | a new text layer is always painted; a new logo layer is painted exactly when its logo is in the library |
| Rendering.DuplicatePaintsLikeOriginal | src/App.jsx:129-142 | after duplicating, the paint order is the old one plus the copy on top, and the copy is painted exactly when its original is |
| Rendering.RenderLayers | src/App.jsx:271-282 | the render loop draws exactly the painted layers, in stack order |
| ImageSelection.Toggle | src/App.jsx:208-214 | toggling flips the membership of exactly one id and leaves every other id as it was |
| ImageSelection.ToggleTwice | src/App.jsx:208-214 | toggling the same id twice restores the selection |
| ImageSelection.ToggleConsistent | src/App.jsx:208-214 | toggling a listed image keeps the selection within the list |
| ImageSelection.SelectAll | src/App.jsx:216-218 | the ticks are cleared when as many ids are ticked as there are images, and become every image id whenever the counts differ |
| ImageSelection.SelectAllIsAllOrNothing | src/App.jsx:216-218 | on a consistent gallery, select-all clears the selection exactly when every image is ticked and ticks every image otherwise |
| ImageSelection.RemoveImage | src/App.jsx:195-206 | the image is removed and the others keep their order; its id is unticked; the shown index becomes max(0, index - 1) when the removed image was shown and is otherwise unchanged |
| ImageSelection.RemoveImageConsistent | src/App.jsx:195-204 | removing an image removes exactly its id from the list's ids and keeps the gallery consistent |
| ImageSelection.RemoveShownImageShowsPrevious | src/App.jsx:205 | removing the shown image, when it is not the first, shows the image just before it |
| ImageSelection.RemoveEarlierImageKeepsIndex | src/App.jsx:205 | removing an image before the shown one keeps the index, so the canvas moves to the next image, or past the end when the shown image was last |
| ImageSelection.AppendImages | src/App.jsx:164-166 | uploaded images are appended after the old ones, the ticks are unchanged, and an empty list starts by showing its first image |
| ImageSelection.AppendImagesConsistent | src/App.jsx:164-166 | appending images with new, distinct ids keeps the gallery consistent |
| DragControl.DragPosition | src/App.jsx:240-249 | the layer's displacement, times the canvas's on-screen size, equals the pointer's displacement times 100, on each axis |
| DragControl.DragBackToStart | src/App.jsx:240-249 | moving the pointer back to where the drag began puts the layer back where it was |
| DragControl.DragStepsAreProportional | src/App.jsx:240-249 | between any two pointer positions of one drag, the layer moves by their displacement in percent; moves do not accumulate |
| DragControl.MoveOnlyMovesTarget | src/App.jsx:251 | a drag update changes only posX and posY, and only of the layers with the target id |
| Editor.WatermarkApp.constructor | src/App.jsx:35-60 | the editor starts with one default text layer and no active id, no images, no ticks, no logos and no drag |
| Editor.WatermarkApp.PickInitialLayer | src/App.jsx:63-67 | with no active id, the bottom layer becomes active; otherwise nothing changes |
| Editor.WatermarkApp.SetActiveLayer | src/App.jsx:534 | clicking a layer of the stack makes it active |
| Editor.WatermarkApp.UpdateLayer | src/App.jsx:95-99 | the stack becomes the single-layer update of the old stack, and the invariant holds |
| Editor.WatermarkApp.UpdateAllLayers | src/App.jsx:101-105 | when confirmed, the stack becomes the broadcast update of the old one; when declined, nothing changes |
| Editor.WatermarkApp.AddLayer | src/App.jsx:107-114 | the stack and the active id become those of the pure add, and the active layer is the new top layer |
| Editor.WatermarkApp.RemoveLayer | src/App.jsx:116-127 | refused exactly when at most one layer is left, and then nothing changes; otherwise the stack and active id become those of the pure removal |
| Editor.WatermarkApp.DuplicateLayer | src/App.jsx:129-142 | the stack and the active id become those of the pure duplicate |
| Editor.WatermarkApp.AddLogo | src/App.jsx:184-186 | the logo is appended to the library and a logo layer showing it is added; that layer is painted |
| Editor.WatermarkApp.AddImages | src/App.jsx:164-166 | the image list, ticks and shown index become those of the pure append |
| Editor.WatermarkApp.ShowImage | src/App.jsx:492 | clicking a thumbnail shows that image |
| Editor.WatermarkApp.RemoveImage | src/App.jsx:195-206 | the image list, ticks and shown index become those of the pure removal, and the gallery stays consistent |
| Editor.WatermarkApp.ToggleSelection | src/App.jsx:208-214 | the ticks become the toggle of the old ticks |
| Editor.WatermarkApp.SelectAll | src/App.jsx:216-218 | the ticks become empty when every image was ticked, and every image id otherwise |
| Editor.WatermarkApp.PointerDown | src/App.jsx:221-232 | on a tiled active layer nothing changes; otherwise a drag starts, recording the pointer and the layer's position; the editor invariant is kept |
| Editor.WatermarkApp.PointerMove | src/App.jsx:234-252 | without a drag nothing changes; during a drag the active layer moves to the drag position and every other property of every layer stays the same |
| Editor.WatermarkApp.PointerUp | src/App.jsx:254-256 | the drag always ends and the editor invariant is kept |
| Editor.WatermarkApp.Render | src/App.jsx:259-274 | with no image at the shown index nothing is drawn; otherwise exactly the painted layers are drawn, bottom first |

## Left out

- Canvas drawing (`src/App.jsx:284-355`) is not modelled. That covers fonts, text metrics, stroke, shadows, opacity, blend modes, `drawImage`, and the tiling grid. These are foreign browser calls and floating-point geometry. A render pass is summarised by the layers it hands to the drawing routine.
- File loading (`FileReader`, image decoding, `src/App.jsx:145-193`) is asynchronous browser I/O. Only its effect on state is modelled: `AddImages` and `AddLogo`. When several logos load at once, each load calls the `addLayer` captured at upload time. That interleaving is not modelled: `AddLogo` acts on the current stack.
- The JSZip script loading and the single and batch export (`src/App.jsx:83-92`, `359-399`) are network and I/O. This includes the choice of export targets and the per-image redraw.
- UI markup, tabs, sliders and the sync buttons (`src/App.jsx:401-658`) are presentation, including the tab switch in `addLayer`. Slider bounds are not enforced on the stored state, and the model does not enforce them either.
- `e.stopPropagation()` is an event-dispatch detail.
- Id generation is not modelled. A fresh layer id is a parameter. Image ids of an upload are assumed new and distinct.
- The code has no rotate or resize handles, two-finger gestures, rotated hit-testing, picking a layer by clicking on the canvas, size clamping or region fill. The on-canvas hint (`src/App.jsx:480`) says two-finger scale and rotate are still to come. None of these is modelled.
- LayerModel.Patch: an update cannot carry `id`. No caller of `updateLayer` or `updateAllLayers` passes one, and the stack invariant relies on ids not changing.
- Editor.WatermarkApp.PointerMove: requires a canvas with a non-zero on-screen size. With a zero size the code divides by zero and stores Infinity or NaN. The guard `!canvasRef.current` is not modelled. The pointer handlers are attached to a container of the main view (`src/App.jsx:463-469`), and that view is the one that mounts the canvas (`src/App.jsx:483`). With an empty image list the component shows the welcome page instead (`src/App.jsx:413-434`), which has neither the canvas nor the handlers. So the handlers fire only while the canvas exists. The guard `!activeLayer` is not modelled because the stack is never empty.
- Editor.WatermarkApp.PointerDown: the same two guards are not modelled, for the same reasons.
- Editor.WatermarkApp.PickInitialLayer: treats only a missing active id as unset. The code's `!activeLayerId` would also treat an empty-string id as unset, but generated ids are never empty.
- Numbers are exact reals, so floating-point rounding is not modelled.
- Logo and image ids are numbers that are only compared for equality. They are modelled as integers.
