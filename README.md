# Canvas editor core: element gestures, selection and undo/redo history

This project is a Dafny model of the interactive core of a small in-browser canvas editor.
Users place text and icon elements on a canvas. They select, drag and resize the elements with the pointer, and they undo and redo their actions.

The model has one module per source file:

- `Position` (`src/utils/position.ts`): the pointer position relative to an element's rectangle, floored. It also holds the geometry records and the centre-on-click placement that both `append` methods use.
- `Borders` (`src/utils/borders.ts`): the selection frame. It has a display state and four style lengths. It also keeps the resize state (`isResize`, `resizeBehavior`) that `icons.ts` reads.
- `Text` (`src/utils/text.ts`): the text element's stored position and its `append` placement.
- `Icons` (`src/utils/icons.ts`): the icon element's gesture state machine. It covers selection on click, the drag threshold, live moving, the eight resize-handle rules, gesture completion, colour changes and placement.
- `Canvas` (`src/components/CanvasComponent.tsx`): the canvas's element map, its current element and its dragging flag.
- `History` (`src/utils/history.ts`): the seven reversible commands and the history manager. The manager keeps a linear command log with a cursor and an optional initial snapshot.
- `Registry`: the element registry (`canvasManager`) that the commands call. Its code is not part of the source. The model gives it plain dictionary meaning: add stores an entry, remove deletes it, and the text, property, move and resize calls rewrite one attribute of a stored element and ignore a missing id. Property bags are merged. `loadSnapshot` replaces every entry with the saved ones.
- `Wrappers` and `Types`: `Option`, and the `ICMode`/`IconName` enumerations of `src/components/types.ts`.

Where the source changes objects in place, the model uses classes with `modifies` clauses: `Borders`, `TextDiv`, `IconDiv`, `CanvasComponent`, `HistoryManager` and `CanvasManager`.

Each such method states its whole new state.

- An invariant (`Valid`) ties an object's fields together.
- A callback the source invokes (`selectEl`, `onDragStart`, `onDragEnd`, `onMoved`, `onPropertiesChanged`) becomes an `Event` value that the method returns, in call order.
- A call to an element's `deselect()` becomes the element the canvas method returns.

DOM measurements (`offsetWidth`/`offsetHeight`) and bounding rectangles are method parameters. Pointer coordinates are reals, and positions are integers after `Math.floor`.

The history manager carries a ghost field `base`, the registry before the first logged command. Its invariant `Tracks(registry)` says two things:

- the registry is what replaying the log up to the cursor produces from `base`;
- each logged command was captured from the registry its predecessors produced.

`undo`, `redo` and `resetToInitial` preserve `Tracks`. `executeCommand` preserves it for a command captured from the current registry (`Command.Fits`). `reset` re-establishes it for the registry it is given, since an empty log describes any registry. So `undo` exactly reverses `executeCommand`, `redo` exactly reverses `undo`, and `resetToInitial` first unwinds to `base`.

The model follows the code as written:

- `append` clamps only at 0 (there is no clamp on the right or bottom edge);
- `moveEl` does not clamp;
- icon resizing enforces no minimum size;
- the drag threshold is a strict per-axis test against 5 pixels (there is no Euclidean or pixel-density-dependent threshold).

## Model

| member | source | states |
|---|---|---|
| `Position.GetElPosition` | src/utils/position.ts:3-5 | each coordinate is the integer n with n ≤ pointer − origin < n + 1, that is, the floor of the offset from the rectangle's origin |
| `Position.GetElPositionTranslation` | src/utils/position.ts:4-5 | shifting the pointer and the rectangle by the same offset gives the same position |
| `Position.GetElPositionAtOrigin` | src/utils/position.ts:4-5 | a pointer exactly at the rectangle's origin yields (0, 0) |
| `Position.GetElPositionAxesIndependent` | src/utils/position.ts:4-5 | the x result depends only on clientX − left and the y result only on clientY − top |
| `Position.CentredStart` | src/utils/text.ts:35-44 | the placement is never negative; it is floor(click − size/2) when that offset is ≥ 0 and 0 otherwise |
| `Position.CentredStartInIntegers` | src/utils/text.ts:35-44 | for a measured size ≥ 0 the placement is max(0, click − ⌈size/2⌉) |
| `Borders.ShownMirrorsBox` | src/utils/borders.ts:14-32 | after `show(box)` the frame is displayed and its left/top/width/height are exactly the box's |
| `Borders.HiddenKeepsBox` | src/utils/borders.ts:20-22 | after `hide()` the frame is not displayed and its position and size are unchanged |
| `Borders.ShowHideIdempotent` | src/utils/borders.ts:14-22 | showing the same box twice equals showing it once; hiding twice equals hiding once |
| `Borders.Borders.constructor` | src/utils/borders.ts:6-12 | a new frame has no display, position or size written and no resize in progress |
| `Borders.Borders.Show` | src/utils/borders.ts:14-18 | the frame's view becomes `Shown(old view, box)`; the resize state is untouched |
| `Borders.Borders.Hide` | src/utils/borders.ts:20-22 | the frame's view becomes `Hidden(old view)`; the resize state is untouched |
| `Borders.Borders.SetPositions` | src/utils/borders.ts:24-27 | only left and top change, to the given position |
| `Borders.Borders.SetSize` | src/utils/borders.ts:29-32 | only width and height change, to the given size |
| `Borders.Borders.CancelResize` | src/utils/icons.ts:128-131 | the resize flag is cleared and nothing else changes |
| `Text.TextDiv.constructor` | src/utils/text.ts:12-28 | the text and the given position are stored unchanged |
| `Text.TextDiv.Append` | src/utils/text.ts:31-44 | each axis becomes `CentredStart` of its old value and the measured extent, independently; both end ≥ 0 |
| `Icons.ThresholdPerAxis` | src/utils/icons.ts:165-167 | a drag starts iff the pointer moved strictly more than 5 from the anchor on at least one axis |
| `Icons.ResizeEdgeRules` | src/utils/icons.ts:196-221 | right sets width only, bot sets height only, top sets y to the canvas y and shrinks height by the frame-relative y, left does the same on x/width, and an unknown handle changes nothing |
| `Icons.ResizeCornersCompose` | src/utils/icons.ts:204-247 | each corner handle equals its two adjacent edge rules applied in sequence |
| `Icons.IconDiv.constructor` | src/utils/icons.ts:51-90 | a new icon is selected and not dragging, has no anchor, no drag start and size 0×0, is at the given position and has the given colour, default #333333 |
| `Icons.IconDiv.ShowBorders` | src/utils/icons.ts:251-262 | the frame becomes displayed, its left/top are the icon's position and its width/height the measured size (the box `getPositions` builds), and the resize state is kept |
| `Icons.IconDiv.Click` | src/utils/icons.ts:97-108 | while dragging, or when already selected, nothing changes and no event fires; otherwise the icon becomes selected, `selectEl(id)` fires once and the frame is shown |
| `Icons.IconDiv.MouseDown` | src/utils/icons.ts:110-112 | the drag-threshold handler becomes attached; nothing else changes |
| `Icons.IconDiv.CheckDragThreshold` | src/utils/icons.ts:154-174 | unselected: only detaches; first call: only records the anchor; later: starts the drag (isDrag, start = current position, one DragStart, detached) exactly when the threshold is exceeded, else nothing changes |
| `Icons.IconDiv.MoveEl` | src/utils/icons.ts:176-183 | the position becomes the canvas-relative pointer minus the anchor (0 when absent), unclamped; size and gesture state are kept; the frame follows |
| `Icons.IconDiv.Resize` | src/utils/icons.ts:185-249 | no-op unless the frame is resizing; otherwise the geometry becomes `ResizeRule` of the frame's handle, a missing anchor is set to the canvas position, and the frame follows |
| `Icons.IconDiv.OnMouseUp` | src/utils/icons.ts:126-135 | detaches the threshold handler; while resizing, it only cancels the resize and schedules nothing; otherwise the completion is scheduled and nothing else changes |
| `Icons.IconDiv.CompleteGesture` | src/utils/icons.ts:135-151 | `onMoved(id, start, current)` fires exactly when dragging with a start position, `onMoved` supplied and start ≠ current; then DragEnd fires and isDrag, both anchors and the start position are cleared |
| `Icons.IconDiv.Deselect` | src/utils/icons.ts:264-266 | only the selection flag is cleared |
| `Icons.IconDiv.UpdateColor` | src/utils/icons.ts:268-277 | `onPropertiesChanged(id, {color: old}, {color: new})` fires iff the old colour (empty read as #333333) differs and the callback is supplied; the colour is set in every case |
| `Icons.IconDiv.Append` | src/utils/icons.ts:279-297 | position becomes `CentredStart` per axis (≥ 0, no right/bottom clamp) and the size becomes the measured one |
| `Canvas.CanvasComponent.constructor` | src/components/CanvasComponent.tsx:11-21 | no elements, no current element, not dragging, no shared text frame |
| `Canvas.CanvasComponent.ElementsCount` | src/components/CanvasComponent.tsx:185-187 | the count is the number of stored ids; see `AddTextEl`, `OnDeleteElement` and `ClearAllElements` for how each operation changes it |
| `Canvas.CanvasComponent.HandleDeselect` | src/components/CanvasComponent.tsx:40-45 | the previous current element (if any) is deselected and there is no current element; the map is unchanged |
| `Canvas.CanvasComponent.SelectEl` | src/components/CanvasComponent.tsx:47-64 | the previous current element is deselected first; the current element becomes the one stored under id, or none when id is absent; the map is unchanged |
| `Canvas.CanvasComponent.AddTextEl` | src/components/CanvasComponent.tsx:74-117 | adds iff not dragging, the shared frame exists and the mode is text; then the element at the click position is stored under the fresh id and becomes current, and the count grows by one when the id was not already stored; else nothing changes |
| `Canvas.CanvasComponent.OnDragStart` | src/components/CanvasComponent.tsx:119-122 | sets the dragging flag; nothing else changes |
| `Canvas.CanvasComponent.OnDragEnd` | src/components/CanvasComponent.tsx:124-127 | clears the dragging flag; nothing else changes |
| `Canvas.CanvasComponent.OnDeleteElement` | src/components/CanvasComponent.tsx:142-173 | with a current element whose id is stored, exactly that key is removed, the count drops by one and there is no current element; otherwise nothing changes (the current element is kept) |
| `Canvas.CanvasComponent.ClearAllElements` | src/components/CanvasComponent.tsx:189-210 | the map ends empty (count 0) and there is no current element; the flags are kept |
| `Registry.FromSnapshots` | src/utils/history.ts:264 | loading a snapshot stores exactly the ids of the saved entries: an id is stored iff some saved entry carries it |
| `Registry.FromSnapshotsLastWins` | src/utils/history.ts:264 | each saved id holds the data of its last saved entry |
| `History.Command.ExecuteThenUndo` | src/utils/history.ts:22-198 | for a command captured from registry m, undo after execute gives back m exactly, and execute leaves every captured new value in place |
| `History.Command.UndoThenExecute` | src/utils/history.ts:22-198 | on a registry a command produced, execute after undo gives it back exactly: Add and Remove are mutual inverses, as are the old/new writes |
| `History.Command.OnlyOwnElement` | src/utils/history.ts:22-198 | neither execute nor undo adds, removes or changes any id other than the command's own |
| `History.Command.WritesCapturedValue` | src/utils/history.ts:35-197 | on a stored element, execute writes the captured new text/properties/position/size and undo the captured old one, leaving its other attributes alone; Add stores the data, Remove deletes it, and undo does the reverse |
| `History.UndoAllReplay` | src/utils/history.ts:256-262 | undoing a whole chain of logged commands, last first, gives back the registry the log started from |
| `History.HistoryManager.constructor` | src/utils/history.ts:201-208 | empty log, cursor −1, no snapshot, and the log describes the current registry |
| `History.HistoryManager.SaveInitialState` | src/utils/history.ts:211-214 | only the snapshot changes |
| `History.HistoryManager.ExecuteCommand` | src/utils/history.ts:217-229 | log becomes old log[0..cursor] + [command], cursor moves onto it (so redo is impossible), the command is executed once, the next undo description becomes the command's and there is no next redo, and the log still describes the registry when the command was captured from it |
| `History.HistoryManager.Undo` | src/utils/history.ts:232-241 | returns false and changes nothing when the cursor is −1; otherwise undoes the command at the cursor and decrements it; the result is the `canUndo` the info reported, the undone command becomes the next redo, and the log is unchanged and still describes the registry |
| `History.HistoryManager.Redo` | src/utils/history.ts:244-253 | returns false and changes nothing when the cursor is at the last command; otherwise increments the cursor and executes the command there; the result is the `canRedo` the info reported, the redone command becomes the next undo, and the log still describes the registry |
| `History.HistoryManager.Reset` | src/utils/history.ts:307-312 | empty log, cursor −1, no snapshot, an info with nothing to undo, redo or reset, and the empty log describes the given registry |
| `History.HistoryManager.ResetToInitial` | src/utils/history.ts:256-270 | without a snapshot: false and nothing changes; with one, it undoes while possible (reaching the log's starting registry), loads the snapshot, and ends with an empty log, cursor −1, no snapshot and an info with nothing to undo, redo or reset; when the info reported `canReset` it returns true |
| `History.HistoryManager.UndoWhilePossible` | src/utils/history.ts:259-261 | the `while (canUndo()) undo()` loop ends at cursor −1 with the registry equal to undoing the logged commands up to the cursor, last first |
| `History.HistoryManager.GetHistoryInfo` | src/utils/history.ts:286-304 | canReset iff a snapshot is saved and the log is non-empty; totalCommands is the log length; the next undo/redo descriptions are present exactly when undo/redo is possible and are those of the commands at cursor and cursor+1; a non-empty log always allows undo or redo. How the info changes under each operation is stated by `ExecuteCommand`, `Undo`, `Redo`, `Reset` and `ResetToInitial` |
| `History.UndoThenRedo` | src/utils/history.ts:232-253 | undo followed by redo gives back the registry, the cursor and the log |
| `History.AddMoveUndoUndo` | src/utils/history.ts:217-241 | adding an element, moving it, then undoing twice gives back the registry before the add |

## Left out

- DOM plumbing is not modelled. This covers element creation, class lists, the style strings written to the element (only the frame's style is modelled), `innerHTML`, the SVG imports with `iconSvgMap`/`getIconSvg`, and `console.log`.
- The `|| 0` coalescing in `getElPosition` and both `append` methods is not modelled. Positions are integers and pointer coordinates are finite reals, so there is no NaN and no −0.
- The one-tick `setTimeout` in `onMouseUp` is not modelled. It is split into `OnMouseUp` (the synchronous part) and `CompleteGesture` (the deferred body), which the host calls in order.
- Borders.Borders.CancelResize: `cancelResize`, `isResize` and `resizeBehavior` are not defined in `borders.ts`. The resize state is kept as plain fields, and `cancelResize` clears the flag at once rather than on a later tick.
- Nothing in the model sets `isResize` or `resizeBehavior`: the handles' pointer-down code is not part of the source.
- Icons.IconDiv.CheckDragThreshold: the `mousemove` listener bookkeeping is reduced to one flag (`listening`). A call while the handler is detached does nothing.
- Icons.IconDiv.UpdateColor: browsers normalise a style colour (for example to `rgb(…)`). The model compares the strings as written.
- Canvas.CanvasComponent.AddTextEl: the element is recorded with its id, text and click position. Its class comes from `./TextDiv`, which is not part of this model, so its `append` placement and its own `deselect` state are not modelled.
- Canvas.CanvasComponent.AddTextEl: the `canvas` ref is assumed mounted. `Date.now()` ids and the store's `mode` and `text` are parameters.
- Canvas.CanvasComponent.SelectEl: the store mutation `changeTextarea` is left out.
- `CanvasComponent.tsx` never assigns `sharedTextBorder`, so as written `addTextEl` always returns at its first guard. The model keeps the flag as a field so that the insertion path can be stated.
- The `getElPosition` call in `addTextEl` passes `{ event, canvasEl }`, while `position.ts` takes `{ evt, el }`. The helper it imports from `../utils` is not part of this model. The model reads the call as the canvas-relative pointer position.
- Canvas.CanvasComponent.OnDeleteElement: the `keyPressed` argument is only logged, and the element's `remove`/`destroy` DOM calls are left out.
- The per-element selected flags live in the element objects. The canvas model records which element `deselect()` is called on, but it does not prove "at most one element selected" across elements.
- The Vue wiring in `CanvasComponent.tsx` is left out: `render`, `$set`/`$delete` reactivity, the context menu, `DeleteHandler`, `downloadAsImage`, `debugElements`, `getAllElements`, `mounted` and the store getters.
- `src/utils/extract-image.ts` (rendering and download) and `src/stores/InfoConstructor.ts` (a store wrapper) are left out.
- History.Command.ExecuteThenUndo: the command `description` strings (in Russian, with numbers formatted into them) are modelled as a `Description` value. It carries the element type, the old and new values, or the set of changed property keys, but not the rendered text or the order of the keys.
- Each source command keeps a reference to the `canvasManager` it was built with, and `resetToInitial` loads the snapshot into its argument. The model's commands hold no registry: every execute and undo acts on the `CanvasManager` passed to `ExecuteCommand`, `Undo`, `Redo` or `ResetToInitial`. The model therefore assumes that one registry is used throughout, and it does not capture commands bound to different registries or a reset aimed at another registry.
- The registry's implementation is not in the source. Its dictionary meaning is an assumption of this model, and the command round trips hold under that assumption.
- `HistoryManager.getHistory` (a copy of the log for debugging) and `hasInitialState` are left out as operations. `HasInitialState`, `CanUndo` and `CanRedo` are read-only predicates.
- `IconDiv` drag start and end notifications to the canvas are returned as events; the host wiring of `onDragStart`/`onDragEnd` to `CanvasComponent` is not shown in the source and is not modelled.
