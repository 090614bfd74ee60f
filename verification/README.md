# Shared whiteboard session — a Dafny model

This project models the session engine of a real-time shared whiteboard
(`src/components/Whiteboard.jsx`). One client in a room holds:

- a live canvas: an ordered sequence of strokes, where each stroke is a sequence of points and the first point carries the stroke's colour and width;
- a linear undo/redo log of full canvas snapshots with a cursor (`history`, `historyStep`);
- a drawing flag and the current pen (colour and width).

Pointer handlers capture strokes. Toolbar actions undo, redo and clear. Room events replace the canvas or the log. What the client sends to the room is recorded, in order, in the session's `outbox`.

Modules:

- `Js`: the `Array.prototype.slice` semantics the code relies on. These are negative and too-large indices.
- `Strokes`: points, strokes and canvases, and the three canvas edits: begin a stroke, extend the last stroke, replace the last stroke.
- `Wire`: the `{points}` array form used for storage and the room channel, with `Serialize` and `Parse`.
- `Render`: what each stroke gives the line renderer. The points are flattened to `[x0, y0, x1, y1, ...]`, and the colour and width fall back when absent or falsy.
- `History`: the undo/redo log as a value, with `Commit`, `Undo`, `Redo`, `Seed` and their laws.
- `Session`: the class `Whiteboard`. It has one method per handler, and each method is specified against the functions above.
- `Scenarios`: client methods showing documented behaviours from the handlers' contracts alone.

Two behaviours of the code are worth stating up front:

- Pointer-down sends nothing. Only pointer-move sends `drawing-data` deltas, so a stroke of n points produces n - 1 deltas (`Scenarios.StrokeDeltas`).
- Undo followed by redo does not always restore the canvas shown before the undo. It restores the log and shows the snapshot at the cursor. A canvas that came from elsewhere is lost: a peer's state applied by `undo-redo-receive` changes the canvas but not the log (`Scenarios.UndoRedoDropsPeerCanvas`). When the canvas shown is the cursor's snapshot, undo then redo restores it (`Scenarios.UndoThenRedo`).

## Model

| member | source | states |
|---|---|---|
| `Js.Slice` | src/components/Whiteboard.jsx:78-79 | never fails and never returns more than its input; an in-range slice is the ordinary subsequence |
| `Js.SlicePrefix` | src/components/Whiteboard.jsx:160 | `slice(0, n)` keeps the first n entries, or all of them when n is past the end |
| `Js.SliceAllButLast` | src/components/Whiteboard.jsx:78 | `slice(0, length - 1)` drops the last element and yields the empty array for an empty array |
| `Strokes.BeginStroke` | src/components/Whiteboard.jsx:135 | pointer-down appends exactly one stroke of one point at the position; that point holds the pen and every earlier stroke is unchanged |
| `Strokes.ExtendLast` | src/components/Whiteboard.jsx:146-153 | pointer-move keeps the stroke count and all strokes but the last; the last gains exactly one unstyled point at the end |
| `Strokes.ReplaceLast` | src/components/Whiteboard.jsx:78 | an incoming stroke replaces the last stroke; the count stays the same, or becomes 1 for an empty canvas, and all other strokes are unchanged |
| `Strokes.ExtendKeepsStyle` | src/components/Whiteboard.jsx:149-150 | a locally drawn stroke keeps its style on the first point only, however many points are added |
| `Wire.Serialize` | src/components/Whiteboard.jsx:164 | one `{points}` entry per stroke, in order, each holding that stroke |
| `Wire.Parse` | src/components/Whiteboard.jsx:87 | one stroke per entry, in order; an entry's points are taken whole and an entry with no points becomes an empty stroke |
| `Wire.ParseSerialize` | src/components/Whiteboard.jsx:164 | parsing the serialised canvas gives back every stroke in order, first-point style fields included |
| `Wire.SerializeParse` | src/components/Whiteboard.jsx:95 | a payload whose every entry has points is the serialisation of what it parses to |
| `Wire.RawPayload` | src/components/Whiteboard.jsx:177 | a canvas sent unserialised reaches the parser as entries without points, one per stroke |
| `Wire.RawPayloadLosesPoints` | src/components/Whiteboard.jsx:95 | parsing an unserialised canvas keeps the stroke count but empties every stroke, so it equals the canvas exactly when every stroke was empty |
| `Render.FlattenPoints` | src/components/Whiteboard.jsx:439 | twice as many numbers as points, with x and y of point i at positions 2i and 2i+1 |
| `Render.LineColor` | src/components/Whiteboard.jsx:440 | the first point's colour when present and non-empty, otherwise the current pen colour |
| `Render.LineWidth` | src/components/Whiteboard.jsx:441 | the first point's width when present and non-zero, otherwise 2; never 0 |
| `Render.RenderLine` | src/components/Whiteboard.jsx:437-445 | a rendered line has two coordinates per point of its stroke |
| `Render.RenderCanvas` | src/components/Whiteboard.jsx:436-446 | one rendered line per stroke, in canvas order (later strokes on top) |
| `Render.OwnStyleWins` | src/components/Whiteboard.jsx:440-441 | a stroke drawn with a non-empty colour and non-zero width renders in its own style, whatever pen is selected now |
| `Render.UnstyledFallsBack` | src/components/Whiteboard.jsx:440-441 | an empty or unstyled stroke renders with the current colour and width 2 |
| `History.CommitOnto` | src/components/Whiteboard.jsx:79-80 | the commit as written with a possibly stale base: only entries 0..base survive (all of them when base is past the end), the snapshot is appended, and the cursor advances by one from its current value |
| `History.Commit` | src/components/Whiteboard.jsx:160-161 | entries up to the cursor are kept, the snapshot is appended, and the cursor moves onto it as the last index; the cursor stays in range |
| `History.Undo` | src/components/Whiteboard.jsx:172-179 | away from the start the cursor steps back by one; at the start the log is unchanged; the entries are never touched |
| `History.Redo` | src/components/Whiteboard.jsx:181-188 | before the tail the cursor steps forward by one; at the tail the log is unchanged; the entries are never touched |
| `History.Seed` | src/components/Whiteboard.jsx:62-63 | a one-entry log showing the loaded canvas, with nothing to undo or redo |
| `History.ClearIsInitial` | src/components/Whiteboard.jsx:192-194 | the log a clear installs, one empty canvas with cursor 0, is the initial log |
| `History.UndoNoOpIffDisabled` | src/components/Whiteboard.jsx:250 | undo changes nothing exactly when the undo button is disabled (cursor 0) |
| `History.RedoNoOpIffDisabled` | src/components/Whiteboard.jsx:270 | redo changes nothing exactly when the redo button is disabled (cursor at the last index) |
| `History.UndoThenRedo` | src/components/Whiteboard.jsx:172-188 | undo then redo restores the log |
| `History.RedoThenUndo` | src/components/Whiteboard.jsx:172-188 | redo then undo restores the log |
| `History.CommitDiscardsRedo` | src/components/Whiteboard.jsx:160 | after a commit nothing can be redone; the entries are the prefix up to the old cursor plus the snapshot |
| `History.CommitAfterUndo` | src/components/Whiteboard.jsx:160-161 | a commit after undoing to cursor k leaves k + 2 entries and drops the entry that was undone |
| `History.CommitAll` | src/components/Whiteboard.jsx:157-161 | any run of commits keeps the cursor in range |
| `History.CommitAllAppends` | src/components/Whiteboard.jsx:160-161 | from a cursor at the tail, N commits append exactly the N snapshots, with the cursor advanced by N |
| `History.CommitsFromInitial` | src/components/Whiteboard.jsx:12-13 | N commits from the initial log leave N + 1 entries with cursor N |
| `History.StaleCommitValid` | src/components/Whiteboard.jsx:79-80 | a commit that slices at an earlier-read cursor keeps the cursor in range exactly when the cursor has not moved past that value |
| `History.StaleReceiveBreaksCursor` | src/components/Whiteboard.jsx:76-83 | three incoming strokes on a fresh session leave 2 entries with cursor 3, so a following undo reads past the end |
| `Session.Whiteboard.constructor` | src/components/Whiteboard.jsx:11-22 | empty canvas, log `[[]]` with cursor 0, not drawing, pen `#000000` width 2, no users, nothing sent |
| `Session.Whiteboard.Load` | src/components/Whiteboard.jsx:52-70 | a reply seeds the canvas and a one-entry log with the parsed state (missing state reads as empty); a failed fetch changes nothing |
| `Session.Whiteboard.PointerDown` | src/components/Whiteboard.jsx:128-137 | without a stage nothing changes; with one the drawing flag is set, and with a position one styled single-point stroke is appended; nothing is sent |
| `Session.Whiteboard.PointerMove` | src/components/Whiteboard.jsx:139-155 | while drawing with stage and position, the last stroke gains one point and exactly one `drawing-data` carrying the whole updated stroke is sent; with no stroke it throws and changes nothing; otherwise nothing changes or is sent |
| `Session.Whiteboard.PointerUp` | src/components/Whiteboard.jsx:157-170 | clears the drawing flag, commits the live canvas unconditionally, and sends one `save-state` with the serialised canvas |
| `Session.Whiteboard.Undo` | src/components/Whiteboard.jsx:172-179 | follows `History.Undo`; when it moves, the canvas becomes the snapshot at the new cursor and exactly one `undo-redo` carrying it is sent; at cursor 0 nothing changes or is sent |
| `Session.Whiteboard.Redo` | src/components/Whiteboard.jsx:181-188 | follows `History.Redo`; when it moves, the canvas becomes the snapshot at the new cursor and exactly one `undo-redo` carrying it is sent; at the tail nothing changes or is sent |
| `Session.Whiteboard.Clear` | src/components/Whiteboard.jsx:190-200 | confirmed: empty canvas, initial log, then `clear-board` and an empty `save-state` are sent; declined: nothing changes |
| `Session.Whiteboard.ReceiveDrawing` | src/components/Whiteboard.jsx:76-83 | the incoming stroke replaces the last one and the result is committed against the current cursor, keeping it in range |
| `Session.Whiteboard.LoadState` | src/components/Whiteboard.jsx:86-91 | the parsed state replaces the canvas and seeds a one-entry log |
| `Session.Whiteboard.UndoRedoReceive` | src/components/Whiteboard.jsx:94-98 | the parsed state replaces the canvas; log and cursor are untouched |
| `Session.Whiteboard.ClearBoardReceive` | src/components/Whiteboard.jsx:106-110 | empty canvas and initial log whatever the prior depth; nothing is sent |
| `Session.Whiteboard.ActiveUsers` | src/components/Whiteboard.jsx:101-103 | the shown connection count becomes the reported count; the session invariant is kept |
| `Session.Whiteboard.PickColor` | src/components/Whiteboard.jsx:317-323 | the pen colour becomes the picked `#rrggbb` value |
| `Session.Whiteboard.PickWidth` | src/components/Whiteboard.jsx:359-365 | the pen width becomes the slider value in 1..20 |
| `Scenarios.StrokeDeltas` | src/components/Whiteboard.jsx:128-155 | down, move, move sends exactly two deltas, `[p0, p1]` and `[p0, p1, p2]`, with the pen on the first point |
| `Scenarios.PeerConverges` | src/components/Whiteboard.jsx:76-91 | a peer that applies every delta and then the stored state ends with the drawer's canvas |
| `Scenarios.PeerUndo` | src/components/Whiteboard.jsx:94-98 | after two strokes and one undo by a peer, the receiver shows the peer's current snapshot while its own log stays initial |
| `Scenarios.UndoThenRedo` | src/components/Whiteboard.jsx:172-188 | from a canvas showing the cursor's snapshot, undo then redo restores canvas, log and cursor |
| `Scenarios.MoveAfterPeerClearThrows` | src/components/Whiteboard.jsx:106-110 | a peer's `clear-board-receive` in the middle of a stroke makes the next pointer-move throw, because there is no stroke left to extend |
| `Scenarios.UndoRedoDropsPeerCanvas` | src/components/Whiteboard.jsx:94-98 | after two local commits and a peer canvas received by `undo-redo-receive`, undo then redo shows the local two-stroke snapshot, not the peer canvas shown before |

## Left out

- The socket connection and its URL, `join-room`/`leave-room`, and listener registration are not modelled (src/components/Whiteboard.jsx:7-8, 74, 112-119). Incoming events are method calls, and sent events are appended to `outbox`.
- The HTTP fetch of the room is not modelled (src/components/Whiteboard.jsx:56). Its outcome is the `FetchResult` argument of `Load`, and a failure is only logged. The `mounted` guard is also out, because unmounting is not modelled. `src/api.js` is not part of this model.
- React state batching and effect lifecycles are not modelled. Each handler is one atomic step over the current state.
- The room server is not part of this model. The scenarios assume it forwards the `line`, `whiteboardState` and `state` fields of `drawing-data`, `save-state` and `undo-redo` unchanged, as the payloads of `receive-drawing`, `load-state` and `undo-redo-receive`. The `{roomId, ...}` wrapper the client sends is not modelled.
- In-place aliasing is not modelled (src/components/Whiteboard.jsx:147-150). `last.push` mutates a stroke array that earlier history snapshots can share. The model uses values, so a stored snapshot never changes afterwards. In the source, a pointer-down with no position followed by moves extends the last committed stroke inside those snapshots too. In the model it extends only the live canvas.
- Coordinates are modelled as integers, not floating-point numbers. The code only copies them.
- Rendering details are out: Konva, tension smoothing, stage sizing and the resize listener (src/components/Whiteboard.jsx:203-235), and all markup. Only the data handed to each line (lines 436-446) is modelled.
- The theme-driven default colour (src/components/Whiteboard.jsx:24-40), Brave detection (42-49) and console logging are out. `window.confirm` is the boolean `confirmed`.
- `Session.Whiteboard.ActiveUsers`: the count is any integer the channel reports. Presence counting happens on the server, which is not part of this model.
- `Session.Whiteboard.Undo` and `Session.Whiteboard.Redo`: they send the serialised snapshot, not the raw canvas the source sends. This is the corrected behaviour from the findings below.
- `Session.Whiteboard.ReceiveDrawing`: it commits against the current cursor, not the cursor captured at subscription. This is the corrected behaviour from the findings below. The as-written commit is `History.CommitOnto`.
- `Session.Whiteboard.PointerMove`: the model reports the TypeError of `last.push` on an empty canvas (src/components/Whiteboard.jsx:148-150) as `threw`, leaves the state unchanged, and keeps the session usable. In the source, the error is thrown again while React renders. No component has an error boundary, so the whiteboard unmounts and its cleanup leaves the room (lines 112-119). The model does not capture the loss of the component. Ordinary use reaches this path: a stroke started before the initial fetch returns an empty room, or a peer's clear arriving mid-stroke (`Scenarios.MoveAfterPeerClearThrows`).
- Other files are not part of this model: src/pages/RoomPage.jsx, src/pages/Home.jsx, src/App.jsx, src/lib/index.jsx and tailwind.config.js. They hold page markup, routing, local storage, room create/delete requests and styling.

## Findings

| source | as written | input that shows it | evidently intended | confidence | as-written member | corrected member |
|---|---|---|---|---|---|---|
| src/components/Whiteboard.jsx:79-80 | `receive-drawing` slices `history` at the `historyStep` captured when the socket listeners were registered. That value is 0 for a session whose room never changes. It then increments the current step. | A fresh session receives three `receive-drawing` events. `history` has 2 entries and `historyStep` is 3. An undo then sets the canvas to `history[2]`, which is undefined. | Commit against the current step, so that `0 <= historyStep < history.length` keeps holding. | high; not executed | `History.StaleReceiveBreaksCursor` | `Session.Whiteboard.ReceiveDrawing` |
| src/components/Whiteboard.jsx:177 | `undo` and `redo` send the raw snapshot, an array of point arrays. `undo-redo-receive` reads `line.points` from each element, and a bare array has no `points`. | Draw one stroke and then a second, and undo once. A receiving peer shows one empty stroke instead of the first stroke. | Send the `{points}` form, as `save-state` does, so the peer shows the undone-to snapshot. | medium, assumes the server forwards the `state` field unchanged; not executed | `Wire.RawPayloadLosesPoints` | `Scenarios.PeerUndo` |
