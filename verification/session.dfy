/**
 * One client's whiteboard session in a room: the live canvas, the undo/redo
 * log, the drawing flag and the current pen, changed by pointer handlers,
 * toolbar actions and events from the room channel. Every handler is one
 * atomic step. What the session sends to the room is recorded, in order, in
 * `outbox`.
 */
module Session {
  import opened Wrappers
  import opened Strokes
  import Wire
  import History

  /** Events sent to the room channel. */
  datatype Message =
    | DrawingData(roomId: string, line: Stroke)
    | SaveState(roomId: string, whiteboardState: seq<Wire.WireEntry>)
    | UndoRedo(roomId: string, state: seq<Wire.WireEntry>)
    | ClearBoard(roomId: string)

  /** The outcome of fetching the stored room; `whiteboardState` may be missing from the reply. */
  datatype FetchResult =
    | Fetched(whiteboardState: Option<seq<Wire.WireEntry>>)
    | FetchFailed

  predicate IsHexDigit(ch: char) {
    '0' <= ch <= '9' || 'a' <= ch <= 'f'
  }

  /** The value a colour input yields: `#rrggbb` in lower-case hex. */
  predicate IsHexColor(c: string) {
    |c| == 7 && c[0] == '#' && forall i :: 1 <= i < 7 ==> IsHexDigit(c[i])
  }

  /** The slider's range for the pen width. */
  const MinWidth := 1
  const MaxWidth := 20

  class Whiteboard {
    const roomId: string
    var lines: Canvas
    var history: seq<Canvas>
    var historyStep: int
    var isDrawing: bool
    var strokeColor: string
    var strokeWidth: int
    var activeUsersCount: int
    var outbox: seq<Message>

    /** The cursor is in range, and the pen is one the colour input and width slider can produce. */
    ghost predicate Valid()
      reads this
    {
      && History.Valid(HistoryLog())
      && IsHexColor(strokeColor)
      && MinWidth <= strokeWidth <= MaxWidth
    }

    function HistoryLog(): History.Log
      reads this
    {
      History.Log(history, historyStep)
    }

    constructor (roomId: string)
      ensures Valid()
      ensures this.roomId == roomId
      ensures lines == [] && HistoryLog() == History.Initial
      ensures !isDrawing && strokeColor == "#000000" && strokeWidth == 2
      ensures activeUsersCount == 0 && outbox == []
    {
      this.roomId := roomId;
      lines, history, historyStep := [], [[]], 0;
      isDrawing := false;
      strokeColor, strokeWidth := "#000000", 2;
      activeUsersCount := 0;
      outbox := [];
    }

    /**
     * The initial fetch of the stored room: a reply seeds the canvas and a
     * one-entry log with the parsed state (an absent state reads as empty); a
     * failed fetch is only logged.
     */
    method Load(res: FetchResult)
      requires Valid()
      modifies this`lines, this`history, this`historyStep
      ensures Valid()
      ensures res.Fetched? ==> lines == Wire.Parse(res.whiteboardState.GetOr([]))
      ensures res.Fetched? ==> HistoryLog() == History.Seed(lines)
      ensures res.FetchFailed? ==> lines == old(lines) && HistoryLog() == old(HistoryLog())
    {
      if res.Fetched? {
        var loaded := Wire.Parse(res.whiteboardState.GetOr([]));
        lines := loaded;
        history, historyStep := [loaded], 0;
      }
    }

    /**
     * Pointer-down: without a stage nothing happens; with one the drawing flag
     * is set, and when the pointer position is known a new one-point stroke
     * carrying the current pen is appended. Nothing is sent.
     */
    method PointerDown(hasStage: bool, pos: Option<Pos>)
      requires Valid()
      modifies this`lines, this`isDrawing
      ensures Valid()
      ensures isDrawing == (hasStage || old(isDrawing))
      ensures hasStage && pos.Some? ==> lines == BeginStroke(old(lines), pos.value, strokeColor, strokeWidth)
      ensures !(hasStage && pos.Some?) ==> lines == old(lines)
    {
      if !hasStage {
        return;
      }
      isDrawing := true;
      if pos.None? {
        return;
      }
      lines := BeginStroke(lines, pos.value, strokeColor, strokeWidth);
    }

    /**
     * Pointer-move while drawing, with a stage and a position: the last stroke
     * grows by one unstyled point and the whole updated stroke is sent. With no
     * stroke to grow the update throws (`threw`) and nothing changes; in every
     * other case nothing changes and nothing is sent.
     */
    method PointerMove(hasStage: bool, pos: Option<Pos>) returns (threw: bool)
      requires Valid()
      modifies this`lines, this`outbox
      ensures Valid()
      ensures threw <==> isDrawing && hasStage && pos.Some? && old(lines) == []
      ensures isDrawing && hasStage && pos.Some? && old(lines) != [] ==>
        && lines == ExtendLast(old(lines), pos.value)
        && outbox == old(outbox) + [DrawingData(roomId, lines[|lines| - 1])]
      ensures !(isDrawing && hasStage && pos.Some? && old(lines) != []) ==>
        lines == old(lines) && outbox == old(outbox)
    {
      threw := false;
      if !isDrawing || !hasStage || pos.None? {
        return;
      }
      if lines == [] {
        threw := true;
        return;
      }
      lines := ExtendLast(lines, pos.value);
      outbox := outbox + [DrawingData(roomId, lines[|lines| - 1])];
    }

    /**
     * Pointer-up: clears the drawing flag, commits the live canvas to the log
     * whether or not anything was drawn, and sends the serialised canvas for
     * storage.
     */
    method PointerUp()
      requires Valid()
      modifies this`isDrawing, this`history, this`historyStep, this`outbox
      ensures Valid() && !isDrawing
      ensures HistoryLog() == History.Commit(old(HistoryLog()), lines)
      ensures outbox == old(outbox) + [SaveState(roomId, Wire.Serialize(lines))]
    {
      isDrawing := false;
      var committed := History.Commit(HistoryLog(), lines);
      history, historyStep := committed.entries, committed.cursor;
      outbox := outbox + [SaveState(roomId, Wire.Serialize(lines))];
    }

    /**
     * Undo: away from the start of the log, step back, show that snapshot and
     * send it to the room; at the start nothing changes and nothing is sent.
     */
    method Undo()
      requires Valid()
      modifies this`lines, this`historyStep, this`outbox
      ensures Valid()
      ensures HistoryLog() == History.Undo(old(HistoryLog()))
      ensures old(historyStep) > 0 ==>
        && lines == History.Current(HistoryLog())
        && outbox == old(outbox) + [UndoRedo(roomId, Wire.Serialize(lines))]
      ensures old(historyStep) == 0 ==> lines == old(lines) && outbox == old(outbox)
    {
      if historyStep > 0 {
        var step := historyStep - 1;
        historyStep := step;
        lines := history[step];
        outbox := outbox + [UndoRedo(roomId, Wire.Serialize(history[step]))];
      }
    }

    /**
     * Redo: before the tail of the log, step forward, show that snapshot and
     * send it to the room; at the tail nothing changes and nothing is sent.
     */
    method Redo()
      requires Valid()
      modifies this`lines, this`historyStep, this`outbox
      ensures Valid()
      ensures HistoryLog() == History.Redo(old(HistoryLog()))
      ensures old(historyStep) < |history| - 1 ==>
        && lines == History.Current(HistoryLog())
        && outbox == old(outbox) + [UndoRedo(roomId, Wire.Serialize(lines))]
      ensures old(historyStep) == |history| - 1 ==> lines == old(lines) && outbox == old(outbox)
    {
      if historyStep < |history| - 1 {
        var step := historyStep + 1;
        historyStep := step;
        lines := history[step];
        outbox := outbox + [UndoRedo(roomId, Wire.Serialize(history[step]))];
      }
    }

    /**
     * Clear, after the user's confirmation: empty canvas, initial log, then
     * `clear-board` and an empty `save-state` are sent. Declined, nothing changes.
     */
    method Clear(confirmed: bool)
      requires Valid()
      modifies this`lines, this`history, this`historyStep, this`outbox
      ensures Valid()
      ensures confirmed ==> lines == [] && HistoryLog() == History.Initial
      ensures confirmed ==> outbox == old(outbox) + [ClearBoard(roomId), SaveState(roomId, [])]
      ensures !confirmed ==> lines == old(lines) && HistoryLog() == old(HistoryLog()) && outbox == old(outbox)
    {
      if confirmed {
        lines := [];
        var cleared := History.Seed([]);
        History.ClearIsInitial();
        history, historyStep := cleared.entries, cleared.cursor;
        outbox := outbox + [ClearBoard(roomId), SaveState(roomId, [])];
      }
    }

    /**
     * `receive-drawing`: a peer's stroke-so-far replaces the last stroke, and
     * the result is committed to the log against the current cursor.
     */
    method ReceiveDrawing(lineData: Stroke)
      requires Valid()
      modifies this`lines, this`history, this`historyStep
      ensures Valid()
      ensures lines == ReplaceLast(old(lines), lineData)
      ensures HistoryLog() == History.Commit(old(HistoryLog()), lines)
    {
      lines := ReplaceLast(lines, lineData);
      var committed := History.Commit(HistoryLog(), lines);
      history, historyStep := committed.entries, committed.cursor;
    }

    /** `load-state`: the parsed state replaces the canvas and seeds a one-entry log. */
    method LoadState(state: seq<Wire.WireEntry>)
      requires Valid()
      modifies this`lines, this`history, this`historyStep
      ensures Valid()
      ensures lines == Wire.Parse(state)
      ensures HistoryLog() == History.Seed(lines)
    {
      var loaded := Wire.Parse(state);
      lines := loaded;
      history, historyStep := [loaded], 0;
    }

    /** `undo-redo-receive`: a peer's state replaces the canvas; this session's log is untouched. */
    method UndoRedoReceive(state: seq<Wire.WireEntry>)
      requires Valid()
      modifies this`lines
      ensures Valid()
      ensures lines == Wire.Parse(state)
    {
      lines := Wire.Parse(state);
    }

    /** `clear-board-receive`: empty canvas and initial log, whatever the prior depth; nothing is sent. */
    method ClearBoardReceive()
      requires Valid()
      modifies this`lines, this`history, this`historyStep
      ensures Valid()
      ensures lines == [] && HistoryLog() == History.Initial
    {
      lines := [];
      history, historyStep := [[]], 0;
    }

    /** `active-users`: the room's connection count as the channel reports it. */
    method ActiveUsers(count: int)
      requires Valid()
      modifies this`activeUsersCount
      ensures Valid()
      ensures activeUsersCount == count
    {
      activeUsersCount := count;
    }

    /** The colour input changes the pen colour for strokes begun from now on. */
    method PickColor(color: string)
      requires Valid() && IsHexColor(color)
      modifies this`strokeColor
      ensures Valid() && strokeColor == color
    {
      strokeColor := color;
    }

    /** The width slider changes the pen width for strokes begun from now on. */
    method PickWidth(width: int)
      requires Valid() && MinWidth <= width <= MaxWidth
      modifies this`strokeWidth
      ensures Valid() && strokeWidth == width
    {
      strokeWidth := width;
    }
  }
}
