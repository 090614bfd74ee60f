/**
 * Clients of the session class: the documented behaviours of the whiteboard,
 * derived from the handlers' contracts alone.
 */
module Scenarios {
  import opened Wrappers
  import opened Strokes
  import Wire
  import History
  import opened Session

  /**
   * Pointer-down at p0 then two moves: the down sends nothing, and each move
   * sends the whole stroke so far, its first point carrying the pen.
   */
  method StrokeDeltas(roomId: string, p0: Pos, p1: Pos, p2: Pos) returns (deltas: seq<Message>)
    ensures deltas == [
      DrawingData(roomId, [HeadPoint(p0, "#000000", 2), PlainPoint(p1)]),
      DrawingData(roomId, [HeadPoint(p0, "#000000", 2), PlainPoint(p1), PlainPoint(p2)])
    ]
  {
    var b := new Whiteboard(roomId);
    var head := HeadPoint(p0, "#000000", 2);
    b.PointerDown(true, Some(p0));
    assert b.lines == [[head]];
    var _ := b.PointerMove(true, Some(p1));
    assert [head] + [PlainPoint(p1)] == [head, PlainPoint(p1)];
    assert b.lines == [[head, PlainPoint(p1)]];
    var _ := b.PointerMove(true, Some(p2));
    assert [head, PlainPoint(p1)] + [PlainPoint(p2)] == [head, PlainPoint(p1), PlainPoint(p2)];
    assert b.lines == [[head, PlainPoint(p1), PlainPoint(p2)]];
    deltas := b.outbox;
  }

  /**
   * Peer A draws one stroke (down, move, up); peer B applies every delta A sent
   * and then the stored state A sent on pointer-up, as relayed by the room. B
   * ends with A's canvas.
   */
  method PeerConverges(roomId: string, p0: Pos, p1: Pos) returns (aLines: Canvas, bLines: Canvas)
    ensures aLines == [[HeadPoint(p0, "#000000", 2), PlainPoint(p1)]]
    ensures bLines == aLines
  {
    var a := new Whiteboard(roomId);
    var b := new Whiteboard(roomId);
    var head := HeadPoint(p0, "#000000", 2);
    a.PointerDown(true, Some(p0));
    assert a.lines == [[head]];
    var _ := a.PointerMove(true, Some(p1));
    assert [head] + [PlainPoint(p1)] == [head, PlainPoint(p1)];
    assert a.lines == [[head, PlainPoint(p1)]];
    a.PointerUp();
    assert |a.outbox| == 2 && a.outbox[0].DrawingData? && a.outbox[1].SaveState?;
    b.ReceiveDrawing(a.outbox[0].line);
    b.LoadState(a.outbox[1].whiteboardState);
    Wire.ParseSerialize(a.lines);
    aLines, bLines := a.lines, b.lines;
  }

  /**
   * Peer A commits two strokes and undoes one; peer B applies A's undo message.
   * B shows A's current snapshot (the first stroke only) while B's own log is
   * unchanged.
   */
  method PeerUndo(roomId: string, p: Pos, q: Pos) returns (aShown: Canvas, bShown: Canvas, bLog: History.Log)
    ensures aShown == [[HeadPoint(p, "#000000", 2)]]
    ensures bShown == aShown
    ensures bLog == History.Initial
  {
    var a := new Whiteboard(roomId);
    var b := new Whiteboard(roomId);
    a.PointerDown(true, Some(p));
    a.PointerUp();
    a.PointerDown(true, Some(q));
    a.PointerUp();
    a.Undo();
    var sent := a.outbox[|a.outbox| - 1];
    assert sent == UndoRedo(roomId, Wire.Serialize(a.lines));
    b.UndoRedoReceive(sent.state);
    Wire.ParseSerialize(a.lines);
    aShown, bShown, bLog := a.lines, b.lines, b.HistoryLog();
  }

  /**
   * Undo immediately followed by redo, from a state showing the cursor's
   * snapshot, restores the canvas, the log and the cursor.
   */
  method UndoThenRedo(b: Whiteboard)
    requires b.Valid() && b.historyStep > 0
    requires b.lines == History.Current(b.HistoryLog())
    modifies b
    ensures b.Valid()
    ensures b.lines == old(b.lines) && b.history == old(b.history) && b.historyStep == old(b.historyStep)
  {
    ghost var before := b.HistoryLog();
    b.Undo();
    b.Redo();
    History.UndoThenRedo(before);
  }

  /**
   * Undo then redo shows the snapshot at the cursor, not the canvas shown
   * before the undo: a session commits two strokes, then shows a peer's canvas
   * received through `undo-redo-receive`; after undo and redo it shows its own
   * two-stroke snapshot again and the peer's canvas is gone.
   */
  method UndoRedoDropsPeerCanvas(roomId: string, p: Pos, q: Pos, peer: Canvas)
    returns (before: Canvas, after: Canvas)
    ensures before == peer
    ensures after == [[HeadPoint(p, "#000000", 2)], [HeadPoint(q, "#000000", 2)]]
  {
    var b := new Whiteboard(roomId);
    b.PointerDown(true, Some(p));
    b.PointerUp();
    b.PointerDown(true, Some(q));
    b.PointerUp();
    ghost var own := b.lines;
    b.UndoRedoReceive(Wire.Serialize(peer));
    Wire.ParseSerialize(peer);
    before := b.lines;
    b.Undo();
    b.Redo();
    assert b.lines == own;
    after := b.lines;
  }

  /**
   * A peer's clear arriving in the middle of a stroke leaves the drawing flag
   * set over an empty canvas, so the next move has no stroke to extend and
   * throws.
   */
  method MoveAfterPeerClearThrows(roomId: string, p: Pos, q: Pos) returns (threw: bool)
    ensures threw
  {
    var b := new Whiteboard(roomId);
    b.PointerDown(true, Some(p));
    b.ClearBoardReceive();
    threw := b.PointerMove(true, Some(q));
  }
}
