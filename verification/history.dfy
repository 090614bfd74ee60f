/**
 * The linear undo/redo log: a sequence of full canvas snapshots and a cursor
 * (`history` and `historyStep` in the component). Each operation is a function
 * from the old log to the new one; the session class is specified by them.
 */
module History {
  import Js
  import opened Strokes

  datatype Log = Log(entries: seq<Canvas>, cursor: int)

  /** The cursor names an entry; the undo and redo buttons rely on it. */
  predicate Valid(l: Log) {
    0 <= l.cursor < |l.entries|
  }

  /** One empty canvas, cursor 0: the state before anything is loaded or drawn. */
  const Initial: Log := Log([[]], 0)

  /** The snapshot the cursor points at. */
  function Current(l: Log): Canvas
    requires Valid(l)
  {
    l.entries[l.cursor]
  }

  /** The undo button is enabled (it is disabled when `historyStep === 0`). */
  predicate CanUndo(l: Log) {
    l.cursor != 0
  }

  /** The redo button is enabled (it is disabled when `historyStep === history.length - 1`). */
  predicate CanRedo(l: Log) {
    l.cursor != |l.entries| - 1
  }

  /**
   * `[...prev.slice(0, base + 1), snapshot]` with the cursor advanced from its
   * current value, where `base` is the cursor value the caller happened to read.
   */
  function CommitOnto(l: Log, base: int, snapshot: Canvas): (r: Log)
    ensures r.cursor == l.cursor + 1
    ensures |r.entries| > 0 && r.entries[|r.entries| - 1] == snapshot
    ensures 0 <= base < |l.entries| ==> r.entries == l.entries[..base + 1] + [snapshot]
    ensures base >= |l.entries| ==> r.entries == l.entries + [snapshot]
  {
    Log(Js.Slice(l.entries, 0, base + 1) + [snapshot], l.cursor + 1)
  }

  /**
   * Commit against the current cursor: keep the entries up to and including the
   * cursor, append the snapshot and move the cursor onto it.
   */
  function Commit(l: Log, snapshot: Canvas): (r: Log)
    requires Valid(l)
    ensures Valid(r)
    ensures |r.entries| == l.cursor + 2 && r.cursor == l.cursor + 1
    ensures forall i :: 0 <= i <= l.cursor ==> r.entries[i] == l.entries[i]
    ensures Current(r) == snapshot
  {
    Js.SlicePrefix(l.entries, l.cursor + 1);
    CommitOnto(l, l.cursor, snapshot)
  }

  /** Step back one entry when the cursor is not at the start; the entries are never touched. */
  function Undo(l: Log): (r: Log)
    requires Valid(l)
    ensures Valid(r) && r.entries == l.entries
    ensures CanUndo(l) ==> r.cursor == l.cursor - 1
    ensures !CanUndo(l) ==> r == l
  {
    if l.cursor > 0 then l.(cursor := l.cursor - 1) else l
  }

  /** Step forward one entry when the cursor is not at the tail; the entries are never touched. */
  function Redo(l: Log): (r: Log)
    requires Valid(l)
    ensures Valid(r) && r.entries == l.entries
    ensures CanRedo(l) ==> r.cursor == l.cursor + 1
    ensures !CanRedo(l) ==> r == l
  {
    if l.cursor < |l.entries| - 1 then l.(cursor := l.cursor + 1) else l
  }

  /** `setHistory([loaded]); setHistoryStep(0)`: a log holding only the loaded canvas. */
  function Seed(loaded: Canvas): (r: Log)
    ensures Valid(r) && Current(r) == loaded
    ensures !CanUndo(r) && !CanRedo(r)
  {
    Log([loaded], 0)
  }

  /** The log a clear installs (a seed with the empty canvas) is the initial log. */
  lemma ClearIsInitial()
    ensures Seed([]) == Initial
  {
  }

  /** Undo is a no-op exactly when the undo button is disabled. */
  lemma UndoNoOpIffDisabled(l: Log)
    requires Valid(l)
    ensures Undo(l) == l <==> !CanUndo(l)
  {
  }

  /** Redo is a no-op exactly when the redo button is disabled. */
  lemma RedoNoOpIffDisabled(l: Log)
    requires Valid(l)
    ensures Redo(l) == l <==> !CanRedo(l)
  {
  }

  /** Undo followed by redo restores the log. */
  lemma UndoThenRedo(l: Log)
    requires Valid(l) && CanUndo(l)
    ensures Redo(Undo(l)) == l
  {
  }

  /** Redo followed by undo restores the log. */
  lemma RedoThenUndo(l: Log)
    requires Valid(l) && CanRedo(l)
    ensures Undo(Redo(l)) == l
  {
  }

  /** After a commit there is nothing to redo: any redo branch is gone. */
  lemma CommitDiscardsRedo(l: Log, snapshot: Canvas)
    requires Valid(l)
    ensures !CanRedo(Commit(l, snapshot))
    ensures Commit(l, snapshot).entries == l.entries[..l.cursor + 1] + [snapshot]
  {
  }

  /**
   * A commit right after an undo from cursor k + 1 leaves k + 2 entries and
   * drops the entry that was undone.
   */
  lemma CommitAfterUndo(l: Log, snapshot: Canvas)
    requires Valid(l) && CanUndo(l)
    ensures Commit(Undo(l), snapshot).entries == l.entries[..l.cursor] + [snapshot]
    ensures |Commit(Undo(l), snapshot).entries| == l.cursor + 1
  {
  }

  /** The log after committing each snapshot in turn, with no undo in between. */
  function CommitAll(l: Log, snapshots: seq<Canvas>): (r: Log)
    requires Valid(l)
    ensures Valid(r)
    decreases |snapshots|
  {
    if snapshots == [] then l else CommitAll(Commit(l, snapshots[0]), snapshots[1..])
  }

  /** From a log whose cursor is at its tail, N commits append exactly the N snapshots. */
  lemma {:induction false} CommitAllAppends(l: Log, snapshots: seq<Canvas>)
    requires Valid(l) && l.cursor == |l.entries| - 1
    ensures CommitAll(l, snapshots) == Log(l.entries + snapshots, l.cursor + |snapshots|)
    decreases |snapshots|
  {
    if snapshots != [] {
      var l' := Commit(l, snapshots[0]);
      CommitDiscardsRedo(l, snapshots[0]);
      assert l.entries[..l.cursor + 1] == l.entries;
      CommitAllAppends(l', snapshots[1..]);
      assert l.entries + snapshots == l'.entries + snapshots[1..];
    }
  }

  /** N commits from the initial log leave N + 1 entries with the cursor at N. */
  lemma CommitsFromInitial(snapshots: seq<Canvas>)
    ensures |CommitAll(Initial, snapshots).entries| == |snapshots| + 1
    ensures CommitAll(Initial, snapshots).cursor == |snapshots|
  {
    CommitAllAppends(Initial, snapshots);
  }

  /**
   * A commit that slices at a cursor value `base` read earlier keeps the log
   * valid exactly when the current cursor has not moved past `base`.
   */
  lemma StaleCommitValid(l: Log, base: int, snapshot: Canvas)
    requires Valid(l) && base >= 0
    ensures Valid(CommitOnto(l, base, snapshot)) <==> l.cursor <= base
  {
  }

  /**
   * Three incoming strokes committed onto the cursor value 0 captured at
   * subscription: the log keeps two entries while the cursor reaches 3, so an
   * undo would then read entry 2, past the end.
   */
  lemma StaleReceiveBreaksCursor(a: Canvas, b: Canvas, c: Canvas)
    ensures var l := CommitOnto(CommitOnto(CommitOnto(Initial, 0, a), 0, b), 0, c);
      && |l.entries| == 2 && l.cursor == 3
      && !Valid(l)
      && l.cursor - 1 >= |l.entries|
  {
  }
}
