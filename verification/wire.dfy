/**
 * The wire and storage form of a canvas: an ordered array of `{points}` objects,
 * whose first point may carry `stroke` and `strokeWidth`.
 */
module Wire {
  import opened Wrappers
  import opened Strokes

  /** One element of `whiteboardState`; `points` may be missing. */
  datatype WireEntry = WireEntry(points: Option<Stroke>)

  /** `lines.map(stroke => ({points: stroke}))`. */
  function Serialize(c: Canvas): (w: seq<WireEntry>)
    ensures |w| == |c|
    ensures forall i :: 0 <= i < |c| ==> w[i].points == Some(c[i])
  {
    if c == [] then [] else [WireEntry(Some(c[0]))] + Serialize(c[1..])
  }

  /** `state.map(line => line.points || [])`: an entry without points becomes an empty stroke. */
  function Parse(w: seq<WireEntry>): (c: Canvas)
    ensures |c| == |w|
    ensures forall i :: 0 <= i < |w| && w[i].points.Some? ==> c[i] == w[i].points.value
    ensures forall i :: 0 <= i < |w| && w[i].points.None? ==> c[i] == []
  {
    if w == [] then [] else [w[0].points.GetOr([])] + Parse(w[1..])
  }

  /** Parsing the serialised canvas gives back every stroke, in order, style fields included. */
  lemma ParseSerialize(c: Canvas)
    ensures Parse(Serialize(c)) == c
  {
  }

  /** Conversely, a payload whose every entry has points is the serialisation of what it parses to. */
  lemma SerializeParse(w: seq<WireEntry>)
    requires forall i :: 0 <= i < |w| ==> w[i].points.Some?
    ensures Serialize(Parse(w)) == w
  {
  }

  /**
   * How a receiver's `line.points` sees a canvas that was sent without
   * serialising it: each element is a bare array of points, which has no
   * `points` property.
   */
  function RawPayload(c: Canvas): (w: seq<WireEntry>)
    ensures |w| == |c|
    ensures forall i :: 0 <= i < |w| ==> w[i].points.None?
  {
    if c == [] then [] else [WireEntry(None)] + RawPayload(c[1..])
  }

  /**
   * Parsing a raw canvas keeps the number of strokes but empties every one of
   * them, so it loses the drawing exactly when some stroke had a point.
   */
  lemma RawPayloadLosesPoints(c: Canvas)
    ensures |Parse(RawPayload(c))| == |c|
    ensures forall i :: 0 <= i < |c| ==> Parse(RawPayload(c))[i] == []
    ensures Parse(RawPayload(c)) == c <==> forall i :: 0 <= i < |c| ==> c[i] == []
  {
  }
}
