/**
 * What each stroke hands to the line renderer: its points flattened to
 * `[x0, y0, x1, y1, ...]`, and its colour and width taken from its first point,
 * with fallbacks when those are missing or falsy.
 */
module Render {
  import opened Wrappers
  import opened Strokes

  /** The fallback width when a stroke carries none. */
  const DefaultWidth := 2

  datatype RenderedLine = RenderedLine(points: seq<int>, stroke: string, strokeWidth: int)

  /** `line.flatMap(p => [p.x, p.y])`. */
  function FlattenPoints(s: Stroke): (r: seq<int>)
    ensures |r| == 2 * |s|
    ensures forall i :: 0 <= i < |s| ==> r[2 * i] == s[i].x && r[2 * i + 1] == s[i].y
  {
    if s == [] then [] else [s[0].x, s[0].y] + FlattenPoints(s[1..])
  }

  /** `line[0]?.stroke || strokeColor`: the empty string is falsy in JavaScript. */
  function LineColor(s: Stroke, current: string): (c: string)
    ensures current != "" ==> c != ""
    ensures |s| > 0 && s[0].stroke.Some? && s[0].stroke.value != "" ==> c == s[0].stroke.value
    ensures !(|s| > 0 && s[0].stroke.Some? && s[0].stroke.value != "") ==> c == current
  {
    var own := if |s| > 0 then s[0].stroke.GetOr("") else "";
    if own != "" then own else current
  }

  /** `line[0]?.strokeWidth || 2`: a width of 0 is falsy, so the rendered width is never 0. */
  function LineWidth(s: Stroke): (w: int)
    ensures w != 0
    ensures |s| > 0 && s[0].strokeWidth.Some? && s[0].strokeWidth.value != 0 ==> w == s[0].strokeWidth.value
    ensures !(|s| > 0 && s[0].strokeWidth.Some? && s[0].strokeWidth.value != 0) ==> w == DefaultWidth
  {
    var own := if |s| > 0 then s[0].strokeWidth.GetOr(0) else 0;
    if own != 0 then own else DefaultWidth
  }

  function RenderLine(s: Stroke, current: string): (r: RenderedLine)
    ensures |r.points| == 2 * |s|
  {
    RenderedLine(FlattenPoints(s), LineColor(s, current), LineWidth(s))
  }

  /** `lines.map(...)`: one rendered line per stroke, in canvas order. */
  function RenderCanvas(c: Canvas, current: string): (r: seq<RenderedLine>)
    ensures |r| == |c|
    ensures forall i :: 0 <= i < |c| ==> r[i] == RenderLine(c[i], current)
  {
    if c == [] then [] else [RenderLine(c[0], current)] + RenderCanvas(c[1..], current)
  }

  /**
   * A stroke drawn with a non-empty colour and a non-zero width is rendered with
   * its own style, whatever colour is currently selected.
   */
  lemma OwnStyleWins(s: Stroke, color: string, width: int, current: string)
    requires Styled(s, color, width) && color != "" && width != 0
    ensures RenderLine(s, current).stroke == color
    ensures RenderLine(s, current).strokeWidth == width
  {
  }

  /** A stroke with no style of its own (a peer's empty placeholder, say) takes the current colour and width 2. */
  lemma UnstyledFallsBack(s: Stroke, current: string)
    requires s == [] || (s[0].stroke.None? && s[0].strokeWidth.None?)
    ensures RenderLine(s, current) == RenderedLine(FlattenPoints(s), current, DefaultWidth)
  {
  }
}
