/**
 * Canvas data: a canvas is an ordered sequence of strokes (render order), a
 * stroke an ordered sequence of points. Only the first point of a locally drawn
 * stroke carries the stroke's colour and width.
 */
module Strokes {
  import opened Wrappers
  import Js

  /** A pointer position as reported by the stage; the code never does arithmetic on it. */
  datatype Pos = Pos(x: int, y: int)

  /** `{x, y}` plus the optional `stroke` (colour) and `strokeWidth` properties. */
  datatype Point = Point(x: int, y: int, stroke: Option<string>, strokeWidth: Option<int>)

  type Stroke = seq<Point>
  type Canvas = seq<Stroke>

  /** `{...pos, stroke: color, strokeWidth: width}`: the styled first point of a stroke. */
  function HeadPoint(pos: Pos, color: string, width: int): (p: Point)
    ensures p.x == pos.x && p.y == pos.y
    ensures p.stroke == Some(color) && p.strokeWidth == Some(width)
  {
    Point(pos.x, pos.y, Some(color), Some(width))
  }

  /** `{...pos}`: a later point of a stroke, without style properties. */
  function PlainPoint(pos: Pos): (p: Point)
    ensures p.x == pos.x && p.y == pos.y
    ensures p.stroke.None? && p.strokeWidth.None?
  {
    Point(pos.x, pos.y, None, None)
  }

  /** A stroke whose first point holds `color` and `width` and whose other points hold no style. */
  predicate Styled(s: Stroke, color: string, width: int) {
    && |s| > 0
    && s[0].stroke == Some(color)
    && s[0].strokeWidth == Some(width)
    && forall i :: 1 <= i < |s| ==> s[i].stroke.None? && s[i].strokeWidth.None?
  }

  /** `[...prev, [head]]`: pointer-down appends one new single-point stroke. */
  function BeginStroke(c: Canvas, pos: Pos, color: string, width: int): (r: Canvas)
    ensures |r| == |c| + 1
    ensures r[..|c|] == c
    ensures |r[|c|]| == 1 && r[|c|][0].x == pos.x && r[|c|][0].y == pos.y
    ensures Styled(r[|c|], color, width)
  {
    c + [[HeadPoint(pos, color, width)]]
  }

  /** `last.push({...pos})` on a copy of the canvas: the last stroke grows by one unstyled point. */
  function ExtendLast(c: Canvas, pos: Pos): (r: Canvas)
    requires |c| > 0
    ensures |r| == |c|
    ensures r[..|c| - 1] == c[..|c| - 1]
    ensures |r[|c| - 1]| == |c[|c| - 1]| + 1
    ensures r[|c| - 1][..|c[|c| - 1]|] == c[|c| - 1]
    ensures r[|c| - 1][|c[|c| - 1]|] == PlainPoint(pos)
  {
    c[..|c| - 1] + [c[|c| - 1] + [PlainPoint(pos)]]
  }

  /**
   * `[...prev.slice(0, prev.length - 1), line]`: the incoming stroke replaces the
   * last one, or becomes the only stroke of an empty canvas.
   */
  function ReplaceLast(c: Canvas, line: Stroke): (r: Canvas)
    ensures |r| == if c == [] then 1 else |c|
    ensures r[|r| - 1] == line
    ensures forall i :: 0 <= i < |r| - 1 ==> r[i] == c[i]
  {
    Js.SliceAllButLast(c);
    Js.Slice(c, 0, |c| - 1) + [line]
  }

  /** Extending a styled stroke keeps it styled: the style stays on the first point only. */
  lemma ExtendKeepsStyle(c: Canvas, pos: Pos, color: string, width: int)
    requires |c| > 0 && Styled(c[|c| - 1], color, width)
    ensures Styled(ExtendLast(c, pos)[|c| - 1], color, width)
  {
  }
}
