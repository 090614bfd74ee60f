/** The part of JavaScript's Array.prototype.slice that the whiteboard relies on. */
module Js {

  /**
   * Index normalisation of `slice`: a negative index counts back from the end,
   * and the result is clamped into [0, len].
   */
  function SliceIndex(i: int, len: nat): (k: nat)
    ensures k <= len
    ensures 0 <= i <= len ==> k == i
    ensures i < 0 && -i <= len ==> k + (-i) == len
    ensures i < 0 && -i > len ==> k == 0
    ensures i > len ==> k == len
  {
    if i < 0 then (if len + i < 0 then 0 else len + i)
    else if i > len then len
    else i
  }

  /** `s.slice(start, end)`: never fails, an empty result when the range is empty after normalisation. */
  function Slice<T>(s: seq<T>, start: int, end: int): (r: seq<T>)
    ensures |r| <= |s|
    ensures 0 <= start <= end <= |s| ==> r == s[start..end]
  {
    var lo := SliceIndex(start, |s|);
    var hi := SliceIndex(end, |s|);
    if lo < hi then s[lo..hi] else []
  }

  /** `s.slice(0, n)` for n >= 0 keeps the first n elements, or all of them when n is too large. */
  lemma SlicePrefix<T>(s: seq<T>, n: int)
    requires n >= 0
    ensures Slice(s, 0, n) == if n <= |s| then s[..n] else s
  {
  }

  /** `s.slice(0, s.length - 1)` drops the last element, and is empty for an empty array. */
  lemma SliceAllButLast<T>(s: seq<T>)
    ensures Slice(s, 0, |s| - 1) == if s == [] then [] else s[..|s| - 1]
  {
  }
}
