/** JavaScript's Array.prototype.slice and splice, including their reading of negative indices. */
module JsArray {

  /** A slice/splice index `i` resolved against a list of length `n`: negative counts from the end. */
  function ClampIndex(i: int, n: nat): (r: nat)
    ensures r <= n
    ensures 0 <= i ==> r == if i <= n then i else n
    ensures i < 0 ==> r == if n + i < 0 then 0 else n + i
  {
    if i < 0 then (if n + i < 0 then 0 else n + i) else if i > n then n else i
  }

  /** `s.slice(start, end)`. */
  function Slice<T>(s: seq<T>, start: int, end: int): seq<T> {
    var b, e := ClampIndex(start, |s|), ClampIndex(end, |s|);
    if b < e then s[b..e] else []
  }

  /** What is left of `s` after `s.splice(start)`, which deletes from `start` to the end. */
  function SpliceFrom<T>(s: seq<T>, start: int): seq<T> {
    s[..ClampIndex(start, |s|)]
  }

  /** On non-negative bounds, `slice` is the clamped sub-range and is never longer than asked. */
  lemma SliceNonNegative<T>(s: seq<T>, start: int, end: int)
    requires 0 <= start && 0 <= end
    ensures var b := if start <= |s| then start else |s|;
      var e := if end <= |s| then end else |s|;
      Slice(s, start, end) == if b < e then s[b..e] else []
    ensures |Slice(s, start, end)| <= if start <= end then end - start else 0
  {
  }
}
