/**
 * `Array.prototype.slice(0, end)`, the only array built-in the text robot applies
 * to its sentence list. An absent `end` (JavaScript `undefined`) is `None`.
 */
module JsArray {
  import opened Wrappers

  /**
   * The index `slice` stops at: the length when `end` is absent, `len + end` for a
   * negative `end`, `end` itself otherwise, clamped to `[0, len]`.
   */
  function SliceEnd(len: nat, end: Option<int>): nat {
    match end
    case None => len
    case Some(n) =>
      if n < 0 then (if len + n < 0 then 0 else len + n)
      else if n > len then len
      else n
  }

  /**
   * `a.slice(0, end)`: a prefix of `a`. Without `end` it is all of `a`; a
   * non-negative `end` keeps that many elements (or all of them when there are
   * fewer); a negative `end` drops that many from the back (or everything).
   */
  function SliceTo<T>(a: seq<T>, end: Option<int>): (r: seq<T>)
    ensures |r| <= |a| && r == a[..|r|]
    ensures end.None? ==> r == a
    ensures end.Some? && end.value >= 0 ==> |r| == (if end.value < |a| then end.value else |a|)
    ensures end.Some? && end.value < 0 ==> |r| == (if |a| + end.value < 0 then 0 else |a| + end.value)
  {
    a[..SliceEnd(|a|, end)]
  }

  /** With a non-negative count, slicing a second time changes nothing. */
  lemma SliceToIdempotent<T>(a: seq<T>, n: nat)
    ensures SliceTo(SliceTo(a, Some(n)), Some(n)) == SliceTo(a, Some(n))
  {
    var r := SliceTo(a, Some(n));
    assert r[..|r|] == r;
  }

  /** With a negative count every application drops that many more from the back. */
  lemma SliceToNegativeTwice<T>(a: seq<T>, n: int)
    requires n < 0
    ensures SliceTo(SliceTo(a, Some(n)), Some(n)) == SliceTo(a, Some(2 * n))
  {
    var r := SliceTo(a, Some(n));
    var r2 := SliceTo(a, Some(2 * n));
    assert SliceTo(r, Some(n)) == r[..|r2|];
    assert r[..|r2|] == a[..|r2|];
  }

  /** A count of zero empties the list; any count at least the length keeps all of it. */
  lemma SliceToBounds<T>(a: seq<T>, n: int)
    ensures n == 0 ==> SliceTo(a, Some(n)) == []
    ensures n >= |a| ==> SliceTo(a, Some(n)) == a
    ensures n < 0 && -n >= |a| ==> SliceTo(a, Some(n)) == []
  {
  }
}
