/**
  The pieces of Python's (and the tensor library's) indexing semantics that the
  dataset adapters rely on: integer indexing with negative indices, slicing
  with clamped bounds, and floor division.
 */
module PyOps {

  datatype Option<+T> = None | Some(value: T)

  /** A slice bound as Python normalises it against a sequence of length `len`:
      a negative bound counts from the end, and the result is clamped to [0, len]. */
  function SliceBound(i: int, len: nat): (r: nat)
    ensures r <= len
    ensures 0 <= i <= len ==> r == i
    ensures i >= len ==> r == len
    ensures i < 0 ==> r <= len + i || r == 0
  {
    if i < 0 then (if i + len < 0 then 0 else i + len)
    else if i > len then len
    else i
  }

  /** `s[lo:hi]`. Slicing never raises: bounds are normalised and crossed
      bounds give the empty sequence. */
  function Slice<T>(s: seq<T>, lo: int, hi: int): (r: seq<T>)
    ensures |r| <= |s|
    ensures 0 <= hi ==> |r| <= if lo <= hi then hi - lo else 0
    ensures 0 <= lo <= hi <= |s| ==> r == s[lo..hi]
    ensures 0 <= hi <= lo ==> r == []
  {
    var a, b := SliceBound(lo, |s|), SliceBound(hi, |s|);
    if a < b then s[a..b] else []
  }

  /** `s[i]`. A negative index counts from the end; an index outside
      [-|s|, |s|) raises IndexError, modelled as `None`. */
  function Index<T>(s: seq<T>, i: int): (r: Option<T>)
    ensures r.Some? <==> -|s| <= i < |s|
    ensures 0 <= i < |s| ==> r == Some(s[i])
    ensures -|s| <= i < 0 ==> r == Some(s[|s| + i])
  {
    if 0 <= i < |s| then Some(s[i])
    else if -|s| <= i < 0 then Some(s[|s| + i])
    else None
  }

  /** Python's `a // b`, which rounds toward negative infinity. A zero divisor
      raises ZeroDivisionError, which callers must avoid. */
  function FloorDiv(a: int, b: int): (q: int)
    requires b != 0
    ensures b > 0 ==> q * b <= a < q * b + b
    ensures b < 0 ==> q * b + b < a <= q * b
    ensures b > 0 && a >= 0 ==> q >= 0
  {
    if b > 0 then a / b else (-a) / (-b)
  }

  /** Python's `min(a, b)` on integers. */
  function Min(a: int, b: int): (m: int)
    ensures m <= a && m <= b
    ensures m == a || m == b
  {
    if a <= b then a else b
  }
}
