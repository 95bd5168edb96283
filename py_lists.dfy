/** Python's list indexing and slicing, as used by the Python sources:
    negative positions count from the end, and slices clamp their bounds. */
module PyLists {
  import opened Wrappers

  /** Python's normalisation of a slice bound: a negative bound counts from
      the end, and the result is clamped to `[0, n]`. */
  function SliceBound(b: int, n: nat): (k: nat)
    ensures k <= n
    ensures 0 <= b <= n ==> k == b
    ensures -(n as int) <= b < 0 ==> k == n + b
    ensures b > n ==> k == n
    ensures b < -(n as int) ==> k == 0
  {
    var c := if b < 0 then n + b else b;
    if c < 0 then 0 else if c > n then n else c
  }

  /** `xs[start:stop]` with Python's semantics: an empty list when the
      normalised stop is not past the normalised start. */
  function PySlice<X>(xs: seq<X>, start: int, stop: int): (ys: seq<X>)
    ensures |ys| <= |xs|
  {
    var i := SliceBound(start, |xs|);
    var j := SliceBound(stop, |xs|);
    if i <= j then xs[i..j] else []
  }

  /** The slices the Python sources take: in range, a slice with
      non-negative bounds is the plain subsequence, one with negative bounds
      counts both from the end (`xs[-w:]`, `xs[-2w:-w]`), `xs[0:k]` takes at
      most `k` items, and a stop not past the start gives nothing. */
  lemma PySliceCases<X>(xs: seq<X>, start: int, stop: int)
    ensures 0 <= start <= stop <= |xs| ==> PySlice(xs, start, stop) == xs[start..stop]
    ensures -|xs| <= start < 0 && stop == |xs| ==> PySlice(xs, start, stop) == xs[|xs| + start..]
    ensures -|xs| <= start <= stop < 0 ==> PySlice(xs, start, stop) == xs[|xs| + start..|xs| + stop]
    ensures start == 0 && 0 <= stop ==> PySlice(xs, start, stop) == xs[..if stop < |xs| then stop else |xs|]
    ensures stop <= start && (0 <= stop || start < 0) ==> PySlice(xs, start, stop) == []
  {
  }

  /** `xs[i]`: a negative index counts from the end; out of range is an
      `IndexError`, here `None`. */
  function PyIndex<X>(xs: seq<X>, i: int): (r: Option<X>)
    ensures r.Some? <==> -|xs| <= i < |xs|
    ensures 0 <= i < |xs| ==> r == Some(xs[i])
    ensures -|xs| <= i < 0 ==> r == Some(xs[|xs| + i])
  {
    if 0 <= i < |xs| then Some(xs[i])
    else if -|xs| <= i < 0 then Some(xs[|xs| + i])
    else None
  }
}
