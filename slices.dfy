/** Python slice semantics on sequences, including negative bounds. */
module Slices {

  function Min(a: int, b: int): int { if a <= b then a else b }
  function Max(a: int, b: int): int { if a <= b then b else a }

  /** `s[:n]` in Python: a negative `n` counts from the end. */
  function Prefix<T>(s: seq<T>, n: int): (r: seq<T>)
    ensures 0 <= n ==> |r| == Min(n, |s|)
    ensures n < 0 ==> |r| == Max(0, |s| + n)
    ensures r <= s
  {
    if 0 <= n then s[..Min(n, |s|)] else s[..Max(0, |s| + n)]
  }

  /** `s[-n:]` in Python for `n >= 1`: the last `n` elements, or all of `s` when shorter. */
  function LastN<T>(s: seq<T>, n: nat): (r: seq<T>)
    requires n >= 1
    ensures |r| == Min(n, |s|)
    ensures forall i :: 0 <= i < |r| ==> r[i] == s[|s| - |r| + i]
  {
    s[Max(0, |s| - n)..]
  }

}
