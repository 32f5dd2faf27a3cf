/** Sequence helpers shared by the query limit and the response slice. */
module Seqs {

  function Min(a: int, b: int): (m: int)
    ensures m <= a && m <= b
    ensures m == a || m == b
  {
    if a <= b then a else b
  }

  /** The first `n` elements of `s`, or all of `s` when it is shorter:
      SQL `LIMIT n` and JavaScript `slice(0, n)` alike. */
  function Take<T>(s: seq<T>, n: nat): (t: seq<T>)
    ensures |t| == Min(n, |s|)
    ensures t == s[..|t|]
  {
    if |s| <= n then s else s[..n]
  }
}
