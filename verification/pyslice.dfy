/** Python's slicing of a sequence by a non-negative bound: `s[:n]` and
    `s[n:]` never fail, they clamp `n` to the length of `s`. */
module PySlice {

  /** `s[:n]` */
  function Take<T>(s: seq<T>, n: nat): (r: seq<T>)
    ensures |r| == if n <= |s| then n else |s|
    ensures forall i :: 0 <= i < |r| ==> r[i] == s[i]
  {
    if n <= |s| then s[..n] else s
  }

  /** `s[n:]` */
  function Drop<T>(s: seq<T>, n: nat): (r: seq<T>)
    ensures |r| == if n <= |s| then |s| - n else 0
    ensures forall i :: 0 <= i < |r| ==> r[i] == s[n + i]
  {
    if n <= |s| then s[n..] else []
  }

  /** Splitting a concatenation at the length of its first part gives the
      parts back. */
  lemma SplitConcat<T>(a: seq<T>, b: seq<T>)
    ensures Take(a + b, |a|) == a
    ensures Drop(a + b, |a|) == b
  {
    assert (a + b)[..|a|] == a;
    assert (a + b)[|a|..] == b;
  }
}
