/** Facts about slices of concatenated sequences, stated once so that the
    proofs about rendered lines can name the pieces instead of their contents. */
module Seqs {

  /** Regrouping a concatenation. Called with the pieces as variables, it
      keeps their contents out of the proof that needs the regrouping. */
  lemma Assoc<T>(a: seq<T>, b: seq<T>, c: seq<T>)
    ensures a + (b + c) == a + b + c
  {
  }

  lemma SliceLeft<T>(a: seq<T>, b: seq<T>, lo: int, hi: int)
    requires 0 <= lo <= hi <= |a|
    ensures (a + b)[lo..hi] == a[lo..hi]
  {
  }

  lemma SliceRight<T>(a: seq<T>, b: seq<T>, lo: int, hi: int)
    requires 0 <= lo <= hi <= |b|
    ensures (a + b)[|a| + lo..|a| + hi] == b[lo..hi]
  {
  }

  lemma MiddleSlice<T>(a: seq<T>, b: seq<T>, c: seq<T>, lo: int, hi: int)
    requires 0 <= lo <= hi <= |b|
    ensures (a + b + c)[|a| + lo..|a| + hi] == b[lo..hi]
  {
    SliceLeft(a + b, c, |a| + lo, |a| + hi);
    SliceRight(a, b, lo, hi);
  }

  lemma SliceOfSlice<T>(s: seq<T>, lo: int, n: int, m: int)
    requires 0 <= lo && 0 <= n <= m && lo + m <= |s|
    ensures s[lo..lo + n] == s[lo..lo + m][..n]
  {
  }

  lemma PrefixOfConcat<T>(a: seq<T>, b: seq<T>)
    ensures (a + b)[..|a|] == a
  {
  }

  lemma ThreeSlices<T>(a: seq<T>, b: seq<T>, c: seq<T>)
    ensures (a + b + c)[..|a|] == a
    ensures (a + b + c)[|a|..|a| + |b|] == b
    ensures (a + b + c)[|a| + |b|..] == c
  {
    assert a + b + c == a + (b + c);
  }

  lemma SliceOfSuffix<T>(s: seq<T>, n: int, lo: int, hi: int)
    requires 0 <= n <= |s| && 0 <= lo <= hi <= |s| - n
    ensures s[n + lo..n + hi] == s[n..][lo..hi]
  {
  }

  lemma DropConcat<T>(a: seq<T>, b: seq<T>, j: int)
    requires 0 <= j <= |b|
    ensures (a + b)[|a| + j..] == b[j..]
  {
  }

  /** A slice of a suffix is a slice of the whole. */
  lemma SliceChain<T>(s: seq<T>, n: int, rest: seq<T>, lo: int, hi: int, x: seq<T>)
    requires 0 <= n <= |s| && s[n..] == rest
    requires 0 <= lo <= hi <= |rest| && rest[lo..hi] == x
    ensures s[n + lo..n + hi] == x
  {
    assert s[n + lo..n + hi] == s[n..][lo..hi];
  }

  /** The front part of a slice that is known to be `a + b`. */
  lemma SlicePrefix<T>(s: seq<T>, lo: int, a: seq<T>, b: seq<T>)
    requires 0 <= lo && lo + |a| + |b| <= |s|
    requires s[lo..lo + |a| + |b|] == a + b
    ensures s[lo..lo + |a|] == a
  {
    assert s[lo..lo + |a|] == s[lo..lo + |a| + |b|][..|a|];
  }

  lemma SliceFromZero<T>(s: seq<T>, n: int)
    requires 0 <= n <= |s|
    ensures s[0..n] == s[..n]
  {
  }

  /** The three pieces of a sequence that ends in `a + b + c`. */
  lemma SuffixThree<T>(p: seq<T>, a: seq<T>, b: seq<T>, c: seq<T>)
    ensures (p + (a + b + c))[|p|..|p| + |a|] == a
    ensures (p + (a + b + c))[|p| + |a|..|p| + |a| + |b|] == b
    ensures (p + (a + b + c))[|p| + |a| + |b|..] == c
  {
    assert p + (a + b + c) == p + a + b + c;
  }

  /** A piece found at `j` in `rest` is found at `|head| + j` in `head + rest`. */
  lemma SliceShift<T>(head: seq<T>, rest: seq<T>, j: int, x: seq<T>)
    requires 0 <= j && j + |x| <= |rest| && rest[j..j + |x|] == x
    ensures (head + rest)[|head| + j..|head| + j + |x|] == x
  {
    SliceRight(head, rest, j, j + |x|);
  }
}
