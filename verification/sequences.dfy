/** Sequence relations shared by the analytics and the comment stripper. */
module Sequences {

  /** `a` is obtained from `b` by deleting elements, keeping the order of the rest. */
  ghost predicate Subsequence<T>(a: seq<T>, b: seq<T>)
    decreases |b|
  {
    if |a| == 0 then true
    else if |b| == 0 then false
    else (a[0] == b[0] && Subsequence(a[1..], b[1..])) || Subsequence(a, b[1..])
  }

  /** Deleting elements never makes a sequence longer. */
  lemma {:induction false} SubsequenceLength<T>(a: seq<T>, b: seq<T>)
    requires Subsequence(a, b)
    ensures |a| <= |b|
    decreases |b|
  {
    if |a| > 0 {
      if a[0] == b[0] && Subsequence(a[1..], b[1..]) {
        SubsequenceLength(a[1..], b[1..]);
      } else {
        SubsequenceLength(a, b[1..]);
      }
    }
  }

  /** Every sequence is a subsequence of itself. */
  lemma {:induction false} SubsequenceOfItself<T>(a: seq<T>)
    ensures Subsequence(a, a)
    decreases |a|
  {
    if |a| > 0 {
      SubsequenceOfItself(a[1..]);
    }
  }

  /** A subsequence of a subsequence is a subsequence. */
  lemma {:induction false} SubsequenceTransitive<T>(a: seq<T>, b: seq<T>, c: seq<T>)
    requires Subsequence(a, b) && Subsequence(b, c)
    ensures Subsequence(a, c)
    decreases |c|
  {
    if |a| > 0 {
      assert |b| > 0 && |c| > 0;
      if b[0] == c[0] && Subsequence(b[1..], c[1..]) {
        if a[0] == b[0] && Subsequence(a[1..], b[1..]) {
          SubsequenceTransitive(a[1..], b[1..], c[1..]);
        } else {
          SubsequenceTransitive(a, b[1..], c[1..]);
        }
      } else {
        SubsequenceTransitive(a, b, c[1..]);
      }
    }
  }

  /** What a sequence lacks, its subsequences lack too. */
  lemma {:induction false} SubsequenceAvoids<T>(a: seq<T>, b: seq<T>, x: T)
    requires Subsequence(a, b) && forall i :: 0 <= i < |b| ==> b[i] != x
    ensures forall i :: 0 <= i < |a| ==> a[i] != x
    decreases |b|
  {
    if |a| > 0 {
      assert forall i :: 0 <= i < |b[1..]| ==> b[1..][i] == b[i + 1];
      if a[0] == b[0] && Subsequence(a[1..], b[1..]) {
        SubsequenceAvoids(a[1..], b[1..], x);
        assert forall i :: 1 <= i < |a| ==> a[i] == a[1..][i - 1];
      } else {
        SubsequenceAvoids(a, b[1..], x);
      }
    }
  }

  /** `[f(x) for x in s]`. */
  function MapSeq<T, U>(s: seq<T>, f: T -> U): seq<U> {
    seq(|s|, k requires 0 <= k < |s| => f(s[k]))
  }

  /** Mapping one more element appends its image. */
  lemma MapSnoc<T, U>(s: seq<T>, f: T -> U, i: nat)
    requires i < |s|
    ensures MapSeq(s[..i + 1], f) == MapSeq(s[..i], f) + [f(s[i])]
  {
    var a := MapSeq(s[..i + 1], f);
    var b := MapSeq(s[..i], f) + [f(s[i])];
    forall k | 0 <= k <= i
      ensures a[k] == b[k]
    {
      assert s[..i + 1][k] == s[k];
      if k < i {
        assert s[..i][k] == s[k];
      }
    }
  }

  /** A prefix one longer is the prefix and the next element. */
  lemma PrefixSnoc<T>(s: seq<T>, i: nat)
    requires i < |s|
    ensures s[..i + 1] == s[..i] + [s[i]]
  {
  }
}
