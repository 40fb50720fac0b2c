/**
 * Order-preserving selection from a sequence. Used to state that the tray
 * compaction of the letter puzzle keeps the surviving tiles in order, and
 * that the screens of the application can only be passed in a fixed order.
 */
module Subsequences {

  /** `a` is obtained from `b` by deleting elements, keeping the order of the rest. */
  predicate IsSubseq<T(==)>(a: seq<T>, b: seq<T>)
    decreases |b|
  {
    if a == [] then true
    else if b == [] then false
    else if a[0] == b[0] then IsSubseq(a[1..], b[1..])
    else IsSubseq(a, b[1..])
  }

  /** A subsequence of the tail of `b` is a subsequence of `b`. */
  lemma {:induction false} SubseqOfTail<T>(a: seq<T>, b: seq<T>)
    requires b != [] && IsSubseq(a, b[1..])
    ensures IsSubseq(a, b)
    decreases |b|, 0
  {
    if a != [] && a[0] == b[0] {
      DropFirst(a, b[1..]);
    }
  }

  /** Dropping the first element of a subsequence leaves a subsequence. */
  lemma {:induction false} DropFirst<T>(a: seq<T>, b: seq<T>)
    requires a != [] && IsSubseq(a, b)
    ensures IsSubseq(a[1..], b)
    decreases |b|, 1
  {
    if a[0] == b[0] {
      SubseqOfTail(a[1..], b);
    } else {
      DropFirst(a, b[1..]);
      SubseqOfTail(a[1..], b);
    }
  }

  /** Every suffix of a subsequence is a subsequence. */
  lemma {:induction false} SuffixOfSubseq<T>(a: seq<T>, b: seq<T>, k: nat)
    requires k <= |a| && IsSubseq(a, b)
    ensures IsSubseq(a[k..], b)
    decreases k
  {
    if k > 0 {
      var tail := a[1..];
      DropFirst(a, b);
      SuffixOfSubseq(tail, b, k - 1);
      assert tail[k - 1..] == a[k..];
    }
  }

  /** A subsequence has no more elements than the sequence it is taken from. */
  lemma {:induction false} SubseqLength<T>(a: seq<T>, b: seq<T>)
    requires IsSubseq(a, b)
    ensures |a| <= |b|
    decreases |b|
  {
    if a != [] {
      if a[0] == b[0] {
        SubseqLength(a[1..], b[1..]);
      } else {
        SubseqLength(a, b[1..]);
      }
    }
  }
}
