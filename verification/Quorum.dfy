/** Quorum arithmetic over n validators. */
module Quorum {

  function TwoThirds(n: nat): nat {
    2 * n / 3
  }

  /** The number of votes every threshold test of the core asks for. */
  function Threshold(n: nat): nat {
    TwoThirds(n) + 1
  }

  /** The number of arbitrary senders that n validators tolerate. */
  function MaxFaults(n: nat): nat {
    if n == 0 then 0 else (n - 1) / 3
  }

  /** The threshold is what remains when all tolerated faults stay silent, and no less would do:
      two vote sets one short of it can meet in faulty validators only. */
  lemma ThresholdIsExact(n: nat)
    requires n > 0
    ensures Threshold(n) == n - MaxFaults(n)
    ensures 2 * Threshold(n) - n >= MaxFaults(n) + 1
    ensures n % 3 == 1 ==> 2 * (Threshold(n) - 1) - n < MaxFaults(n) + 1
  {
  }

  lemma SubsetSize<T>(a: set<T>, b: set<T>)
    requires a <= b
    ensures |a| <= |b|
  {
    assert b == a + (b - a);
  }

  /** Any two quorums share more validators than can be faulty. */
  lemma QuorumsIntersect<T>(all: set<T>, a: set<T>, b: set<T>)
    requires all != {} && a <= all && b <= all
    requires |a| >= Threshold(|all|) && |b| >= Threshold(|all|)
    ensures |a * b| >= MaxFaults(|all|) + 1
  {
    assert |a + b| + |a * b| == |a| + |b|;
    SubsetSize(a + b, all);
    assert |all| > 0;
  }

  /** Any two quorums share a correct validator. */
  lemma CorrectWitness<T>(all: set<T>, faulty: set<T>, a: set<T>, b: set<T>) returns (w: T)
    requires all != {} && a <= all && b <= all
    requires |a| >= Threshold(|all|) && |b| >= Threshold(|all|)
    requires |faulty| <= MaxFaults(|all|)
    ensures w in a && w in b && w !in faulty
  {
    QuorumsIntersect(all, a, b);
    if a * b <= faulty {
      SubsetSize(a * b, faulty);
    }
    w :| w in a * b && w !in faulty;
  }

  /** A duplicate-free list has as many elements as its set of elements. */
  lemma {:induction false} DistinctSize<T>(s: seq<T>)
    requires forall i, j :: 0 <= i < j < |s| ==> s[i] != s[j]
    ensures |set x | x in s| == |s|
  {
    if s != [] {
      DistinctSize(s[1..]);
      assert (set x | x in s) == (set x | x in s[1..]) + {s[0]};
    } else {
      assert (set x | x in s) == {};
    }
  }
}
