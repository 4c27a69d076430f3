/** The validator set: a sorted address list and the proposer of the current round. */
module ValidatorSet {
  import opened Types
  import opened Sorting

  /** A validator list a core can run with: starting a round asserts that it is not empty. */
  type Validators = v: seq<Address> | 0 < |v| <= U64 witness [0]

  function ByAddress(a: Address): nat {
    a
  }

  ghost predicate Sorted(s: seq<Address>) {
    Ordered(ByAddress, s)
  }

  predicate Distinct(s: seq<Address>) {
    forall i, j :: 0 <= i < j < |s| ==> s[i] != s[j]
  }

  function Sort(s: seq<Address>): seq<Address> {
    SortBy(ByAddress, s)
  }

  // ----- proposer selection

  /** The first eight hash bytes, zero-padded to sixteen, read as a number modulo n. */
  function RandomSeed(blh: Hash, n: nat): nat
    requires n > 0
  {
    BigEndian(blh[..8] + seq(8, _ => 0)) % n
  }

  /** The proposer of a round, or None where the checked 64-bit sum of seed and round panics. */
  function SelectProposer(blh: Hash, round: nat, vals: seq<Address>): Option<Address>
    requires vals != []
  {
    var sum := RandomSeed(blh, |vals|) + round;
    if sum < U64 then Some(vals[sum % |vals|]) else None
  }

  /** Round 0 always has a proposer. */
  lemma FirstProposer(blh: Hash, vals: Validators)
    ensures SelectProposer(blh, 0, vals).Some? && SelectProposer(blh, 0, vals).value in vals
  {
  }

  // ----- what the seed is

  function Pow256(n: nat): nat {
    if n == 0 then 1 else 256 * Pow256(n - 1)
  }

  lemma TimesAgain(p: nat, v: nat)
    ensures 256 * (p * v) == (256 * p) * v
  {
  }

  lemma PowEight()
    ensures Pow256(8) == U64
  {
    assert Pow256(4) == 0x1_0000_0000;
  }

  lemma {:induction false} ShiftByZeros(bytes: seq<Byte>, n: nat)
    ensures BigEndian(bytes + seq<Byte>(n, _ => 0)) == Pow256(n) * BigEndian(bytes)
  {
    var all := bytes + seq<Byte>(n, _ => 0);
    if n > 0 {
      ShiftByZeros(bytes, n - 1);
      assert all[..|all| - 1] == bytes + seq<Byte>(n - 1, _ => 0);
      TimesAgain(Pow256(n - 1), BigEndian(bytes));
      assert BigEndian(all) == 256 * BigEndian(all[..|all| - 1]);
      hide BigEndian;
    } else {
      assert all == bytes;
    }
  }

  /** The first k bytes as the leading digits of a number of sixteen. */
  function SeedSum(blh: Hash, k: nat): nat
    requires k <= 8
  {
    if k == 0 then 0 else SeedSum(blh, k - 1) + blh[k - 1] * Pow256(16 - k)
  }

  lemma {:induction false} SumIsShifted(blh: Hash, k: nat)
    requires k <= 8
    ensures SeedSum(blh, k) == Pow256(16 - k) * BigEndian(blh[..k])
  {
    if k > 0 {
      SumIsShifted(blh, k - 1);
      assert blh[..k][..k - 1] == blh[..k - 1];
      NextDigit(Pow256(16 - k), BigEndian(blh[..k - 1]), blh[k - 1]);
      assert Pow256(17 - k) == 256 * Pow256(16 - k);
      assert BigEndian(blh[..k]) == 256 * BigEndian(blh[..k - 1]) + blh[k - 1];
      hide Pow256;
      hide BigEndian;
    }
  }

  lemma NextDigit(p: nat, v: nat, d: nat)
    ensures (256 * p) * v + d * p == p * (256 * v + d)
  {
  }

  /** The seed is the remainder by n of the sum of hash byte i, for i below eight, times 256 to the power 15 - i. */
  lemma SeedIsRemainder(blh: Hash, n: nat) returns (q: nat)
    requires n > 0
    ensures RandomSeed(blh, n) < n && SeedSum(blh, 8) == q * n + RandomSeed(blh, n)
  {
    hide Pow256;
    hide SeedSum;
    hide BigEndian;
    ShiftByZeros(blh[..8], 8);
    SumIsShifted(blh, 8);
    q := SeedSum(blh, 8) / n;
    QuotientAndRest(SeedSum(blh, 8), n);
  }

  lemma QuotientAndRest(x: nat, n: nat)
    requires n > 0
    ensures x == x / n * n + x % n && x % n < n
  {
  }

  /** Sets of one, two, four and every other size that divides 2^64 have seed 0 for every hash, so that round 0
      always falls to the first validator. */
  lemma SeedIsZero(blh: Hash, n: nat)
    requires n > 0 && U64 % n == 0
    ensures RandomSeed(blh, n) == 0
  {
    hide BigEndian;
    hide Pow256;
    ShiftByZeros(blh[..8], 8);
    PowEight();
    MultipleOf(Pow256(8), BigEndian(blh[..8]), n);
  }

  lemma MultipleOf(total: nat, v: nat, n: nat)
    requires n > 0 && total % n == 0
    ensures (total * v) % n == 0
  {
    var c := total / n;
    assert total == n * c;
    assert total * v == n * (c * v) by { Regroup(n, c, v); }
    DivisionIsUnique(total * v, n, c * v, 0);
  }

  lemma Regroup(n: nat, c: nat, v: nat)
    ensures (n * c) * v == n * (c * v)
  {
  }

  /** Round 0 falls to the validator at the seed's index, and each further round to the next one in the list,
      cyclically. */
  lemma ProposerCycles(blh: Hash, round: nat, vals: Validators) returns (k: nat)
    requires RandomSeed(blh, |vals|) + round + 1 < U64
    ensures RandomSeed(blh, |vals|) < |vals| && SelectProposer(blh, 0, vals) == Some(vals[RandomSeed(blh, |vals|)])
    ensures k < |vals| && SelectProposer(blh, round, vals) == Some(vals[k])
    ensures SelectProposer(blh, round + 1, vals) == Some(vals[if k + 1 < |vals| then k + 1 else 0])
    ensures round == 0 ==> k == RandomSeed(blh, |vals|)
  {
    var seed, n := RandomSeed(blh, |vals|), |vals|;
    SeedIsBelow(blh, n);
    hide RandomSeed;
    BelowIsItself(seed, n);
    k := (seed + round) % n;
    NextIndex(seed + round, n);
  }

  lemma SeedIsBelow(blh: Hash, n: nat)
    requires n > 0
    ensures RandomSeed(blh, n) < n
  {
  }

  lemma BelowIsItself(x: nat, n: nat)
    requires x < n
    ensures x % n == x
  {
  }

  lemma NextIndex(x: nat, n: nat)
    requires n > 0
    ensures x % n < n && (x + 1) % n == if x % n + 1 < n then x % n + 1 else 0
  {
    var q, k := x / n, x % n;
    assert x == n * q + k;
    if k + 1 < n {
      DivisionIsUnique(x + 1, n, q, k + 1);
    } else {
      assert n * (q + 1) == n * q + n;
      DivisionIsUnique(x + 1, n, q + 1, 0);
    }
  }

  method ComputeRandomSeed(blh: Hash, n: nat) returns (seed: nat, ghost q: nat)
    requires n > 0
    ensures seed == RandomSeed(blh, n)
    ensures seed < n && SeedSum(blh, 8) == q * n + seed
  {
    q := SeedIsRemainder(blh, n);
    var buf := new Byte[16](_ => 0);
    for idx := 0 to 8
      invariant buf[..] == blh[..idx] + seq(16 - idx, _ => 0)
    {
      buf[idx] := blh[idx];
    }
    assert buf[..] == blh[..8] + seq(8, _ => 0);
    seed := BigEndian(buf[..]) % n;
  }

  /** All nodes agree on the proposer however their configuration lists the validators. */
  lemma ProposerIgnoresListOrder(a: seq<Address>, b: seq<Address>, blh: Hash, round: nat)
    requires a != [] && multiset(a) == multiset(b)
    ensures Sort(a) == Sort(b) && Sort(a) != []
    ensures SelectProposer(blh, round, Sort(a)) == SelectProposer(blh, round, Sort(b))
  {
    SortIsOrdered(ByAddress, a);
    SortIsOrdered(ByAddress, b);
    OrderedIsUnique(ByAddress, Sort(a), Sort(b));
  }

  lemma MultipleBounds(n: nat, d: int)
    ensures d >= 1 ==> n * d >= n
    ensures d <= -1 ==> n * d <= -(n as int)
  {
  }

  lemma DivisionIsUnique(z: int, n: nat, q: int, r: nat)
    requires r < n && z == n * q + r
    ensures z / n == q && z % n == r
  {
    var d := z / n - q;
    assert n * d == r - z % n;
    MultipleBounds(n, d);
  }

  /** Among n consecutive numbers exactly one has remainder k. */
  lemma RemainderInWindow(x: nat, n: nat, k: nat) returns (d: nat)
    requires k < n
    ensures d < n && (x + d) % n == k
  {
    d := (k - x) % n;
    DivisionIsUnique(x + d, n, -((k - x) / n), k);
  }

  lemma RemainderOnce(x: nat, n: nat, d: nat, e: nat)
    requires d < n && e < n && (x + d) % n == (x + e) % n
    ensures d == e
  {
    var q := (x + d) / n - (x + e) / n;
    assert n * q == d - e;
    MultipleBounds(n, q);
  }

  /** Fairness: over n consecutive rounds whose sums fit 64 bits, every validator
      of a duplicate-free list proposes in exactly one round. */
  lemma EveryValidatorProposesOnce(blh: Hash, first: nat, vals: Validators, v: Address) returns (turn: nat)
    requires Distinct(vals) && v in vals
    requires RandomSeed(blh, |vals|) + first + |vals| <= U64
    ensures first <= turn < first + |vals| && SelectProposer(blh, turn, vals) == Some(v)
    ensures forall r :: first <= r < first + |vals| && SelectProposer(blh, r, vals) == Some(v) ==> r == turn
  {
    var n := |vals|;
    var base := RandomSeed(blh, n) + first;
    var k :| 0 <= k < n && vals[k] == v;
    var d := RemainderInWindow(base, n, k);
    turn := first + d;
    forall r | first <= r < first + n && SelectProposer(blh, r, vals) == Some(v) ensures r == turn {
      assert vals[(RandomSeed(blh, n) + r) % n] == vals[k];
      hide SelectProposer;
      RemainderOnce(base, n, d, r - first);
    }
  }

  // ----- the mutable set

  class ImplValidatorSet {
    var validators: seq<Address>
    var proposer: Option<Address>

    ghost predicate Valid() reads this {
      Sorted(validators)
    }

    constructor (addresses: seq<Address>)
      ensures Valid() && proposer == None
      ensures validators == Sort(addresses)
    {
      var list: seq<Address> := [];
      for i := 0 to |addresses|
        invariant list == addresses[..i]
      {
        list := list + [addresses[i]];
      }
      assert list == addresses;
      SortIsOrdered(ByAddress, list);
      validators := Sort(list);
      proposer := None;
    }

    /** False where the code panics: on an empty set, and on a sum beyond 64 bits. */
    method CalcProposer(blh: Hash, round: nat) returns (ok: bool)
      modifies this`proposer
      ensures ok == (validators != [] && SelectProposer(blh, round, validators).Some?)
      ensures proposer == if ok then SelectProposer(blh, round, validators) else old(proposer)
    {
      if validators == [] {
        return false;
      }
      var seed, _ := ComputeRandomSeed(blh, |validators|);
      if seed + round >= U64 {
        return false;
      }
      proposer := Some(validators[(seed + round) % |validators|]);
      return true;
    }

    /** The first entry with the address, if any. */
    method GetByAddress(address: Address) returns (v: Option<Address>)
      ensures v == if address in validators then Some(address) else None
    {
      var idx := 0;
      while idx < |validators| && validators[idx] != address
        invariant idx <= |validators| && address !in validators[..idx]
      {
        idx := idx + 1;
      }
      if idx == |validators| {
        assert validators == validators[..idx];
        return None;
      }
      return Some(validators[idx]);
    }

    method AddValidator(address: Address) returns (added: bool)
      requires Valid()
      modifies this`validators
      ensures Valid() && added == (address !in old(validators))
      ensures multiset(validators) == multiset(old(validators)) + if added then multiset{address} else multiset{}
      ensures old(Distinct(validators)) ==> Distinct(validators)
    {
      if address in validators {
        return false;
      }
      ghost var before := validators;
      SortIsOrdered(ByAddress, validators + [address]);
      validators := Sort(validators + [address]);
      if Distinct(before) {
        DistinctByCount(before + [address], validators);
      }
      return true;
    }

    method RemoveValidator(address: Address) returns (removed: bool)
      requires Valid()
      modifies this`validators
      ensures Valid() && removed == (address in old(validators))
      ensures multiset(validators) == multiset(old(validators)) - multiset{address}
    {
      var idx := 0;
      while idx < |validators| && validators[idx] != address
        invariant idx <= |validators| && address !in validators[..idx]
      {
        idx := idx + 1;
      }
      if idx == |validators| {
        assert validators == validators[..idx];
        return false;
      }
      Removal(validators, idx);
      validators := validators[..idx] + validators[idx + 1..];
      return true;
    }
  }

  lemma Removal(s: seq<Address>, k: nat)
    requires Sorted(s) && k < |s|
    ensures var t := s[..k] + s[k + 1..]; Sorted(t) && multiset(t) == multiset(s) - multiset{s[k]}
  {
    var t := s[..k] + s[k + 1..];
    forall i {:trigger t[i]} | 0 < i < |t| ensures ByAddress(t[i - 1]) <= ByAddress(t[i]) {
      OrderedAt(ByAddress, s, if i - 1 < k then i - 1 else i, if i < k then i else i + 1);
    }
    assert s == s[..k] + [s[k]] + s[k + 1..];
  }

  lemma {:induction false} DistinctCounts(s: seq<Address>)
    ensures Distinct(s) <==> forall x :: multiset(s)[x] <= 1
  {
    if s != [] {
      var t := s[1..];
      DistinctCounts(t);
      assert s == [s[0]] + t;
      assert multiset(s) == multiset{s[0]} + multiset(t);
      HeadAndTailDistinct(s);
      hide Distinct;
      if s[0] in t {
        assert multiset(s)[s[0]] >= 2;
      } else {
        assert forall x :: multiset(s)[x] == if x == s[0] then 1 else multiset(t)[x];
        assert multiset(t)[s[0]] == 0;
      }
    }
  }

  lemma HeadAndTailDistinct(s: seq<Address>)
    requires s != []
    ensures Distinct(s) <==> s[0] !in s[1..] && Distinct(s[1..])
  {
    var t := s[1..];
    assert forall i :: 0 <= i < |t| ==> t[i] == s[i + 1];
    if s[0] !in t && Distinct(t) {
      forall i, j | 0 <= i < j < |s| ensures s[i] != s[j] {
        assert s[j] == t[j - 1];
        assert i > 0 ==> s[i] == t[i - 1];
      }
    }
  }

  lemma DistinctByCount(a: seq<Address>, b: seq<Address>)
    requires Distinct(a) && multiset(a) == multiset(b)
    ensures Distinct(b)
  {
    DistinctCounts(a);
    DistinctCounts(b);
  }
}
