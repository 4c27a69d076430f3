/** The table of round-change votes. */
module RoundChangeSet {
  import opened Types
  import opened ValidatorSet
  import opened Replica

  /** An iteration order of a hash map's keys. */
  ghost predicate Enumerates(order: seq<Round>, keys: set<Round>) {
    && (forall r :: r in order <==> r in keys)
    && (forall i, j :: 0 <= i < j < |order| ==> order[i] != order[j])
  }

  /** The scan's total is the size of the chosen round, and every round scanned beyond it has fewer votes. */
  lemma {:induction false} ScanInvariant(table: map<Round, Votes>, order: seq<Round>)
    ensures var (max, total) := ScanMax(table, order);
            && ((max == 0 && total == 0) || (max in order && total == VoteCount(table, max)))
            && (forall r :: r in order && r > max ==> VoteCount(table, r) < total)
  {
    if order != [] {
      var rest, r := order[..|order| - 1], order[|order| - 1];
      ScanInvariant(table, rest);
      assert order == rest + [r];
      assert forall q :: q in order <==> q in rest || q == r;
      hide VoteCount;
    }
  }

  /** Whatever the iteration order, the result is zero or a stored round, every higher stored round has
      strictly fewer votes, and no most-voted round lies above it. */
  lemma MaxRoundIsRobust(table: map<Round, Votes>, order: seq<Round>)
    requires Enumerates(order, table.Keys)
    ensures var max := ScanMax(table, order).0;
            && (max == 0 || max in table)
            && (forall r :: r in table && r > max ==> max in table && VoteCount(table, r) < VoteCount(table, max))
            && (forall r :: r in table && (forall q :: q in table ==> VoteCount(table, q) <= VoteCount(table, r)) ==> r <= max)
  {
    ScanInvariant(table, order);
    var (max, total) := ScanMax(table, order);
    forall r | r in table && r > max ensures max in table && VoteCount(table, r) < VoteCount(table, max) {
      assert r in order;
    }
  }

  /** Read from the highest round down, the scan stops at the first: the highest stored round wins, whatever its
      votes. */
  lemma {:induction false} ScanDescending(table: map<Round, Votes>, order: seq<Round>)
    requires order != [] && order[0] > 0 && forall i, j :: 0 <= i < j < |order| ==> order[i] > order[j]
    ensures ScanMax(table, order).0 == order[0]
  {
    if |order| > 1 {
      ScanDescending(table, order[..|order| - 1]);
    } else {
      assert order[..0] == [];
    }
  }

  /** Read from the lowest round up, the highest of the most-voted rounds wins. */
  lemma {:induction false} ScanAscending(table: map<Round, Votes>, order: seq<Round>)
    requires forall i, j :: 0 <= i < j < |order| ==> order[i] < order[j]
    ensures var (max, total) := ScanMax(table, order);
            && (max == 0 || max in order)
            && forall r :: r in order && r > 0 ==> VoteCount(table, r) <= total && (VoteCount(table, r) == total ==> r <= max)
  {
    hide VoteCount;
    if order != [] {
      var rest, r := order[..|order| - 1], order[|order| - 1];
      ScanAscending(table, rest);
      var (max, total) := ScanMax(table, rest);
      var (max', total') := ScanMax(table, order);
      assert (max', total') == if VoteCount(table, r) >= total && r > max then (r, VoteCount(table, r)) else (max, total);
      hide ScanMax;
      LastIsHighest(order);
      forall q | q in order && q > 0 ensures VoteCount(table, q) <= total' && (VoteCount(table, q) == total' ==> q <= max') {
        assert q in rest || q == r;
      }
    }
  }

  lemma LastIsHighest(order: seq<Round>)
    requires order != [] && forall i, j :: 0 <= i < j < |order| ==> order[i] < order[j]
    ensures var (rest, r) := (order[..|order| - 1], order[|order| - 1]);
            (forall q :: q in rest ==> q < r) && (forall q :: q in order <==> q in rest || q == r)
  {
    assert order == order[..|order| - 1] + [order[|order| - 1]];
  }

  lemma ScanNothing(table: map<Round, Votes>)
    ensures ScanMax(table, []) == (0, 0) && Enumerates([], table.Keys - table.Keys)
  {
  }

  lemma ScanNext(table: map<Round, Votes>, order: seq<Round>, r: Round)
    requires r in table
    ensures var (max, total) := ScanMax(table, order);
            ScanMax(table, order + [r]) == if |table[r]| >= total && r > max then (r, |table[r]|) else (max, total)
  {
    assert (order + [r])[..|order|] == order;
  }

  lemma OneMore(order: seq<Round>, keys: set<Round>, todo: set<Round>, r: Round)
    requires Enumerates(order, keys - todo) && r in todo && todo <= keys
    ensures Enumerates(order + [r], keys - (todo - {r}))
  {
  }

  class RoundChangeSet {
    const validators: Validators
    var roundChanges: map<Round, Votes>

    constructor (validators: Validators)
      ensures this.validators == validators && roundChanges == map[]
    {
      this.validators := validators;
      roundChanges := map[];
    }

    /** Enter a vote under its sender; the answer is the number of votes its round now has,
        or None when the sender is not a validator. */
    method Add(m: Message) returns (n: Option<nat>)
      requires m.RoundChange?
      modifies this
      ensures roundChanges == TallyVote(old(roundChanges), m, validators)
      ensures m.subject.view.round in roundChanges
      ensures forall r :: r != m.subject.view.round ==>
                (r in roundChanges <==> r in old(roundChanges)) && (r in roundChanges ==> roundChanges[r] == old(roundChanges)[r])
      ensures var votes: Votes := if m.subject.view.round in old(roundChanges) then old(roundChanges)[m.subject.view.round] else map[];
              roundChanges[m.subject.view.round] == if m.sender in validators then votes[m.sender := m] else votes
      ensures n == if m.sender in validators then Some(VoteCount(roundChanges, m.subject.view.round)) else None
    {
      var round := m.subject.view.round;
      if round !in roundChanges {
        roundChanges := roundChanges[round := map[]];
      }
      if m.sender !in validators {
        return None;
      }
      var votes: Votes := roundChanges[round][m.sender := m];
      roundChanges := roundChanges[round := votes];
      return Some(|roundChanges[round]|);
    }

    /** The scan over the table in the order the map yields its entries. */
    method MaxRound() returns (max: Round, ghost order: seq<Round>)
      ensures Enumerates(order, roundChanges.Keys)
      ensures max == ScanMax(roundChanges, order).0
      ensures max == 0 || max in roundChanges
      ensures forall r :: r in roundChanges && r > max ==>
                max in roundChanges && VoteCount(roundChanges, r) < VoteCount(roundChanges, max)
    {
      hide Enumerates;
      hide ScanMax;
      max, order := 0, [];
      var total := 0;
      ScanNothing(roundChanges);
      var todo := roundChanges.Keys;
      while todo != {}
        invariant todo <= roundChanges.Keys
        invariant Enumerates(order, roundChanges.Keys - todo)
        invariant (max, total) == ScanMax(roundChanges, order)
      {
        var r :| r in todo;
        ScanNext(roundChanges, order, r);
        OneMore(order, roundChanges.Keys, todo, r);
        todo := todo - {r};
        if |roundChanges[r]| >= total && r > max {
          max, total := r, |roundChanges[r]|;
        }
        order := order + [r];
      }
      assert roundChanges.Keys - todo == roundChanges.Keys;
      MaxRoundIsRobust(roundChanges, order);
    }
  }
}
