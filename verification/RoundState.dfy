/** The state of one view: proposal, votes, pending request and lock. */
module RoundState {
  import opened Types
  import opened Quorum
  import opened ValidatorSet
  import opened Replica

  /** Each stored message sits under its own address, which is a validator's. */
  ghost predicate UnderSender(votes: Votes, vals: Validators) {
    forall a :: a in votes ==> votes[a].sender == a && a in vals
  }

  /** Adding a validator's vote keeps the invariant that the counting loop relies on. */
  function AddVote(votes: Votes, m: Message, vals: Validators): (r: Votes)
    requires m.sender in vals
    ensures UnderSender(votes, vals) ==> UnderSender(r, vals)
  {
    votes[m.sender := m]
  }

  class RoundState {
    const height: nat
    const round: Round
    const validators: Validators
    var preprepare: Option<Block>
    var prepares: Votes
    var commits: Votes
    var pending: Option<Block>
    var lock: Option<Hash>

    ghost predicate Valid() reads this {
      UnderSender(prepares, validators) && UnderSender(commits, validators)
    }

    constructor (view: View, validators: Validators, lock: Option<Hash>, preprepare: Option<Block>, pending: Option<Block>)
      ensures Valid() && this.height == view.height && this.round == view.round && this.validators == validators
      ensures this.lock == lock && this.preprepare == preprepare && this.pending == pending
      ensures prepares == map[] && commits == map[]
    {
      this.height := view.height;
      this.round := view.round;
      this.validators := validators;
      this.lock := lock;
      this.preprepare := preprepare;
      this.pending := pending;
      this.prepares := map[];
      this.commits := map[];
    }

    /** Lock the stored proposal, if there is one. */
    method LockHash()
      modifies this`lock
      ensures lock == if preprepare.None? then old(lock) else Some(preprepare.value.hash)
    {
      if preprepare.None? {
        return;
      }
      lock := Some(preprepare.value.hash);
    }

    method AddPrepare(m: Message) returns (ok: bool)
      requires Valid()
      modifies this`prepares
      ensures Valid() && ok == (m.sender in validators)
      ensures prepares == if ok then old(prepares)[m.sender := m] else old(prepares)
    {
      if m.sender !in validators {
        return false;
      }
      prepares := AddVote(prepares, m, validators);
      return true;
    }

    method AddCommit(m: Message) returns (ok: bool)
      requires Valid()
      modifies this`commits
      ensures Valid() && ok == (m.sender in validators)
      ensures commits == if ok then old(commits)[m.sender := m] else old(commits)
    {
      if m.sender !in validators {
        return false;
      }
      commits := AddVote(commits, m, validators);
      return true;
    }

    /** Prepares and commits together, each validator counted once. */
    method PrepareOrCommitSize() returns (size: nat)
      requires Valid()
      ensures size == |prepares.Keys + commits.Keys|
      ensures size <= |validators|
    {
      hide UnderSender;
      size := |prepares| + |commits|;
      var todo := prepares.Keys;
      NothingSeen(prepares.Keys, commits.Keys);
      while todo != {}
        invariant todo <= prepares.Keys
        invariant size == |prepares| + |commits| - |Seen(prepares.Keys, commits.Keys, todo)|
      {
        var a :| a in todo;
        UnderOwnName(prepares, validators, a);
        CountNext(prepares.Keys, commits.Keys, todo, a);
        todo := todo - {a};
        if prepares[a].sender in commits {
          size := size - 1;
        }
      }
      UnionSize(prepares.Keys, commits.Keys);
      KeysFit(prepares, commits, validators);
    }
  }

  /** What the loop has found in both sets. */
  ghost function Seen(a: set<Address>, b: set<Address>, todo: set<Address>): set<Address> {
    (a - todo) * b
  }

  lemma NothingSeen(a: set<Address>, b: set<Address>)
    ensures Seen(a, b, a) == {}
  {
  }

  lemma UnderOwnName(votes: Votes, vals: Validators, a: Address)
    requires UnderSender(votes, vals) && a in votes
    ensures votes[a].sender == a
  {
  }

  /** The loop finds one common element at a time, and never more than there are. */
  lemma CountNext(a: set<Address>, b: set<Address>, todo: set<Address>, x: Address)
    requires todo <= a && x in todo
    ensures |Seen(a, b, todo - {x})| == |Seen(a, b, todo)| + if x in b then 1 else 0
    ensures |Seen(a, b, todo - {x})| <= |b|
  {
    var now := Seen(a, b, todo - {x});
    assert now == if x in b then Seen(a, b, todo) + {x} else Seen(a, b, todo);
    SubsetSize(now, b);
  }

  lemma KeysFit(prepares: Votes, commits: Votes, vals: Validators)
    requires UnderSender(prepares, vals) && UnderSender(commits, vals)
    ensures |prepares.Keys + commits.Keys| <= |vals|
  {
    VotersFit(prepares.Keys + commits.Keys, vals);
  }

  lemma UnionSize(a: set<Address>, b: set<Address>)
    ensures |a + b| == |a| + |b| - |Seen(a, b, {})|
  {
    assert Seen(a, b, {}) == a * b;
  }

  lemma {:induction false} VotersFit(voters: set<Address>, list: seq<Address>)
    requires forall a :: a in voters ==> a in list
    ensures |voters| <= |list|
  {
    if list != [] {
      var rest := voters - {list[0]};
      VotersFit(rest, list[1..]);
      assert voters <= rest + {list[0]};
      assert |voters| <= |rest| + 1;
    } else {
      assert voters == {};
    }
  }
}
