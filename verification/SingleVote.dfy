/** The exact condition for a single vote per height. A replica that is committed to a digest at a height votes for
    nothing else there, whatever follows, if and only if the next event neither restarts that height
    nor asks about another stored block of it. */
module SingleVote {
  import opened Types
  import opened Quorum
  import opened ValidatorSet
  import opened Replica
  import opened ReplicaInvariants
  import opened ReplicaRuns
  import opened Ballots

  /** The replica is locked on d at height h, or has left that height behind. */
  ghost predicate CommittedTo(s: Replica, h: nat, d: Hash) {
    0 < h <= s.height && (h == s.height ==> s.lock == Some(d))
  }

  /** The two branches that forget a vote for d at height h: a new header that restarts the height while locked,
      and the answer to an old proposal of that height with another hash. */
  predicate ForgetsVote(vals: Validators, s: Replica, e: Event, h: nat, d: Hash) {
    || (s.height == h && LockedReset(s, e))
    || (RepliesToOld(vals, s, e) && e.msg.view.height == h && e.msg.proposal.hash != d)
  }

  ghost predicate CalmAfterFirst(vals: Validators, states: seq<Replica>, events: seq<Event>, h: nat, d: Hash)
    requires |states| == |events| + 1
  {
    forall i :: 1 <= i < |events| ==> !ForgetsVote(vals, states[i], events[i], h, d)
  }

  /** All proposals after the first event come with the verdicts of the code's engine. */
  ghost predicate GenuineAfterFirst(states: seq<Replica>, events: seq<Event>)
    requires |states| == |events| + 1
  {
    forall i :: 1 <= i < |events| ==> Genuine(states[i], events[i])
  }

  /** Every execution from s that begins with e, and is calm and genuine from then on, commits to no digest but d at
      height h. */
  ghost predicate VotesOnlyFor(vals: Validators, s: Replica, e: Event, h: nat, d: Hash) {
    forall states: seq<Replica>, events: seq<Event>, i: nat, m: Message ::
      && IsExecution(vals, states, events) && GenuineAfterFirst(states, events)
      && i < |events| && states[0] == s && events[0] == e
      && CalmAfterFirst(vals, states, events, h, d) && SendsCommit(vals, states, events, i, m)
      && m.subject.view.height == h
      ==> m.subject.digest == d
  }

  // ----- calm executions keep the vote

  /** While the replica stays at its height, no locked restart leaves it locked as it was. */
  lemma {:induction false} LockWhileCalm(vals: Validators, states: seq<Replica>, events: seq<Event>, i: nat)
    requires IsExecution(vals, states, events) && i <= |events| && states[0].lock.Some?
    requires states[i].height == states[0].height
    requires forall k :: 0 <= k < i && states[k].height == states[0].height ==> !LockedReset(states[k], events[k])
    ensures states[i].lock == states[0].lock
  {
    hide Next;
    if i > 0 {
      HeightsGrow(vals, states, events, 0, i - 1);
      HeightsGrow(vals, states, events, i - 1, i);
      LockWhileCalm(vals, states, events, i - 1);
      ExecutionKeepsInv(vals, states, events, i - 1);
      NextFacts(vals, states[i - 1], events[i - 1]);
    }
  }

  lemma CalmVotesAgree(vals: Validators, states: seq<Replica>, events: seq<Event>, h: nat, d: Hash, i: nat, m: Message)
    requires IsExecution(vals, states, events) && CommittedTo(states[0], h, d) && i < |events|
    requires forall k :: 0 <= k < |events| ==> !ForgetsVote(vals, states[k], events[k], h, d)
    requires SendsCommit(vals, states, events, i, m) && m.subject.view.height == h
    ensures m.subject.digest == d
  {
    hide Next;
    CommitIsReplyOrLock(vals, states, events, i, m);
    HeightsGrow(vals, states, events, 0, i);
    if states[i].height == h {
      HeightsGrow(vals, states, events, i, i + 1);
      forall k | 0 <= k < i + 1 && states[k].height == h ensures !LockedReset(states[k], events[k]) {
        assert !ForgetsVote(vals, states[k], events[k], h, d);
      }
      LockWhileCalm(vals, states, events, i + 1);
    } else {
      assert !ForgetsVote(vals, states[i], events[i], h, d);
    }
  }

  // ----- a second vote after a restart

  lemma Append(vals: Validators, states: seq<Replica>, events: seq<Event>, e: Event) returns (states': seq<Replica>)
    requires IsExecution(vals, states, events)
    ensures states[|events|].chain != []
    ensures states' == states + [Next(vals, states[|events|], e).next] && IsExecution(vals, states', events + [e])
  {
    hide Next;
    ExecutionKeepsInv(vals, states, events, |events|);
    states' := states + [Next(vals, states[|events|], e).next];
  }

  /** An event that cannot forget a vote at the height: a block for the ledger, a proposal or a prepare of that
      height. */
  predicate Harmless(e: Event, h: nat) {
    e.BlockInserted? || (e.Deliver? && (e.msg.Prepare? || (e.msg.Preprepare? && e.msg.view.height == h)))
  }

  function PrepareFor(subject: Subject): Address -> Message {
    (a: Address) => Prepare(a, subject)
  }

  /** A block that block sync may bring, and one above it with any hash that the engine accepts. */
  function Early(): Entry {
    Entry(EmptyHash(), 0)
  }

  function Above(s: Replica, digest: Hash): Block {
    Block(digest, |s.chain| + 1, Early().hash, s.period, TxsFit, true)
  }

  /** A restart, a block from sync and the round's proposal: the replica has forgotten its lock. */
  lemma RestartAndAccept(vals: Validators, s: Replica, e: Event, digest: Hash, voters: seq<Address>)
      returns (accept: Event, t: Replica)
    requires Inv(vals, s) && LockedReset(s, e)
    ensures Harmless(accept, s.height)
    ensures var s1 := Next(vals, s, e).next;
            && s1.chain != [] && s1.height == s.height
            && var s2 := Next(vals, s1, BlockInserted(Early())).next;
            s2.chain != [] && t == Next(vals, s2, accept).next && Genuine(s2, accept)
    ensures Waiting(t, Above(s, digest), voters, PrepareFor(Subject(View(s.height, 0), digest)), 0)
    ensures t.id == s.id && t.CurrentView() == View(s.height, 0)
  {
    hide Next;
    var p := RestartForgets(vals, s, e);
    accept, t := AcceptAbove(vals, Next(vals, s, e).next, p, digest, voters);
  }

  /** A restart leaves nothing but the ledger. */
  lemma RestartForgets(vals: Validators, s: Replica, e: Event) returns (p: Address)
    requires Inv(vals, s) && LockedReset(s, e)
    ensures p in vals
    ensures var t := Next(vals, s, e).next;
            && t.proposer == Some(p) && t.phase == AcceptRequest && t.lock.None? && !t.halted && t.height == s.height
            && t.chain == s.chain && t.period == s.period && t.round == 0 && t.id == s.id
            && t.prepares == map[] && t.commits == map[]
  {
    FirstProposer(s.LastHash(), vals);
    p := SelectProposer(s.LastHash(), 0, vals).value;
    hide SelectProposer;
    hide PreparesFit;
    hide CommitsFit;
    hide RoundChangesFit;
  }

  lemma AcceptAbove(vals: Validators, s: Replica, p: Address, digest: Hash, voters: seq<Address>)
      returns (accept: Event, t: Replica)
    requires s.chain != [] && !s.halted && s.proposer == Some(p) && p in vals && s.phase == AcceptRequest && s.lock.None?
    requires s.height > 0 && s.round == 0 && s.prepares == map[] && s.commits == map[]
    ensures Harmless(accept, s.height)
    ensures var s2 := Next(vals, s, BlockInserted(Early())).next;
            s2.chain != [] && t == Next(vals, s2, accept).next && Genuine(s2, accept)
    ensures Waiting(t, Above(s, digest), voters, PrepareFor(Subject(View(s.height, 0), digest)), 0)
    ensures t.id == s.id && t.CurrentView() == View(s.height, 0)
  {
    var block := Above(s, digest);
    var s2 := Next(vals, s, BlockInserted(Early())).next;
    assert s2 == s.(chain := s.chain + [Early()]);
    assert HasParent(s2, block) && s2.chain[block.height - 1].time == 0;
    accept := Deliver(Preprepare(p, View(s.height, 0), block), ACCEPT);
    t := Next(vals, s2, accept).next;
    assert t == s2.(preprepare := Some(block), phase := PrePrepared);
    assert voters[..0] == [];
    assert t.prepares == Ballot(voters[..0], PrepareFor(Subject(View(s.height, 0), digest)));
  }

  /** After a restart any digest at all can collect a second vote at the height. */
  lemma SecondVote(vals: Validators, s: Replica, e: Event, digest: Hash)
      returns (states: seq<Replica>, events: seq<Event>)
    requires Distinct(vals) && Inv(vals, s) && LockedReset(s, e)
    ensures IsExecution(vals, states, events) && |events| > 0 && states[0] == s && events[0] == e
    ensures GenuineAfterFirst(states, events)
    ensures forall i :: 1 <= i < |events| ==> Harmless(events[i], s.height)
    ensures SendsCommit(vals, states, events, |events| - 1, CommitVote(s.id, View(s.height, 0), digest))
  {
    hide Next;
    hide Waiting;
    hide Inv;
    hide EngineVerdict;
    FirstQuorum(vals);
    var voters := vals[..Threshold(|vals|)];
    var block := Above(s, digest);
    var vote := PrepareFor(Subject(View(s.height, 0), digest));
    hide IsQuorum;
    var accept, t := RestartAndAccept(vals, s, e, digest, voters);
    states, events := [s], [];
    states := Append(vals, states, events, e);
    events := events + [e];
    states := Append(vals, states, events, BlockInserted(Early()));
    events := events + [BlockInserted(Early())];
    states := Append(vals, states, events, accept);
    events := events + [accept];
    var q := TwoThirds(|vals|);
    for k := 0 to q
      invariant IsExecution(vals, states, events) && |events| == k + 3 && GenuineAfterFirst(states, events)
      invariant states[0] == s && events[0] == e && forall i :: 1 <= i < |events| ==> Harmless(events[i], s.height)
      invariant var last := states[|events|];
                Waiting(last, block, voters, vote, k) && last.id == s.id && last.CurrentView() == View(s.height, 0)
    {
      PrepareWaits(vals, states[|events|], block, voters, vote, k);
      var d := Deliver(vote(voters[k]), ACCEPT);
      states := Append(vals, states, events, d);
      events := events + [d];
    }
    PrepareLocks(vals, states[|events|], block, voters, vote);
    var d := Deliver(vote(voters[q]), ACCEPT);
    states := Append(vals, states, events, d);
    events := events + [d];
  }

  /** A restart and harmless events leave the replica at its height. */
  lemma {:induction false} HeightStays(vals: Validators, states: seq<Replica>, events: seq<Event>, i: nat)
    requires IsExecution(vals, states, events) && 1 <= i <= |events| && LockedReset(states[0], events[0])
    requires forall k :: 1 <= k < |events| ==> Harmless(events[k], states[0].height)
    ensures states[i].height == states[0].height
  {
    ViewGrows(vals, states[0], events[0]);
    hide Next;
    if i > 1 {
      HeightStays(vals, states, events, i - 1);
      ExecutionKeepsInv(vals, states, events, i - 1);
      ViewGrows(vals, states[i - 1], events[i - 1]);
    }
  }

  /** After a restart harmless events are calm. */
  lemma HarmlessIsCalm(vals: Validators, states: seq<Replica>, events: seq<Event>, d: Hash)
    requires IsExecution(vals, states, events) && events != [] && LockedReset(states[0], events[0])
    requires forall i :: 1 <= i < |events| ==> Harmless(events[i], states[0].height)
    ensures CalmAfterFirst(vals, states, events, states[0].height, d)
  {
    hide Next;
    forall i | 1 <= i < |events| ensures !ForgetsVote(vals, states[i], events[i], states[0].height, d) {
      HeightStays(vals, states, events, i);
    }
  }

  function OtherHash(d: Hash): (h: Hash)
    ensures h != d
  {
    var zeros: Hash := seq(32, _ => 0);
    var ones: Hash := seq(32, _ => 1);
    assert zeros[0] != ones[0];
    if d == zeros then ones else zeros
  }

  lemma ForgettingBreaks(vals: Validators, s: Replica, e: Event, h: nat, d: Hash)
    requires Distinct(vals) && Inv(vals, s) && CommittedTo(s, h, d) && ForgetsVote(vals, s, e, h, d)
    ensures !VotesOnlyFor(vals, s, e, h, d)
  {
    hide Next;
    hide Inv;
    if s.height == h && LockedReset(s, e) {
      var other := OtherHash(d);
      var states, events := SecondVote(vals, s, e, other);
      HarmlessIsCalm(vals, states, events, d);
      var m := CommitVote(s.id, View(h, 0), other);
      assert SendsCommit(vals, states, events, |events| - 1, m) && m.subject.view.height == h;
    } else {
      var m := CommitVote(s.id, e.msg.view, e.msg.proposal.hash);
      OldReplyIff(vals, s, e, m);
      var states := Append(vals, [s], [], e);
      assert [] + [e] == [e];
      assert SendsCommit(vals, states, [e], 0, m) && m.subject.view.height == h;
    }
  }

  /** One vote per height, exactly, over all commits: a replica committed to d at height h votes for nothing else there
      if and only if the next event does not restart the height while it is locked there, and does not ask
      about a stored block of that height with another hash. */
  lemma SingleVoteIff(vals: Validators, s: Replica, e: Event, h: nat, d: Hash)
    requires Distinct(vals) && Inv(vals, s) && CommittedTo(s, h, d)
    ensures VotesOnlyFor(vals, s, e, h, d) <==> !ForgetsVote(vals, s, e, h, d)
  {
    hide Next;
    hide Inv;
    if ForgetsVote(vals, s, e, h, d) {
      ForgettingBreaks(vals, s, e, h, d);
    } else {
      forall states: seq<Replica>, events: seq<Event>, i: nat, m: Message |
        && IsExecution(vals, states, events) && GenuineAfterFirst(states, events)
        && i < |events| && states[0] == s && events[0] == e
        && CalmAfterFirst(vals, states, events, h, d) && SendsCommit(vals, states, events, i, m)
        && m.subject.view.height == h
        ensures m.subject.digest == d
      {
        CalmVotesAgree(vals, states, events, h, d, i, m);
      }
    }
  }
}
