/** Theorems about every run of one replica: any events, in any order. */
module ReplicaRuns {
  import opened Types
  import opened Quorum
  import opened ValidatorSet
  import opened Replica
  import opened ReplicaInvariants

  /** A run: the replica starts on some ledger and then handles the events one by one. */
  ghost predicate IsRun(vals: Validators, id: Address, states: seq<Replica>, events: seq<Event>) {
    && |states| == |events| + 1
    && states[0].chain != [] && states[0] == Start(vals, id, states[0].period, states[0].chain)
    && (forall i :: 0 <= i < |events| ==>
          states[i].chain != [] && states[i + 1] == Next(vals, states[i], events[i]).next)
  }

  /** A part of a run, from any state that satisfies the invariant. */
  ghost predicate IsExecution(vals: Validators, states: seq<Replica>, events: seq<Event>) {
    && |states| == |events| + 1 && Inv(vals, states[0])
    && (forall i :: 0 <= i < |events| ==>
          states[i].chain != [] && states[i + 1] == Next(vals, states[i], events[i]).next)
  }

  /** All proposals come with the verdicts of the code's engine. */
  ghost predicate AllGenuine(states: seq<Replica>, events: seq<Event>)
    requires |events| < |states|
  {
    forall i :: 0 <= i < |events| ==> Genuine(states[i], events[i])
  }

  lemma {:induction false} ExecutionKeepsInv(vals: Validators, states: seq<Replica>, events: seq<Event>, i: nat)
    requires IsExecution(vals, states, events) && i < |states|
    ensures Inv(vals, states[i])
  {
    if i > 0 {
      ExecutionKeepsInv(vals, states, events, i - 1);
      NextKeepsInv(vals, states[i - 1], events[i - 1]);
    }
  }

  /** Lock coherence: every state of every run satisfies the invariant. */
  lemma RunsKeepInv(vals: Validators, id: Address, states: seq<Replica>, events: seq<Event>, i: nat)
    requires IsRun(vals, id, states, events) && i < |states|
    ensures IsExecution(vals, states, events) && Inv(vals, states[i])
  {
    hide Next;
    StartHasInv(vals, id, states[0].period, states[0].chain);
    ExecutionKeepsInv(vals, states, events, i);
  }

  /** In every run a live replica dies in a step exactly on the events of `Panics`: no assertion fires and
      no other unwrap fails. */
  lemma RunsHaltIff(vals: Validators, id: Address, states: seq<Replica>, events: seq<Event>, i: nat)
    requires IsRun(vals, id, states, events) && i < |events| && !states[i].halted
    ensures Next(vals, states[i], events[i]).result == Panic <==> Panics(vals, states[i], events[i])
    ensures states[i + 1].halted <==> Panics(vals, states[i], events[i])
  {
    RunsKeepInv(vals, id, states, events, i);
    PanicsIff(vals, states[i], events[i]);
  }

  ghost predicate NoLockedReset(states: seq<Replica>, events: seq<Event>)
    requires |states| == |events| + 1
  {
    forall i :: 0 <= i < |events| ==> !LockedReset(states[i], events[i])
  }

  /** One step never moves the height down, nor the round while the height stays. */
  lemma ViewGrows(vals: Validators, s: Replica, e: Event)
    requires Inv(vals, s)
    ensures var t := Next(vals, s, e).next;
            && s.height <= t.height
            && (t.height != s.height ==> e.NewHeader? && t.round == 0 && t.height == |s.chain|)
            && (t.round != s.round ==> e.NewHeader? || (e.Deliver? && e.msg.RoundChange? && t.round > s.round))
  {
    if e.Deliver? && !s.halted && e.msg.sender in vals {
      match e.msg
      case Preprepare(_, _, _) => PreprepareFacts(vals, s, e.msg, e.env);
      case Prepare(_, _) => PrepareFacts(vals, s, e.msg);
      case Commit(_, _, _) => CommitFacts(vals, s, e.msg);
      case RoundChange(_, _) =>
        RoundChangeFacts(vals, s, e.msg, e.env);
        RoundMovesUp(vals, s, e.msg, e.env);
    }
  }

  lemma RoundMovesUp(vals: Validators, s: Replica, m: Message, env: Env)
    requires Inv(vals, s) && m.RoundChange?
    ensures HandleRoundChange(vals, s, m, env).next.round >= s.round
  {
    var (u, _) := SendRoundChange(AddRoundChange(s, m, vals), m.subject.view.round, env.throttled);
    NewRoundFacts(vals, u, m.subject.view.round);
  }

  lemma {:induction false} HeightsGrow(vals: Validators, states: seq<Replica>, events: seq<Event>, i: nat, j: nat)
    requires IsExecution(vals, states, events) && i <= j < |states|
    ensures states[i].height <= states[j].height
    decreases j
  {
    hide Next;
    if i < j {
      HeightsGrow(vals, states, events, i, j - 1);
      ExecutionKeepsInv(vals, states, events, j - 1);
      ViewGrows(vals, states[j - 1], events[j - 1]);
    }
  }

  /** A lock holds until the height changes. */
  lemma {:induction false} LockPersists(vals: Validators, states: seq<Replica>, events: seq<Event>, i: nat, j: nat)
    requires IsExecution(vals, states, events) && NoLockedReset(states, events)
    requires i <= j < |states| && states[i].lock.Some? && states[j].height == states[i].height
    ensures states[j].lock == states[i].lock
    decreases j
  {
    hide Next;
    if i < j {
      HeightsGrow(vals, states, events, i, j - 1);
      HeightsGrow(vals, states, events, j - 1, j);
      LockPersists(vals, states, events, i, j - 1);
      ExecutionKeepsInv(vals, states, events, j - 1);
      NextFacts(vals, states[j - 1], events[j - 1]);
    }
  }

  /** Step i sends a commit. */
  ghost predicate SendsCommit(vals: Validators, states: seq<Replica>, events: seq<Event>, i: nat, m: Message)
    requires i < |events| < |states| && states[i].chain != []
  {
    m in Next(vals, states[i], events[i]).sent && m.Commit?
  }

  /** Step j answers an old proposal although the replica has sent a commit for another block of that height. */
  ghost predicate ContradictsVote(vals: Validators, states: seq<Replica>, events: seq<Event>, j: nat)
    requires j < |events| < |states| && forall i :: 0 <= i < |events| ==> states[i].chain != []
  {
    && RepliesToOld(vals, states[j], events[j])
    && exists i: nat, m: Message :: i < j && SendsCommit(vals, states, events, i, m)
                     && m.subject.view.height == events[j].msg.view.height && m.subject.digest != events[j].msg.proposal.hash
  }

  ghost predicate NoContradiction(vals: Validators, states: seq<Replica>, events: seq<Event>)
    requires |events| < |states| && forall i :: 0 <= i < |events| ==> states[i].chain != []
  {
    forall j: nat :: j < |events| ==> !ContradictsVote(vals, states, events, j)
  }

  /** A commit is the answer to an old proposal, or it carries the lock of the current height. */
  lemma CommitIsReplyOrLock(vals: Validators, states: seq<Replica>, events: seq<Event>, i: nat, m: Message)
    requires IsExecution(vals, states, events) && i < |events| && SendsCommit(vals, states, events, i, m)
    ensures m.subject.view.height <= states[i].height
    ensures m.subject.view.height < states[i].height ==>
              && RepliesToOld(vals, states[i], events[i])
              && m == CommitVote(states[i].id, events[i].msg.view, events[i].msg.proposal.hash)
    ensures m.subject.view.height == states[i].height ==>
              !LockedReset(states[i], events[i]) && states[i + 1].height == states[i].height
              && states[i + 1].lock == Some(m.subject.digest)
  {
    ExecutionKeepsInv(vals, states, events, i);
    OldReplyIff(vals, states[i], events[i], m);
    if !LockedReset(states[i], events[i]) {
      NextFacts(vals, states[i], events[i]);
    }
  }

  /** One vote per height: in a run without locked restarts and without answers that contradict an earlier vote,
      all commits for one height carry one digest, and those for the current height carry the lock. */
  lemma OneVotePerHeight(vals: Validators, id: Address, states: seq<Replica>, events: seq<Event>,
                         i: nat, j: nat, m1: Message, m2: Message)
    requires IsRun(vals, id, states, events) && NoLockedReset(states, events) && NoContradiction(vals, states, events)
    requires i <= j < |events|
    requires SendsCommit(vals, states, events, i, m1) && SendsCommit(vals, states, events, j, m2)
    requires m1.subject.view.height == m2.subject.view.height
    ensures m1.subject.digest == m2.subject.digest
    ensures m2.subject.view.height == states[j].height ==> states[j + 1].lock == Some(m2.subject.digest)
  {
    hide Next;
    RunsKeepInv(vals, id, states, events, i);
    CommitIsReplyOrLock(vals, states, events, i, m1);
    CommitIsReplyOrLock(vals, states, events, j, m2);
    HeightsGrow(vals, states, events, i, j);
    if m2.subject.view.height == states[j].height {
      LockPersists(vals, states, events, i + 1, j + 1);
    } else {
      assert !ContradictsVote(vals, states, events, j);
    }
  }

  /** All decisions of one replica at one height are for one digest, whatever the counted commits say. */
  lemma OneDecisionPerHeight(vals: Validators, states: seq<Replica>, events: seq<Event>, i: nat, j: nat)
    requires IsExecution(vals, states, events) && NoLockedReset(states, events) && i <= j < |events|
    requires Next(vals, states[i], events[i]).decided.Some? && Next(vals, states[j], events[j]).decided.Some?
    requires states[i].height == states[j].height
    ensures Next(vals, states[i], events[i]).decided.value.digest == Next(vals, states[j], events[j]).decided.value.digest
  {
    hide Next;
    ExecutionKeepsInv(vals, states, events, i);
    ExecutionKeepsInv(vals, states, events, j);
    NextFacts(vals, states[i], events[i]);
    NextFacts(vals, states[j], events[j]);
    LockPersists(vals, states, events, i + 1, j + 1);
  }

  // ----- everything a run sends and decides

  ghost function AllSent(vals: Validators, states: seq<Replica>, events: seq<Event>): seq<Message>
    requires |events| < |states| && forall i :: 0 <= i < |events| ==> states[i].chain != []
  {
    if events == [] then []
    else
      var n := |events| - 1;
      AllSent(vals, states, events[..n]) + Next(vals, states[n], events[n]).sent
  }

  ghost function AllDecided(vals: Validators, states: seq<Replica>, events: seq<Event>): seq<Decision>
    requires |events| < |states| && forall i :: 0 <= i < |events| ==> states[i].chain != []
  {
    if events == [] then []
    else
      var n := |events| - 1;
      var d := Next(vals, states[n], events[n]).decided;
      AllDecided(vals, states, events[..n]) + if d.Some? then [d.value] else []
  }

  lemma {:induction false} LaterStatesIgnored(vals: Validators, states: seq<Replica>, t: Replica, events: seq<Event>)
    requires |events| < |states| && forall i :: 0 <= i < |events| ==> states[i].chain != []
    ensures AllSent(vals, states + [t], events) == AllSent(vals, states, events)
    ensures AllDecided(vals, states + [t], events) == AllDecided(vals, states, events)
  {
    hide Next;
    if events != [] {
      LaterStatesIgnored(vals, states, t, events[..|events| - 1]);
    }
  }

  lemma AppendToRun(vals: Validators, id: Address, states: seq<Replica>, events: seq<Event>, e: Event)
    requires IsRun(vals, id, states, events) && states[|events|].chain != []
    ensures var step := Next(vals, states[|events|], e);
            && IsRun(vals, id, states + [step.next], events + [e])
            && AllSent(vals, states + [step.next], events + [e]) == AllSent(vals, states, events) + step.sent
            && AllDecided(vals, states + [step.next], events + [e])
               == AllDecided(vals, states, events) + if step.decided.Some? then [step.decided.value] else []
  {
    hide Next;
    var t := Next(vals, states[|events|], e).next;
    AppendedIsRun(vals, id, states, events, e, t);
    assert forall i :: 0 <= i < |events| ==> states[i].chain != [];
    hide IsRun;
    LaterStatesIgnored(vals, states, t, events);
    assert (events + [e])[..|events|] == events;
    assert (states + [t])[|events|] == states[|events|];
  }

  /** A replica's state, outbox and decisions are those at the end of a run. */
  ghost predicate Records(vals: Validators, id: Address, states: seq<Replica>, events: seq<Event>,
                          s: Replica, out: seq<Message>, decided: seq<Decision>)
  {
    && IsRun(vals, id, states, events) && s == states[|events|]
    && out == AllSent(vals, states, events) && decided == AllDecided(vals, states, events)
  }

  lemma RecordBegins(vals: Validators, id: Address, period: Time, chain: seq<Entry>)
    requires chain != []
    ensures var s := Start(vals, id, period, chain); Records(vals, id, [s], [], s, [], [])
  {
  }

  lemma RecordGrows(vals: Validators, id: Address, states: seq<Replica>, events: seq<Event>,
                    s: Replica, out: seq<Message>, decided: seq<Decision>, e: Event)
    requires Records(vals, id, states, events, s, out, decided) && s.chain != []
    ensures var step := Next(vals, s, e);
            Records(vals, id, states + [step.next], events + [e], step.next, out + step.sent,
                    decided + if step.decided.Some? then [step.decided.value] else [])
  {
    hide Next;
    hide AllSent;
    hide AllDecided;
    AppendToRun(vals, id, states, events, e);
    hide IsRun;
  }

  lemma AppendedIsRun(vals: Validators, id: Address, states: seq<Replica>, events: seq<Event>, e: Event, t: Replica)
    requires IsRun(vals, id, states, events) && states[|events|].chain != [] && t == Next(vals, states[|events|], e).next
    ensures IsRun(vals, id, states + [t], events + [e])
  {
    hide Next;
  }

  /** Every message comes from some step. */
  lemma {:induction false} SentBySome(vals: Validators, states: seq<Replica>, events: seq<Event>, m: Message) returns (i: nat)
    requires |events| < |states| && forall i :: 0 <= i < |events| ==> states[i].chain != []
    requires m in AllSent(vals, states, events)
    ensures i < |events| && m in Next(vals, states[i], events[i]).sent
  {
    hide Next;
    var n := |events| - 1;
    if m in Next(vals, states[n], events[n]).sent {
      i := n;
    } else {
      i := SentBySome(vals, states, events[..n], m);
    }
  }

  lemma {:induction false} DecidedBySome(vals: Validators, states: seq<Replica>, events: seq<Event>, d: Decision) returns (i: nat)
    requires |events| < |states| && forall i :: 0 <= i < |events| ==> states[i].chain != []
    requires d in AllDecided(vals, states, events)
    ensures i < |events| && Next(vals, states[i], events[i]).decided == Some(d)
  {
    hide Next;
    var n := |events| - 1;
    if Next(vals, states[n], events[n]).decided == Some(d) {
      i := n;
    } else {
      i := DecidedBySome(vals, states, events[..n], d);
    }
  }

  /** All commits for one height carry one digest. */
  ghost predicate VotesAgree(out: seq<Message>) {
    forall m, n :: m in out && n in out && m.Commit? && n.Commit? && m.subject.view.height == n.subject.view.height
                   ==> m.subject.digest == n.subject.digest
  }

  ghost predicate DecisionsAgree(decisions: seq<Decision>) {
    forall d, e :: d in decisions && e in decisions && d.height == e.height ==> d.digest == e.digest
  }

  lemma RunVotesAgree(vals: Validators, id: Address, states: seq<Replica>, events: seq<Event>)
    requires IsRun(vals, id, states, events)
    ensures NoLockedReset(states, events) && NoContradiction(vals, states, events) ==> VotesAgree(AllSent(vals, states, events))
  {
    hide Next;
    if NoLockedReset(states, events) && NoContradiction(vals, states, events) {
      var out := AllSent(vals, states, events);
      forall m, n | m in out && n in out && m.Commit? && n.Commit? && m.subject.view.height == n.subject.view.height
        ensures m.subject.digest == n.subject.digest
      {
        var i := SentBySome(vals, states, events, m);
        var j := SentBySome(vals, states, events, n);
        if i <= j {
          OneVotePerHeight(vals, id, states, events, i, j, m, n);
        } else {
          OneVotePerHeight(vals, id, states, events, j, i, n, m);
        }
      }
    }
  }

  lemma RunDecisionsAgree(vals: Validators, id: Address, states: seq<Replica>, events: seq<Event>)
    requires IsRun(vals, id, states, events)
    ensures NoLockedReset(states, events) ==> DecisionsAgree(AllDecided(vals, states, events))
  {
    hide Next;
    if NoLockedReset(states, events) {
      RunsKeepInv(vals, id, states, events, 0);
      var all := AllDecided(vals, states, events);
      forall d, e | d in all && e in all && d.height == e.height ensures d.digest == e.digest {
        var i := DecidedBySome(vals, states, events, d);
        var j := DecidedBySome(vals, states, events, e);
        DecisionHeight(vals, states, events, i);
        DecisionHeight(vals, states, events, j);
        if i <= j {
          OneDecisionPerHeight(vals, states, events, i, j);
        } else {
          OneDecisionPerHeight(vals, states, events, j, i);
        }
      }
    }
  }

  lemma DecisionHeight(vals: Validators, states: seq<Replica>, events: seq<Event>, i: nat)
    requires IsExecution(vals, states, events) && NoLockedReset(states, events) && i < |events|
    requires Next(vals, states[i], events[i]).decided.Some?
    ensures Next(vals, states[i], events[i]).decided.value.height == states[i].height
  {
    hide Next;
    ExecutionKeepsInv(vals, states, events, i);
    NextFacts(vals, states[i], events[i]);
  }

  /** Lock evidence: a replica that becomes locked holds the prepares or commits of a quorum
      of distinct validators, each prepare for its view and each commit for its height. */
  lemma LockNeedsQuorum(vals: Validators, id: Address, states: seq<Replica>, events: seq<Event>, i: nat)
    requires IsRun(vals, id, states, events) && i < |events|
    requires states[i].lock.None? && states[i + 1].lock.Some?
    ensures var t := states[i + 1];
            var voters := t.prepares.Keys + t.commits.Keys;
            && |voters| >= Threshold(|vals|) && (forall a :: a in voters ==> a in vals)
            && (forall a :: a in t.prepares ==> t.prepares[a].Prepare? && t.prepares[a].sender == a
                                                && t.prepares[a].subject.view == t.CurrentView())
            && (forall a :: a in t.commits ==> t.commits[a].Commit? && t.commits[a].sender == a
                                               && t.commits[a].subject.view.height == t.height)
  {
    RunsKeepInv(vals, id, states, events, i);
    RunsKeepInv(vals, id, states, events, i + 1);
    NextFacts(vals, states[i], events[i]);
  }

  // ----- round entry

  /** The step empties the round-change table. */
  ghost predicate Clears(vals: Validators, s: Replica, e: Event)
    requires s.chain != []
  {
    !s.halted && (e.NewHeader? || Next(vals, s, e).next.round != s.round)
  }

  /** The number of events up to and including the last one before i that emptied the table. */
  ghost function LastClear(vals: Validators, states: seq<Replica>, events: seq<Event>, i: nat): (k: nat)
    requires i <= |events| < |states| && forall j :: 0 <= j < |events| ==> states[j].chain != []
    ensures k <= i
  {
    if i == 0 then 0
    else if Clears(vals, states[i - 1], events[i - 1]) then i
    else LastClear(vals, states, events, i - 1)
  }

  /** A round-change vote was delivered by an event in [k, i). */
  ghost predicate Delivered(events: seq<Event>, k: nat, i: nat, m: Message) {
    exists j {:trigger events[j]} :: k <= j < i <= |events| && events[j].Deliver? && events[j].msg == m
  }

  /** Validator a's vote for the round at the height was delivered by an event in [k, i). */
  ghost predicate VoteDelivered(vals: Validators, events: seq<Event>, k: nat, i: nat, height: nat, round: Round, a: Address) {
    exists m {:trigger RoundVote(vals, height, round, a, m)} ::
      RoundVote(vals, height, round, a, m) && Delivered(events, k, i, m)
  }

  lemma {:induction false} TableWasDelivered(vals: Validators, id: Address, states: seq<Replica>, events: seq<Event>,
                                             i: nat, r: Round, a: Address)
    requires IsRun(vals, id, states, events) && i <= |events|
    requires r in states[i].roundChanges && a in states[i].roundChanges[r]
    ensures Delivered(events, LastClear(vals, states, events, i), i, states[i].roundChanges[r][a])
  {
    var m := states[i].roundChanges[r][a];
    var s, e := states[i - 1], events[i - 1];
    RunsKeepInv(vals, id, states, events, i - 1);
    TableOnlyAdds(vals, s, e);
    if InputOf(e) == Some(m) && !(r in s.roundChanges && a in s.roundChanges[r] && m == s.roundChanges[r][a]) {
      assert events[i - 1].msg == m;
    } else {
      TableWasDelivered(vals, id, states, events, i - 1, r, a);
      var k := LastClear(vals, states, events, i - 1);
      var j :| k <= j < i - 1 && events[j].Deliver? && events[j].msg == m;
      assert events[j].msg == m;
    }
  }

  /** A clearing step leaves an empty table; any other step only adds the delivered message. */
  lemma TableOnlyAdds(vals: Validators, s: Replica, e: Event)
    requires Inv(vals, s)
    ensures var t := Next(vals, s, e).next;
            && (Clears(vals, s, e) ==> t.roundChanges == map[])
            && (forall r, a :: r in t.roundChanges && a in t.roundChanges[r] ==>
                  (r in s.roundChanges && a in s.roundChanges[r] && t.roundChanges[r][a] == s.roundChanges[r][a])
                  || Some(t.roundChanges[r][a]) == InputOf(e))
  {
    if e.NewHeader? {
    } else {
      NextFacts(vals, s, e);
      if Clears(vals, s, e) {
        ViewGrows(vals, s, e);
        RoundEntryStep(vals, s, e);
      }
    }
  }

  /** The only way into a later round of a height: the vote that completes a quorum for it. */
  lemma RoundEntryStep(vals: Validators, s: Replica, e: Event)
    requires Inv(vals, s) && !s.halted && !e.NewHeader?
    requires Next(vals, s, e).next.round != s.round
    ensures var t := Next(vals, s, e).next;
            && e.Deliver? && e.msg.RoundChange? && e.msg.sender in vals
            && e.msg.subject.view == View(s.height, t.round) && t.round > s.round && t.height == s.height
            && VoteCount(AddRoundChange(s, e.msg, vals).roundChanges, t.round) >= Threshold(|vals|)
            && t.roundChanges == map[] && t.lock == s.lock
  {
    ViewGrows(vals, s, e);
    var m := e.msg;
    var (u, _) := SendRoundChange(AddRoundChange(s, m, vals), m.subject.view.round, e.env.throttled);
    NewRoundFacts(vals, u, m.subject.view.round);
  }

  /** Round entry: whenever a run moves to a later round r of a height, a quorum of distinct validators
      had votes for exactly r at that height delivered since the table was last emptied. */
  lemma RoundEntryNeedsQuorum(vals: Validators, id: Address, states: seq<Replica>, events: seq<Event>, i: nat)
      returns (voters: set<Address>)
    requires IsRun(vals, id, states, events) && i < |events|
    requires states[i + 1].round != states[i].round && states[i + 1].round != 0
    ensures states[i + 1].round > states[i].round && states[i + 1].height == states[i].height
    ensures |voters| >= Threshold(|vals|)
    ensures forall a :: a in voters ==>
              VoteDelivered(vals, events, LastClear(vals, states, events, i), i + 1, states[i].height, states[i + 1].round, a)
  {
    var s, e, r := states[i], events[i], states[i + 1].round;
    RunsKeepInv(vals, id, states, events, i);
    assert !s.halted && !e.NewHeader?;
    RoundEntryStep(vals, s, e);
    AddKeepsInv(vals, s, e.msg);
    var tally := AddRoundChange(s, e.msg, vals).roundChanges[r];
    voters := tally.Keys;
    var k := LastClear(vals, states, events, i);
    forall a | a in voters
      ensures VoteDelivered(vals, events, k, i + 1, s.height, r, a)
    {
      assert RoundVote(vals, s.height, r, a, tally[a]);
      if tally[a] == e.msg {
        assert events[i].msg == tally[a];
      } else {
        TableWasDelivered(vals, id, states, events, i, r, a);
        var j :| k <= j < i && events[j].Deliver? && events[j].msg == tally[a];
        assert events[j].msg == tally[a];
      }
    }
  }
}
