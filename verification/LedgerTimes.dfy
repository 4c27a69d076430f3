/** What the engine's checks give the ledger: blocks decided under its own verdicts follow each other in hash and
    time. */
module LedgerTimes {
  import opened Types
  import opened ValidatorSet
  import opened Replica
  import opened ReplicaInvariants
  import opened ReplicaRuns
  import opened ReplicaAnswers

  /** Each entry is at least a period later than the one below. */
  ghost predicate Spaced(chain: seq<Entry>, period: Time) {
    forall i :: 0 < i < |chain| ==> chain[i - 1].time + period <= chain[i].time
  }

  /** The stored proposal names the ledger's entry below its height, is a period later, and has its transactions in
      order. */
  ghost predicate ProposalFollows(s: Replica) {
    s.preprepare.Some? ==>
      var block := s.preprepare.value;
      && 0 < block.height <= |s.chain| && block.prevHash == s.chain[block.height - 1].hash
      && s.chain[block.height - 1].time + s.period <= block.time && block.txs == TxsFit
  }

  /** A proposal is stored only if the engine survives it and accepts it; otherwise it stays or goes. */
  lemma OnlyAcceptedIsStored(vals: Validators, s: Replica, e: Event)
    requires Inv(vals, s)
    ensures var t := Next(vals, s, e).next;
            && t.period == s.period && s.chain <= t.chain
            && (t.preprepare == s.preprepare || t.preprepare.None?
                || (e.Deliver? && e.msg.Preprepare? && t.preprepare == Some(e.msg.proposal) && t.chain == s.chain
                    && e.env.verdict == Acceptable))
  {
    hide Next;
    InvHasChain(vals, s);
    hide Inv;
    if s.halted || !e.Deliver? || e.msg.sender !in vals {
      OthersStoreNothing(vals, s, e);
    } else {
      match e.msg
      case Preprepare(_, _, _) => StoredByProposal(vals, s, e.msg, e.env);
      case Prepare(_, _) => PrepareAnswer(vals, s, e.msg, e.env);
      case Commit(_, _, _) => CommitAnswer(vals, s, e.msg, e.env);
      case RoundChange(_, _) => StoredByRoundChange(vals, s, e.msg, e.env);
    }
  }

  lemma InvHasChain(vals: Validators, s: Replica)
    requires Inv(vals, s)
    ensures s.chain != []
  {
  }

  lemma OthersStoreNothing(vals: Validators, s: Replica, e: Event)
    requires s.chain != [] && (s.halted || !e.Deliver? || e.msg.sender !in vals)
    ensures var t := Next(vals, s, e).next;
            && t.period == s.period && s.chain <= t.chain && (t.preprepare == s.preprepare || t.preprepare.None?)
            && (!e.BlockInserted? ==> t.chain == s.chain)
  {
    hide SelectProposer;
    hide HandlePreprepare;
    hide HandlePrepare;
    hide HandleCommit;
    hide HandleRoundChange;
    if e.Timeout? {
      NextRoundChangeMoves(s, e.env, Ok);
    }
    hide SendNextRoundChange;
  }

  lemma NextRoundChangeMoves(s: Replica, env: Env, result: Result)
    ensures var t := SendNextRoundChange(s, env, result).next;
            t == s || t == s.(waiting := true) || t == s.(halted := true)
  {
    hide ScanMax;
  }

  lemma StoredByProposal(vals: Validators, s: Replica, m: Message, env: Env)
    requires s.chain != [] && !s.halted && m.Preprepare?
    ensures var t := Next(vals, s, Deliver(m, env)).next;
            && t.period == s.period && t.chain == s.chain
            && (t.preprepare == s.preprepare || (t.preprepare == Some(m.proposal) && env.verdict == Acceptable))
  {
    hide SelectProposer;
    StoredByAcceptance(vals, s, m, env);
    hide AcceptProposal;
  }

  lemma StoredByAcceptance(vals: Validators, s: Replica, m: Message, env: Env)
    requires m.Preprepare?
    ensures var t := AcceptProposal(vals, s, m, env).next;
            && t.period == s.period && t.chain == s.chain
            && (t.preprepare == s.preprepare || (t.preprepare == Some(m.proposal) && env.verdict == Acceptable))
  {
    hide EngineFails;
    NextRoundChangeMoves(s, env, Ok);
    NextRoundChangeMoves(s, env, Err(Unknown));
    hide SendNextRoundChange;
  }

  lemma StoredByRoundChange(vals: Validators, s: Replica, m: Message, env: Env)
    requires s.chain != [] && !s.halted && m.RoundChange? && m.sender in vals
    ensures var t := Next(vals, s, Deliver(m, env)).next;
            t.period == s.period && t.chain == s.chain && (t.preprepare == s.preprepare || t.preprepare.None?)
  {
    hide SelectProposer;
    var (u, _) := SendRoundChange(AddRoundChange(s, m, vals), m.subject.view.round, env.throttled);
    StoredByEntry(vals, u, m.subject.view.round);
    hide StartNewRound;
  }

  lemma StoredByEntry(vals: Validators, s: Replica, round: Round)
    requires s.chain != []
    ensures var t := StartNewRound(vals, s, round).next;
            t.period == s.period && t.chain == s.chain && (t.preprepare == s.preprepare || t.preprepare.None?)
  {
    hide SelectProposer;
    var e := EnterRound(vals, s, round);
    assert e.period == s.period && e.chain == s.chain && (e.preprepare == s.preprepare || e.preprepare.None?);
    hide EnterRound;
    hide SendPreprepare;
  }

  lemma StepKeepsFollowing(vals: Validators, s: Replica, e: Event)
    requires Inv(vals, s) && Genuine(s, e) && ProposalFollows(s)
    ensures ProposalFollows(Next(vals, s, e).next)
  {
    hide Next;
    hide Inv;
    OnlyAcceptedIsStored(vals, s, e);
  }

  /** A block that consensus adds to the ledger names the last entry as its parent and is a period later. */
  lemma StepKeepsSpacing(vals: Validators, s: Replica, e: Event)
    requires Inv(vals, s) && ProposalFollows(s) && Spaced(s.chain, s.period) && !e.BlockInserted?
    ensures var t := Next(vals, s, e).next;
            && Spaced(t.chain, s.period)
            && (t.chain == s.chain
                || (s.preprepare.Some? && s.preprepare.value.prevHash == s.LastHash()
                    && t.chain == s.chain + [Entry(s.preprepare.value.hash, s.preprepare.value.time)]))
  {
    hide Next;
    if e.Deliver? && e.msg.Commit? && !s.halted {
      CommitAnswer(vals, s, e.msg, e.env);
    } else {
      OthersKeepLedger(vals, s, e);
    }
    hide Inv;
  }

  lemma OthersKeepLedger(vals: Validators, s: Replica, e: Event)
    requires Inv(vals, s) && !e.BlockInserted? && (s.halted || !(e.Deliver? && e.msg.Commit?))
    ensures Next(vals, s, e).next.chain == s.chain
  {
    hide Next;
    InvHasChain(vals, s);
    hide Inv;
    if s.halted || !e.Deliver? || e.msg.sender !in vals {
      OthersStoreNothing(vals, s, e);
    } else {
      match e.msg
      case Preprepare(_, _, _) => StoredByProposal(vals, s, e.msg, e.env);
      case Prepare(_, _) => PrepareAnswer(vals, s, e.msg, e.env);
      case RoundChange(_, _) => StoredByRoundChange(vals, s, e.msg, e.env);
      case Commit(_, _, _) =>
    }
  }

  /** In every run with the engine's verdicts and without blocks from elsewhere, a ledger that starts with its
      times a period apart keeps them so. */
  lemma {:induction false} RunsKeepSpacing(vals: Validators, id: Address, states: seq<Replica>, events: seq<Event>, i: nat)
    requires IsRun(vals, id, states, events) && AllGenuine(states, events) && i < |states|
    requires forall k :: 0 <= k < |events| ==> !events[k].BlockInserted?
    requires Spaced(states[0].chain, states[0].period)
    ensures Spaced(states[i].chain, states[i].period) && ProposalFollows(states[i])
  {
    hide Next;
    if i > 0 {
      RunsKeepSpacing(vals, id, states, events, i - 1);
      RunsKeepInv(vals, id, states, events, i - 1);
      StepKeepsFollowing(vals, states[i - 1], events[i - 1]);
      StepKeepsSpacing(vals, states[i - 1], events[i - 1]);
      OnlyAcceptedIsStored(vals, states[i - 1], events[i - 1]);
      hide Inv;
    }
  }
}
