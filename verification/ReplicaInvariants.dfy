/** What every reachable replica keeps, and what holds along every run of one replica. */
module ReplicaInvariants {
  import opened Types
  import opened Quorum
  import opened ValidatorSet
  import opened Replica

  // ----- the inductive invariant

  /** Every stored prepare sits under its sender and carries the exact current view. */
  ghost predicate PreparesFit(vals: Validators, s: Replica) {
    forall a :: a in s.prepares ==>
      a in vals && s.prepares[a].Prepare? && s.prepares[a].sender == a
      && s.prepares[a].subject.view == s.CurrentView()
  }

  /** Every stored commit sits under its sender and carries the current height. */
  ghost predicate CommitsFit(vals: Validators, s: Replica) {
    forall a :: a in s.commits ==>
      a in vals && s.commits[a].Commit? && s.commits[a].sender == a
      && s.commits[a].subject.view.height == s.height
  }

  ghost predicate RoundVote(vals: Validators, height: nat, round: Round, a: Address, m: Message) {
    a in vals && m.RoundChange? && m.sender == a && m.subject.view == View(height, round)
  }

  ghost predicate RoundChangesFit(vals: Validators, s: Replica) {
    forall r, a :: r in s.roundChanges && a in s.roundChanges[r] ==>
      RoundVote(vals, s.height, r, a, s.roundChanges[r][a])
  }

  /** A phase beyond AcceptRequest has a proposal; a lock is the hash of that proposal;
      Prepared and Committed are locked, PrePrepared is not. */
  ghost predicate Coherent(s: Replica) {
    && (s.phase != AcceptRequest ==> s.preprepare.Some?)
    && (s.lock.Some? ==> s.preprepare.Some? && s.preprepare.value.hash == s.lock.value)
    && (s.phase == Prepared || s.phase == Committed ==> s.lock.Some?)
    && (s.phase == PrePrepared ==> s.lock.None?)
    && (s.phase == AcceptRequest ==> s.prepares == map[] && s.commits == map[])
  }

  ghost predicate Inv(vals: Validators, s: Replica) {
    && s.chain != [] && 0 < s.height <= |s.chain| && s.proposer.Some?
    && Coherent(s)
    && PreparesFit(vals, s) && CommitsFit(vals, s) && RoundChangesFit(vals, s)
  }

  lemma StartHasInv(vals: Validators, id: Address, period: Time, chain: seq<Entry>)
    requires chain != []
    ensures Inv(vals, Start(vals, id, period, chain))
  {
    FirstProposer(chain[|chain| - 1].hash, vals);
  }

  lemma RoundChangeSendKeepsInv(vals: Validators, s: Replica, round: Round, throttled: bool)
    requires Inv(vals, s)
    ensures Inv(vals, SendRoundChange(s, round, throttled).0)
  {
    var t := SendRoundChange(s, round, throttled).0;
    assert t == s || t == s.(waiting := true);
  }

  lemma NextRoundChangeKeepsInv(vals: Validators, s: Replica, env: Env, result: Result)
    requires Inv(vals, s)
    ensures Inv(vals, SendNextRoundChange(s, env, result).next)
  {
    if s.round == MAX_ROUND {
      assert Inv(vals, s.(halted := true));
    } else {
      var max := ScanMax(s.roundChanges, env.order).0;
      RoundChangeSendKeepsInv(vals, s, if max <= s.round then s.round + 1 else max, env.throttled);
    }
  }

  lemma ProposalKeepsInv(vals: Validators, s: Replica, m: Message, env: Env)
    requires Inv(vals, s) && m.Preprepare?
    ensures Inv(vals, AcceptProposal(vals, s, m, env).next)
  {
    NextRoundChangeKeepsInv(vals, s, env, Err(Unknown));
    NextRoundChangeKeepsInv(vals, s, env, Ok);
    hide SendNextRoundChange;
    assert Inv(vals, s.(halted := true));
    if s.phase == AcceptRequest && (s.lock.None? || s.lock == Some(m.proposal.hash)) {
      StoringKeepsInv(vals, s, m.proposal);
    }
    hide Inv;
  }

  lemma StoringKeepsInv(vals: Validators, s: Replica, block: Block)
    requires Inv(vals, s) && s.phase == AcceptRequest && (s.lock.None? || s.lock == Some(block.hash))
    ensures Inv(vals, s.(preprepare := Some(block), phase := if s.lock.None? then PrePrepared else Prepared))
  {
  }

  lemma PreprepareKeepsInv(vals: Validators, s: Replica, m: Message, env: Env)
    requires Inv(vals, s) && m.Preprepare?
    ensures Inv(vals, HandlePreprepare(vals, s, m, env).next)
  {
    ProposalKeepsInv(vals, s, m, env);
    hide AcceptProposal;
    assert Inv(vals, s.(halted := true));
  }

  lemma PrepareKeepsInv(vals: Validators, s: Replica, m: Message)
    requires Inv(vals, s) && m.Prepare?
    ensures Inv(vals, HandlePrepare(vals, s, m).next)
  {
    hide AcceptPrepare;
    if CheckMessage(s, PrepareCode, m.subject.view) == Ok && m.subject.view == s.CurrentView() && m.sender in vals {
      var t := s.(prepares := s.prepares[m.sender := m]);
      assert Inv(vals, t);
      PrepareEffect(vals, t, m);
      assert Inv(vals, t.(lock := Some(t.preprepare.value.hash), phase := Prepared));
    }
  }

  /** A validator's prepare for the current view is stored and accepted. */
  lemma PrepareIsAccepted(vals: Validators, s: Replica, m: Message, env: Env)
    requires s.chain != [] && !s.halted && s.height > 0 && s.phase != AcceptRequest
    requires m.Prepare? && m.sender in vals && m.subject.view == s.CurrentView()
    ensures Next(vals, s, Deliver(m, env)) == AcceptPrepare(vals, s.(prepares := s.prepares[m.sender := m]), m)
  {
    hide AcceptPrepare;
  }

  /** A validator's sealed commit for the current height is stored and accepted, whatever its digest and
      whoever sealed it. */
  lemma CommitIsAccepted(vals: Validators, s: Replica, m: Message, env: Env)
    requires s.chain != [] && !s.halted && s.height > 0 && s.phase != AcceptRequest && s.preprepare.Some?
    requires m.Commit? && m.sender in vals && m.subject.view.height == s.height
    requires Sealed(m)
    ensures Next(vals, s, Deliver(m, env)) == AcceptCommit(vals, s.(commits := s.commits[m.sender := m]))
  {
    hide AcceptCommit;
  }

  /** What accepting a prepare amounts to: at most a lock on the stored proposal and a vote for it. */
  lemma PrepareEffect(vals: Validators, s: Replica, m: Message)
    requires m.Prepare? && s.preprepare.Some? && Coherent(s)
    ensures var step := AcceptPrepare(vals, s, m);
            var digest := s.preprepare.value.hash;
            && step.result == Ok && step.decided == None
            && (step.next == s || step.next == s.(lock := Some(digest), phase := Prepared))
            && (forall v :: v in step.sent ==> v == CommitVote(s.id, s.CurrentView(), digest) && step.next.lock == Some(digest))
            && (step.next.lock != s.lock ==> PrepareOrCommitSize(s) >= Threshold(|vals|))
  {
    hide PrepareOrCommitSize;
    LockAndVoteEffect(s);
    LockAndVoteEffect(s.(lock := Some(s.preprepare.value.hash), phase := Prepared));
    SizeIgnoresLock(s);
    hide LockAndVote;
  }

  lemma LockAndVoteEffect(s: Replica)
    requires s.preprepare.Some?
    ensures var digest := s.preprepare.value.hash;
            LockAndVote(s) == Step(s.(lock := Some(digest), phase := Prepared), Ok,
                                   [CommitVote(s.id, s.CurrentView(), digest)], None)
  {
  }

  lemma SizeIgnoresLock(s: Replica)
    requires s.preprepare.Some?
    ensures PrepareOrCommitSize(s.(lock := Some(s.preprepare.value.hash), phase := Prepared)) == PrepareOrCommitSize(s)
  {
  }

  lemma AcceptCommitKeepsInv(vals: Validators, s: Replica)
    requires Inv(vals, s)
    ensures Inv(vals, AcceptCommit(vals, s).next)
  {
    if s.preprepare.Some? {
      CommitEffect(vals, s);
      DecidingKeepsInv(vals, s);
      hide Inv;
      hide AcceptCommit;
    } else {
      hide PreparesFit;
      hide RoundChangesFit;
      assert s.phase == AcceptRequest && s.commits == map[];
    }
  }

  lemma DecidingKeepsInv(vals: Validators, s: Replica)
    requires Inv(vals, s) && s.preprepare.Some?
    ensures var block := s.preprepare.value;
            Inv(vals, s.(lock := Some(block.hash), phase := Committed, chain := InsertBlock(s.chain, block),
                         halted := s.halted || FailsToLog(s, block))) || s.phase == AcceptRequest
  {
  }

  lemma CommitKeepsInv(vals: Validators, s: Replica, m: Message)
    requires Inv(vals, s) && m.Commit?
    ensures Inv(vals, HandleCommit(vals, s, m).next)
  {
    hide AcceptCommit;
    if CheckMessage(s, CommitCode, m.subject.view) == Ok && m.sender in vals {
      var t := s.(commits := s.commits[m.sender := m]);
      assert Inv(vals, t);
      AcceptCommitKeepsInv(vals, t);
    }
  }

  lemma AddKeepsInv(vals: Validators, s: Replica, m: Message)
    requires Inv(vals, s) && m.RoundChange? && m.subject.view.height == s.height
    ensures Inv(vals, AddRoundChange(s, m, vals))
  {
    var t := AddRoundChange(s, m, vals);
    forall r, a | r in t.roundChanges && a in t.roundChanges[r]
      ensures RoundVote(vals, t.height, r, a, t.roundChanges[r][a])
    {
      if r in s.roundChanges && a in s.roundChanges[r] {
        assert RoundVote(vals, s.height, r, a, s.roundChanges[r][a]);
      }
    }
    assert PreparesFit(vals, t) && CommitsFit(vals, t);
  }

  lemma NewRoundKeepsInv(vals: Validators, s: Replica, round: Round)
    requires Inv(vals, s)
    ensures Inv(vals, StartNewRound(vals, s, round).next)
  {
    assert Inv(vals, s.(halted := true));
    if NextProposer(vals, s, round).Some? {
      assert Inv(vals, EnterRound(vals, s, round));
      assert Inv(vals, EnterRound(vals, s, round).(halted := true));
    }
    hide SelectProposer;
  }

  lemma RoundChangeKeepsInv(vals: Validators, s: Replica, m: Message, env: Env)
    requires Inv(vals, s) && m.RoundChange?
    ensures Inv(vals, HandleRoundChange(vals, s, m, env).next)
  {
    var round := m.subject.view.round;
    if CheckMessage(s, RoundChangeCode, m.subject.view) == Ok {
      RoundChangeSendKeepsInv(vals, s, round, env.throttled);
      AddKeepsInv(vals, s, m);
      var t := AddRoundChange(s, m, vals);
      RoundChangeSendKeepsInv(vals, t, round, env.throttled);
      NewRoundKeepsInv(vals, SendRoundChange(t, round, env.throttled).0, round);
    }
  }

  lemma TimeoutKeepsInv(vals: Validators, s: Replica, env: Env)
    requires Inv(vals, s)
    ensures Inv(vals, HandleTimeout(s, env).next)
  {
    NextRoundChangeKeepsInv(vals, s, env, Ok);
    assert Inv(vals, s.(waiting := false));
  }

  /** Every event keeps the invariant, whatever the message, verdict, limiter and table order. */
  lemma NextKeepsInv(vals: Validators, s: Replica, e: Event)
    requires Inv(vals, s)
    ensures Inv(vals, Next(vals, s, e).next)
  {
    hide HandlePreprepare;
    hide HandlePrepare;
    hide HandleCommit;
    hide HandleRoundChange;
    hide HandleTimeout;
    if e.BlockInserted? {
      assert Inv(vals, s.(chain := s.chain + [e.entry]));
    } else if !s.halted {
      match e
      case NewHeader(block) => FirstProposer(s.LastHash(), vals);
      case Deliver(m, env) =>
        match m {
          case Preprepare(_, _, _) => PreprepareKeepsInv(vals, s, m, env);
          case Prepare(_, _) => PrepareKeepsInv(vals, s, m);
          case Commit(_, _, _) => CommitKeepsInv(vals, s, m);
          case RoundChange(_, _) => RoundChangeKeepsInv(vals, s, m, env);
        }
      case Timeout(env) => TimeoutKeepsInv(vals, s, env);
      case FinalCommitted =>
        assert Inv(vals, s.(waiting := false));
    }
  }

  // ----- panics

  /** The validators whose votes for a round are in the table. */
  function VotersFor(s: Replica, round: Round): set<Address> {
    if round in s.roundChanges then s.roundChanges[round].Keys else {}
  }

  /** The delivered vote completes a quorum for a later round, and the ledger is not ahead of the view. */
  ghost predicate CompletesRound(vals: Validators, s: Replica, e: Event) {
    && e.Deliver? && e.msg.RoundChange? && e.msg.sender in vals && |s.chain| - 1 <= s.height
    && e.msg.subject.view.height == s.height && e.msg.subject.view.round > s.round
    && |VotersFor(s, e.msg.subject.view.round) + {e.msg.sender}| >= Threshold(|vals|)
  }

  /** Tallying a validator's vote counts each voter once. */
  lemma TallyCounts(vals: Validators, s: Replica, m: Message)
    requires m.RoundChange? && m.sender in vals
    ensures VoteCount(AddRoundChange(s, m, vals).roundChanges, m.subject.view.round)
            == |VotersFor(s, m.subject.view.round) + {m.sender}|
  {
    var votes := AddRoundChange(s, m, vals).roundChanges[m.subject.view.round];
    assert votes.Keys == VotersFor(s, m.subject.view.round) + {m.sender};
    assert |votes| == |votes.Keys|;
  }

  function NextProposer(vals: Validators, s: Replica, round: Round): Option<Address>
    requires s.chain != []
  {
    SelectProposer(s.LastHash(), round, vals)
  }

  /** The pending request is missing although this replica must propose in the round
      that the delivered vote completes. */
  ghost predicate ProposesWithoutRequest(vals: Validators, s: Replica, e: Event)
    requires s.chain != []
  {
    && CompletesRound(vals, s, e) && NextProposer(vals, s, e.msg.subject.view.round) == Some(s.id)
    && s.lock.None? && s.pending.None?
  }

  /** The round that the delivered vote completes is too large for the proposer selection. */
  ghost predicate RoundOverflows(vals: Validators, s: Replica, e: Event)
    requires s.chain != []
  {
    CompletesRound(vals, s, e) && NextProposer(vals, s, e.msg.subject.view.round).None?
  }

  /** A stored proposal of an older view on which the arithmetic of the reply fails. */
  predicate OldProposalBreaks(vals: Validators, s: Replica, e: Event) {
    && e.Deliver? && e.msg.Preprepare? && e.msg.sender in vals
    && 0 < e.msg.view.height < s.height
    && e.msg.proposal.height < |s.chain| && s.chain[e.msg.proposal.height].hash == e.msg.proposal.hash
    && (e.msg.proposal.height == 0 || RandomSeed(e.msg.proposal.prevHash, |vals|) + e.msg.view.round >= U64)
  }

  /** A proposal that gets as far as the engine. */
  predicate Considered(vals: Validators, s: Replica, e: Event) {
    && e.Deliver? && e.msg.Preprepare? && e.msg.sender in vals && s.IsProposer(e.msg.sender) && 0 < e.msg.view.height
    && (e.msg.view.height < s.height ==>
          && 0 < e.msg.proposal.height < |s.chain| && s.chain[e.msg.proposal.height].hash == e.msg.proposal.hash
          && RandomSeed(e.msg.proposal.prevHash, |vals|) + e.msg.view.round < U64)
  }

  /** A proposal on which the engine dies: without a transaction root, or on a stored parent whose time is
      too late to add the period to. */
  predicate EngineBreaks(vals: Validators, s: Replica, e: Event) {
    && Considered(vals, s, e)
    && var block := e.msg.proposal;
    || block.txs == NoRoot
    || (&& block.txs == TxsFit && 0 < block.height <= |s.chain| && s.chain[block.height - 1].hash == block.prevHash
        && s.chain[block.height - 1].time + s.period >= U64)
  }

  /** A timeout at the height, a rejected proposal, or one that contradicts the lock. */
  predicate WantsNextRound(vals: Validators, s: Replica, e: Event) {
    || (e.Timeout? && |s.chain| - 1 < s.height)
    || (Considered(vals, s, e)
        && (e.env.verdict == Rejected
            || (e.env.verdict == Acceptable && s.phase == AcceptRequest && s.lock.Some? && e.msg.proposal.hash != s.lock.value)))
  }

  /** There is no round after the last one. */
  predicate RoundsExhausted(vals: Validators, s: Replica, e: Event) {
    s.round == MAX_ROUND && WantsNextRound(vals, s, e)
  }

  /** The commit that completes the quorum for a block whose date cannot be logged. */
  predicate CommitBreaks(vals: Validators, s: Replica, e: Event) {
    && e.Deliver? && e.msg.Commit? && e.msg.sender in vals && e.msg.subject.view.height == s.height
    && e.msg.seal.Some? && e.msg.seal.value.Seal?
    && (s.phase == PrePrepared || s.phase == Prepared) && |s.commits[e.msg.sender := e.msg]| >= Threshold(|vals|)
    && s.preprepare.Some? && s.preprepare.value.height == |s.chain| && !s.preprepare.value.datable
  }

  /** All events on which a running replica dies. */
  ghost predicate Panics(vals: Validators, s: Replica, e: Event)
    requires s.chain != []
  {
    || ProposesWithoutRequest(vals, s, e) || RoundOverflows(vals, s, e) || OldProposalBreaks(vals, s, e)
    || EngineBreaks(vals, s, e) || RoundsExhausted(vals, s, e) || CommitBreaks(vals, s, e)
  }

  /** A step dies exactly when the condition holds, and dying is what the answer says. */
  ghost predicate DiesIff(s: Replica, step: Step, condition: bool) {
    (step.result == Panic <==> condition) && (step.next.halted <==> s.halted || condition)
  }

  lemma ProposalPanics(vals: Validators, s: Replica, m: Message, env: Env)
    requires Inv(vals, s) && m.Preprepare?
    requires Considered(vals, s, Deliver(m, env))
    ensures var e := Deliver(m, env);
            DiesIff(s, AcceptProposal(vals, s, m, env), EngineBreaks(vals, s, e) || RoundsExhausted(vals, s, e))
  {
    hide PreparesFit;
    hide CommitsFit;
    hide RoundChangesFit;
  }

  lemma PreprepareDies(vals: Validators, s: Replica, m: Message, env: Env)
    requires Inv(vals, s) && m.Preprepare? && m.sender in vals
    ensures var e := Deliver(m, env);
            DiesIff(s, HandlePreprepare(vals, s, m, env),
                    OldProposalBreaks(vals, s, e) || EngineBreaks(vals, s, e) || RoundsExhausted(vals, s, e))
  {
    hide PreparesFit;
    hide CommitsFit;
    hide RoundChangesFit;
    if Considered(vals, s, Deliver(m, env)) {
      ProposalPanics(vals, s, m, env);
      hide AcceptProposal;
    }
  }

  lemma PrepareNeverPanics(vals: Validators, s: Replica, m: Message)
    requires Inv(vals, s) && m.Prepare?
    ensures DiesIff(s, HandlePrepare(vals, s, m), false)
  {
    hide PreparesFit;
    hide CommitsFit;
    hide RoundChangesFit;
    var t := s.(prepares := s.prepares[m.sender := m]);
    if m.subject.view == s.CurrentView() && m.sender in vals && s.phase != AcceptRequest {
      PrepareEffect(vals, t, m);
      hide AcceptPrepare;
    }
  }

  lemma CommitDies(vals: Validators, s: Replica, m: Message, env: Env)
    requires Inv(vals, s) && m.Commit? && m.sender in vals
    ensures DiesIff(s, HandleCommit(vals, s, m), CommitBreaks(vals, s, Deliver(m, env)))
  {
    hide PreparesFit;
    hide CommitsFit;
    hide RoundChangesFit;
  }

  /** Starting a later round dies exactly when its proposer cannot be computed, or is this replica with
      nothing to propose. */
  lemma NewRoundPanics(vals: Validators, s: Replica, round: Round)
    requires s.chain != [] && Coherent(s) && s.height <= |s.chain| && s.round < round
    ensures var proposer := NextProposer(vals, s, round);
            DiesIff(s, StartNewRound(vals, s, round),
                    && |s.chain| - 1 <= s.height
                    && (proposer.None? || (proposer == Some(s.id) && s.lock.None? && s.pending.None?)))
  {
    hide SelectProposer;
  }

  lemma RoundChangeDies(vals: Validators, s: Replica, m: Message, env: Env)
    requires Inv(vals, s) && m.RoundChange? && m.sender in vals
    ensures var e := Deliver(m, env);
            DiesIff(s, HandleRoundChange(vals, s, m, env), ProposesWithoutRequest(vals, s, e) || RoundOverflows(vals, s, e))
  {
    hide PreparesFit;
    hide CommitsFit;
    hide RoundChangesFit;
    hide SelectProposer;
    TallyCounts(vals, s, m);
    if s.round < m.subject.view.round {
      EntryDies(vals, s, AddRoundChange(s, m, vals), m.subject.view.round, env.throttled);
    }
    hide VoteAndEnter;
    hide TallyVote;
  }

  lemma EntryDies(vals: Validators, s: Replica, t: Replica, round: Round, throttled: bool)
    requires Inv(vals, s) && t == s.(roundChanges := t.roundChanges) && s.round < round
    ensures var proposer := NextProposer(vals, s, round);
            DiesIff(s, VoteAndEnter(vals, t, round, throttled),
                    && |s.chain| - 1 <= s.height
                    && (proposer.None? || (proposer == Some(s.id) && s.lock.None? && s.pending.None?)))
  {
    hide PreparesFit;
    hide CommitsFit;
    hide RoundChangesFit;
    hide SelectProposer;
    var (u, _) := SendRoundChange(t, round, throttled);
    NewRoundPanics(vals, u, round);
    hide StartNewRound;
  }

  /** A running replica dies exactly on these events: the assertions of the round functions hold, and so do
      all unwraps of proposal and subject. */
  lemma PanicsIff(vals: Validators, s: Replica, e: Event)
    requires Inv(vals, s) && !s.halted
    ensures DiesIff(s, Next(vals, s, e), Panics(vals, s, e))
  {
    hide PreparesFit;
    hide CommitsFit;
    hide RoundChangesFit;
    hide HandlePreprepare;
    hide HandlePrepare;
    hide HandleCommit;
    hide HandleRoundChange;
    hide AddRoundChange;
    if e.Deliver? && e.msg.sender in vals {
      match e.msg
      case Preprepare(_, _, _) => PreprepareDies(vals, s, e.msg, e.env);
      case Prepare(_, _) => PrepareNeverPanics(vals, s, e.msg);
      case Commit(_, _, _) => CommitDies(vals, s, e.msg, e.env);
      case RoundChange(_, _) => RoundChangeDies(vals, s, e.msg, e.env);
    } else {
      OthersDie(vals, s, e);
    }
  }

  /** Of the other events only a timeout can kill, in the last round. */
  lemma OthersDie(vals: Validators, s: Replica, e: Event)
    requires Inv(vals, s) && !s.halted && !(e.Deliver? && e.msg.sender in vals)
    ensures DiesIff(s, Next(vals, s, e), e.Timeout? && |s.chain| - 1 < s.height && s.round == MAX_ROUND)
  {
    hide PreparesFit;
    hide CommitsFit;
    hide RoundChangesFit;
    hide SelectProposer;
    hide HandlePreprepare;
    hide HandlePrepare;
    hide HandleCommit;
    hide HandleRoundChange;
  }

  // ----- what one step may do

  /** Everything sent is signed by the replica. A commit is a reply about an older height,
      or it votes in the current view for the hash the replica is locked on. */
  ghost predicate VotesFollowLock(s: Replica, step: Step) {
    forall m :: m in step.sent ==>
      && m.sender == s.id
      && (m.Commit? && m.subject.view.height >= s.height ==>
            m == CommitVote(s.id, s.CurrentView(), m.subject.digest)
            && step.next.height == s.height && step.next.lock == Some(m.subject.digest))
  }

  ghost predicate LockStays(s: Replica, step: Step) {
    step.next.height == s.height && s.lock.Some? ==> step.next.lock == s.lock
  }

  /** A lock is taken on the word of a quorum of validators. */
  ghost predicate LockHasEvidence(vals: Validators, s: Replica, step: Step) {
    s.lock.None? && step.next.lock.Some? ==> PrepareOrCommitSize(step.next) >= Threshold(|vals|)
  }

  ghost predicate DecisionFits(vals: Validators, s: Replica, step: Step) {
    step.decided.Some? ==>
      && step.next.lock.Some? && step.next.height == s.height && |step.next.commits| >= Threshold(|vals|)
      && step.decided.value == Decision(s.id, s.height, step.next.lock.value, step.next.commits)
  }

  /** Stored votes come from the previous state or from the delivered message. */
  ghost predicate StoresOnly(s: Replica, step: Step, input: Option<Message>) {
    var t := step.next;
    && (forall a :: a in t.prepares ==> (a in s.prepares && t.prepares[a] == s.prepares[a]) || Some(t.prepares[a]) == input)
    && (forall a :: a in t.commits ==> (a in s.commits && t.commits[a] == s.commits[a]) || Some(t.commits[a]) == input)
    && (forall r, a :: r in t.roundChanges && a in t.roundChanges[r] ==>
          (r in s.roundChanges && a in s.roundChanges[r] && t.roundChanges[r][a] == s.roundChanges[r][a])
          || Some(t.roundChanges[r][a]) == input)
  }

  ghost predicate StepFacts(vals: Validators, s: Replica, step: Step, input: Option<Message>) {
    && step.next.id == s.id && s.chain <= step.next.chain
    && VotesFollowLock(s, step) && LockStays(s, step) && LockHasEvidence(vals, s, step)
    && DecisionFits(vals, s, step) && StoresOnly(s, step, input)
  }

  /** Steps that touch neither the votes nor the lock. */
  ghost predicate Bystander(s: Replica, t: Replica) {
    && t.id == s.id && t.chain == s.chain && t.height == s.height && t.round == s.round && t.lock == s.lock
    && t.prepares == s.prepares && t.commits == s.commits && t.roundChanges == s.roundChanges
  }

  lemma BystanderFacts(vals: Validators, s: Replica, step: Step, input: Option<Message>)
    requires Bystander(s, step.next) && step.decided.None? && VotesFollowLock(s, step)
    ensures StepFacts(vals, s, step, input)
  {
  }

  lemma NextRoundChangeFacts(s: Replica, env: Env, result: Result)
    ensures var step := SendNextRoundChange(s, env, result);
            && Bystander(s, step.next) && step.decided.None?
            && forall m :: m in step.sent ==> m.RoundChange? && m.sender == s.id
  {
  }

  lemma ProposalFacts(vals: Validators, s: Replica, m: Message, env: Env)
    requires Inv(vals, s) && m.Preprepare?
    ensures var step := AcceptProposal(vals, s, m, env);
            Bystander(s, step.next) && step.decided.None? && VotesFollowLock(s, step)
  {
    hide PreparesFit;
    hide CommitsFit;
    hide RoundChangesFit;
    NextRoundChangeFacts(s, env, Ok);
    NextRoundChangeFacts(s, env, Err(Unknown));
    hide SendNextRoundChange;
    hide EngineFails;
    if s.phase == AcceptRequest && (s.lock.None? || s.lock == Some(m.proposal.hash)) {
      StoringFacts(s, m.proposal);
      hide SendPrepare;
      hide SendCommit;
    }
  }

  /** What storing a proposal amounts to: a prepare without a lock, a vote with it. */
  lemma StoringFacts(s: Replica, block: Block)
    requires s.phase == AcceptRequest && (s.lock.None? || s.lock == Some(block.hash))
    ensures var step := if s.lock.None? then SendPrepare(s.(preprepare := Some(block), phase := PrePrepared))
                        else SendCommit(s.(preprepare := Some(block), phase := Prepared));
            Bystander(s, step.next) && step.decided.None? && VotesFollowLock(s, step)
  {
  }

  lemma PreprepareFacts(vals: Validators, s: Replica, m: Message, env: Env)
    requires Inv(vals, s) && m.Preprepare?
    ensures StepFacts(vals, s, HandlePreprepare(vals, s, m, env), Some(m))
    ensures Bystander(s, HandlePreprepare(vals, s, m, env).next)
  {
    ProposalFacts(vals, s, m, env);
    hide AcceptProposal;
    hide Inv;
    hide SelectProposer;
    var step := HandlePreprepare(vals, s, m, env);
    if CheckMessage(s, PreprepareCode, m.view) == Err(OldMessage) {
      OldProposalFacts(vals, s, m, env);
    }
    hide IsStored;
    BystanderFacts(vals, s, step, Some(m));
  }

  /** A reply about an older height does not touch the lock. */
  lemma OldProposalFacts(vals: Validators, s: Replica, m: Message, env: Env)
    requires m.Preprepare? && CheckMessage(s, PreprepareCode, m.view) == Err(OldMessage)
    requires var step := AcceptProposal(vals, s, m, env);
             Bystander(s, step.next) && step.decided.None? && VotesFollowLock(s, step)
    ensures var step := HandlePreprepare(vals, s, m, env);
            Bystander(s, step.next) && step.decided.None? && VotesFollowLock(s, step)
  {
    hide AcceptProposal;
    hide SelectProposer;
  }

  lemma AcceptedPrepareFacts(vals: Validators, s: Replica, t: Replica, m: Message)
    requires Inv(vals, s) && m.Prepare? && s.phase != AcceptRequest
    requires m.subject.view == s.CurrentView() && m.sender in vals
    requires t == s.(prepares := s.prepares[m.sender := m])
    ensures StepFacts(vals, s, AcceptPrepare(vals, t, m), Some(m))
    ensures AcceptPrepare(vals, t, m).next.CurrentView() == s.CurrentView()
    ensures AcceptPrepare(vals, t, m).next.roundChanges == s.roundChanges
  {
    assert Inv(vals, t);
    PrepareEffect(vals, t, m);
    var step := AcceptPrepare(vals, t, m);
    var u := t.(lock := Some(t.preprepare.value.hash), phase := Prepared);
    assert step.next == t || step.next == u;
    assert VotesFollowLock(s, step);
    assert StoresOnly(s, step, Some(m));
  }

  lemma PrepareFacts(vals: Validators, s: Replica, m: Message)
    requires Inv(vals, s) && m.Prepare?
    ensures StepFacts(vals, s, HandlePrepare(vals, s, m), Some(m))
    ensures HandlePrepare(vals, s, m).next.CurrentView() == s.CurrentView()
    ensures HandlePrepare(vals, s, m).next.roundChanges == s.roundChanges
  {
    hide StepFacts;
    hide AcceptPrepare;
    hide PreparesFit;
    hide CommitsFit;
    hide RoundChangesFit;
    if m.subject.view == s.CurrentView() && m.sender in vals && s.phase != AcceptRequest {
      AcceptedPrepareFacts(vals, s, s.(prepares := s.prepares[m.sender := m]), m);
    } else {
      BystanderFacts(vals, s, HandlePrepare(vals, s, m), Some(m));
    }
  }

  /** What accepting a commit amounts to. */
  lemma CommitEffect(vals: Validators, s: Replica)
    requires s.preprepare.Some?
    ensures var digest := s.preprepare.value.hash;
            AcceptCommit(vals, s) ==
            if |s.commits| > TwoThirds(|vals|) && s.phase != Committed
            then var dies := FailsToLog(s, s.preprepare.value);
                 Step(s.(lock := Some(digest), phase := Committed, chain := InsertBlock(s.chain, s.preprepare.value),
                         halted := s.halted || dies),
                      if dies then Panic else Ok, [], Some(Decision(s.id, s.height, digest, s.commits)))
            else Quiet(s, Ok)
  {
  }

  lemma CommitFacts(vals: Validators, s: Replica, m: Message)
    requires Inv(vals, s) && m.Commit?
    ensures StepFacts(vals, s, HandleCommit(vals, s, m), Some(m))
    ensures HandleCommit(vals, s, m).next.CurrentView() == s.CurrentView()
    ensures HandleCommit(vals, s, m).next.roundChanges == s.roundChanges
  {
    var step := HandleCommit(vals, s, m);
    if step == Quiet(s, step.result) || s.preprepare.None? {
      BystanderFacts(vals, s, step, Some(m));
    } else {
      AcceptedCommitFacts(vals, s, s.(commits := s.commits[m.sender := m]), m);
    }
  }

  lemma AcceptedCommitFacts(vals: Validators, s: Replica, t: Replica, m: Message)
    requires Inv(vals, s) && m.Commit? && s.preprepare.Some?
    requires t == s.(commits := s.commits[m.sender := m])
    ensures StepFacts(vals, s, AcceptCommit(vals, t), Some(m))
    ensures AcceptCommit(vals, t).next.CurrentView() == s.CurrentView()
    ensures AcceptCommit(vals, t).next.roundChanges == s.roundChanges
  {
    hide PreparesFit;
    hide CommitsFit;
    hide RoundChangesFit;
    hide PrepareOrCommitSize;
    CommitEffect(vals, t);
    hide AcceptCommit;
    CommitsAreEvidence(t);
    CommitsAreEvidence(AcceptCommit(vals, t).next);
  }

  lemma CommitsAreEvidence(s: Replica)
    ensures PrepareOrCommitSize(s) >= |s.commits|
  {
    SubsetSize(s.commits.Keys, s.prepares.Keys + s.commits.Keys);
    assert |s.commits| == |s.commits.Keys|;
  }

  /** Starting a round leaves the replica alone, or clears its votes and keeps its lock. */
  lemma NewRoundFacts(vals: Validators, s: Replica, round: Round)
    requires s.chain != []
    ensures var step := StartNewRound(vals, s, round);
            && step.decided.None?
            && (forall m :: m in step.sent ==> m.Preprepare? && m.sender == s.id)
            && (Bystander(s, step.next) || (round > s.round && CleanRound(s, step.next, round)))
  {
    assert CleanRound(s, EnterRound(vals, s, round), round);
  }

  ghost predicate CleanRound(s: Replica, t: Replica, round: Round) {
    && t.id == s.id && t.chain == s.chain && t.height == s.height && t.lock == s.lock && t.round == round
    && t.prepares == map[] && t.commits == map[] && t.roundChanges == map[]
  }

  lemma NewRoundAfterVote(vals: Validators, s: Replica, m: Message, env: Env)
    requires Inv(vals, s) && m.RoundChange?
    ensures var step := VoteAndEnter(vals, AddRoundChange(s, m, vals), m.subject.view.round, env.throttled);
            StepFacts(vals, s, step, Some(m)) && step.next.height == s.height
  {
    hide PreparesFit;
    hide CommitsFit;
    hide RoundChangesFit;
    var round := m.subject.view.round;
    var t := AddRoundChange(s, m, vals);
    var (u, out) := SendRoundChange(t, round, env.throttled);
    assert Bystander(t, u);
    NewRoundFacts(vals, u, round);
    hide StartNewRound;
    var step := VoteAndEnter(vals, t, round, env.throttled);
    assert Bystander(t, step.next) || (round > t.round && CleanRound(t, step.next, round));
    AfterTally(vals, s, m, step);
  }

  lemma AfterTally(vals: Validators, s: Replica, m: Message, step: Step)
    requires m.RoundChange? && step.decided.None? && forall x :: x in step.sent ==> x.sender == s.id && !x.Commit?
    requires var t, round := AddRoundChange(s, m, vals), m.subject.view.round;
             Bystander(t, step.next) || (round > t.round && CleanRound(t, step.next, round))
    ensures StepFacts(vals, s, step, Some(m))
  {
    assert StoresOnly(s, Quiet(AddRoundChange(s, m, vals), Ok), Some(m));
  }

  lemma RoundChangeFacts(vals: Validators, s: Replica, m: Message, env: Env)
    requires Inv(vals, s) && m.RoundChange?
    ensures StepFacts(vals, s, HandleRoundChange(vals, s, m, env), Some(m))
    ensures HandleRoundChange(vals, s, m, env).next.height == s.height
  {
    hide PreparesFit;
    hide CommitsFit;
    hide RoundChangesFit;
    var step := HandleRoundChange(vals, s, m, env);
    var round := m.subject.view.round;
    if CheckMessage(s, RoundChangeCode, m.subject.view) != Ok || (s.round > round && round > 0) {
      BystanderFacts(vals, s, step, Some(m));
    } else {
      if step == Quiet(AddRoundChange(s, m, vals), step.result) {
        TallyFacts(vals, s, m, step.result);
      } else {
        NewRoundAfterVote(vals, s, m, env);
      }
    }
  }

  lemma TallyFacts(vals: Validators, s: Replica, m: Message, result: Result)
    requires Inv(vals, s) && m.RoundChange?
    ensures StepFacts(vals, s, Quiet(AddRoundChange(s, m, vals), result), Some(m))
  {
    var t := AddRoundChange(s, m, vals);
    assert StoresOnly(s, Quiet(t, result), Some(m));
  }

  /** The one event that can drop a lock inside a height. */
  predicate LockedReset(s: Replica, e: Event) {
    e.NewHeader? && !s.halted && s.lock.Some? && |s.chain| == s.height
  }

  function InputOf(e: Event): Option<Message> {
    if e.Deliver? then Some(e.msg) else None
  }

  lemma NextFacts(vals: Validators, s: Replica, e: Event)
    requires Inv(vals, s) && !LockedReset(s, e)
    ensures StepFacts(vals, s, Next(vals, s, e), InputOf(e))
  {
    if e.Deliver? && !s.halted && e.msg.sender in vals {
      match e.msg
      case Preprepare(_, _, _) => PreprepareFacts(vals, s, e.msg, e.env);
      case Prepare(_, _) => PrepareFacts(vals, s, e.msg);
      case Commit(_, _, _) => CommitFacts(vals, s, e.msg);
      case RoundChange(_, _) => RoundChangeFacts(vals, s, e.msg, e.env);
    } else if e.NewHeader? && !s.halted {
      NewHeaderFacts(vals, s, e.proposal);
    } else {
      OtherFacts(vals, s, e);
    }
  }

  lemma NewHeaderFacts(vals: Validators, s: Replica, block: Block)
    requires Inv(vals, s) && !(s.lock.Some? && |s.chain| == s.height)
    ensures StepFacts(vals, s, HandleRequest(StartNewZeroRound(vals, s), block), None)
  {
    hide PreparesFit;
    hide CommitsFit;
    hide RoundChangesFit;
  }

  lemma OtherFacts(vals: Validators, s: Replica, e: Event)
    requires Inv(vals, s)
    requires s.halted || !e.NewHeader?
    requires s.halted || !(e.Deliver? && e.msg.sender in vals)
    ensures StepFacts(vals, s, Next(vals, s, e), InputOf(e))
  {
    hide PreparesFit;
    hide CommitsFit;
    hide RoundChangesFit;
    hide HandlePreprepare;
    hide HandlePrepare;
    hide HandleCommit;
    hide HandleRoundChange;
    if e.Timeout? && !s.halted {
      TimeoutFacts(vals, s, e.env);
    } else {
      hide HandleTimeout;
      if !e.BlockInserted? {
        BystanderFacts(vals, s, Next(vals, s, e), InputOf(e));
      }
    }
  }

  lemma TimeoutFacts(vals: Validators, s: Replica, env: Env)
    requires s.chain != []
    ensures StepFacts(vals, s, HandleTimeout(s, env), None)
    ensures forall m :: m in HandleTimeout(s, env).sent ==> !m.Commit?
  {
    NextRoundChangeFacts(s, env, Ok);
    hide SendNextRoundChange;
    BystanderFacts(vals, s, HandleTimeout(s, env), None);
  }

  // ----- which commits are counted

  /** A validator's commit for the current height, after a proposal, with a seal that some signer made. */
  predicate Countable(vals: Validators, s: Replica, m: Message) {
    && !s.halted && m.Commit? && m.sender in vals && m.subject.view.height == s.height && s.phase != AcceptRequest
    && m.seal.Some? && m.seal.value.Seal?
  }

  ghost predicate Counted(s: Replica, m: Message) {
    m.sender in s.commits && s.commits[m.sender] == m
  }

  /** The counted commits of all others are the same. */
  ghost predicate SameButFrom(s: Replica, t: Replica, sender: Address) {
    forall a :: a != sender ==>
      (a in t.commits <==> a in s.commits) && (a in t.commits ==> t.commits[a] == s.commits[a])
  }

  /** A delivered commit is counted if and only if it is countable or was counted before; its round, its digest and
      the maker of its seal play no part, and nobody else's commit is touched. */
  lemma CountedIff(vals: Validators, s: Replica, m: Message, env: Env)
    requires Inv(vals, s) && m.Commit?
    ensures var t := Next(vals, s, Deliver(m, env)).next;
            && (Counted(t, m) <==> Countable(vals, s, m) || Counted(s, m))
            && (!Countable(vals, s, m) ==> t.commits == s.commits)
            && SameButFrom(s, t, m.sender)
  {
    hide Next;
    if Countable(vals, s, m) {
      CountableIsCounted(vals, s, m, env);
    } else {
      OthersAreNot(vals, s, m, env);
    }
  }

  lemma CountableIsCounted(vals: Validators, s: Replica, m: Message, env: Env)
    requires Inv(vals, s) && Countable(vals, s, m)
    ensures Next(vals, s, Deliver(m, env)).next.commits == s.commits[m.sender := m]
  {
    hide PreparesFit;
    hide CommitsFit;
    hide RoundChangesFit;
    CommitIsAccepted(vals, s, m, env);
    CommitEffect(vals, s.(commits := s.commits[m.sender := m]));
    hide Next;
    hide AcceptCommit;
  }

  lemma OthersAreNot(vals: Validators, s: Replica, m: Message, env: Env)
    requires Inv(vals, s) && m.Commit? && !Countable(vals, s, m)
    ensures Next(vals, s, Deliver(m, env)).next.commits == s.commits
  {
    hide PreparesFit;
    hide CommitsFit;
    hide RoundChangesFit;
    hide AcceptCommit;
    hide HandlePreprepare;
    hide HandlePrepare;
    hide HandleRoundChange;
  }

  /** Every counted commit is sealed by its sender for its digest. */
  ghost predicate OwnSeals(s: Replica) {
    forall a :: a in s.commits ==> s.commits[a].Commit? && s.commits[a].seal == Some(Seal(a, s.commits[a].subject.digest))
  }

  /** A countable commit arrives under somebody else's seal, or a seal over something else. */
  predicate ForeignSealArrives(vals: Validators, s: Replica, e: Event) {
    e.Deliver? && Countable(vals, s, e.msg) && e.msg.seal != Some(Seal(e.msg.sender, e.msg.subject.digest))
  }

  /** Counted commits keep to their own seals if and only if no such commit arrives. */
  lemma OwnSealsStayIff(vals: Validators, s: Replica, e: Event)
    requires Inv(vals, s) && OwnSeals(s)
    ensures OwnSeals(Next(vals, s, e).next) <==> !ForeignSealArrives(vals, s, e)
  {
    if e.Deliver? && e.msg.Commit? {
      CountedIff(vals, s, e.msg, e.env);
      hide Next;
      SealsOf(vals, s, Next(vals, s, e).next, e.msg);
    } else if LockedReset(s, e) {
      ResetDropsCommits(vals, s, e);
      hide Next;
    } else {
      NextFacts(vals, s, e);
      NextKeepsInv(vals, s, e);
      hide Next;
    }
  }

  lemma SealsOf(vals: Validators, s: Replica, t: Replica, m: Message)
    requires OwnSeals(s) && m.Commit? && (Counted(t, m) <==> Countable(vals, s, m) || Counted(s, m))
    requires SameButFrom(s, t, m.sender)
    requires !Countable(vals, s, m) ==> t.commits == s.commits
    ensures OwnSeals(t) <==> !(Countable(vals, s, m) && m.seal != Some(Seal(m.sender, m.subject.digest)))
  {
  }

  lemma ResetDropsCommits(vals: Validators, s: Replica, e: Event)
    requires s.chain != [] && LockedReset(s, e)
    ensures Next(vals, s, e).next.commits == map[]
  {
    hide SelectProposer;
  }

  // ----- what a decision does to the ledger

  ghost predicate HasEntry(chain: seq<Entry>, height: nat, digest: Hash) {
    height < |chain| && chain[height].hash == digest
  }

  /** A decision is the ledger's entry at its height afterwards if and only if the decided block is the next one and has
      the decision's height, or that entry was there before: the height of a proposal is not compared with the
      view's. */
  lemma DecisionStoredIff(vals: Validators, s: Replica, e: Event)
    requires Inv(vals, s) && Next(vals, s, e).decided.Some?
    ensures s.preprepare.Some?
    ensures var (d, t) := (Next(vals, s, e).decided.value, Next(vals, s, e).next);
            HasEntry(t.chain, d.height, d.digest)
            <==> s.preprepare.value.height == d.height == |s.chain| || HasEntry(s.chain, d.height, d.digest)
  {
    OnlyCommitsDecide(vals, s, e);
    hide PreparesFit;
    hide CommitsFit;
    hide RoundChangesFit;
    var t := s.(commits := s.commits[e.msg.sender := e.msg]);
    CommitIsAccepted(vals, s, e.msg, e.env);
    CommitEffect(vals, t);
    hide Next;
    hide AcceptCommit;
  }

  lemma OnlyCommitsDecide(vals: Validators, s: Replica, e: Event)
    requires Inv(vals, s) && Next(vals, s, e).decided.Some?
    ensures e.Deliver? && e.msg.Commit? && Countable(vals, s, e.msg)
  {
    hide PreparesFit;
    hide CommitsFit;
    hide RoundChangesFit;
    if e.Deliver? && !s.halted && e.msg.sender in vals {
      match e.msg
      case Preprepare(_, _, _) =>
        ProposalFacts(vals, s, e.msg, e.env);
        hide AcceptProposal;
      case Prepare(_, _) =>
        PrepareDecidesNothing(vals, s, e.msg);
        hide HandlePrepare;
      case Commit(_, _, _) =>
      case RoundChange(_, _) =>
        var (u, _) := SendRoundChange(AddRoundChange(s, e.msg, vals), e.msg.subject.view.round, e.env.throttled);
        NewRoundFacts(vals, u, e.msg.subject.view.round);
        hide StartNewRound;
    }
  }

  lemma PrepareDecidesNothing(vals: Validators, s: Replica, m: Message)
    requires m.Prepare?
    ensures HandlePrepare(vals, s, m).decided.None?
  {
    hide PrepareOrCommitSize;
    hide SendCommit;
  }

  // ----- replies about older heights

  /** A stored proposal of an older view, from the proposer of that view: it is answered with a commit. */
  predicate RepliesToOld(vals: Validators, s: Replica, e: Event) {
    && !s.halted && e.Deliver? && e.msg.Preprepare? && e.msg.sender in vals && 0 < e.msg.view.height < s.height
    && 0 < e.msg.proposal.height < |s.chain| && s.chain[e.msg.proposal.height].hash == e.msg.proposal.hash
    && SelectProposer(e.msg.proposal.prevHash, e.msg.view.round, vals) == Some(e.msg.sender)
  }

  ghost predicate OnlyCurrentVotes(s: Replica, step: Step) {
    forall m :: m in step.sent && m.Commit? ==> m.subject.view == s.CurrentView()
  }

  lemma ProposalVotesNow(vals: Validators, s: Replica, m: Message, env: Env)
    requires m.Preprepare?
    ensures OnlyCurrentVotes(s, AcceptProposal(vals, s, m, env))
  {
    NextRoundChangeFacts(s, env, Ok);
    NextRoundChangeFacts(s, env, Err(Unknown));
    hide SendNextRoundChange;
  }

  /** Only a preprepare can bring out a commit for anything but the current view. */
  lemma OthersVoteNow(vals: Validators, s: Replica, e: Event)
    requires Inv(vals, s) && !(e.Deliver? && e.msg.Preprepare?)
    ensures OnlyCurrentVotes(s, Next(vals, s, e))
  {
    hide PreparesFit;
    hide CommitsFit;
    hide RoundChangesFit;
    if s.halted || !e.Deliver? || e.msg.sender !in vals {
      if e.Timeout? { TimeoutFacts(vals, s, e.env); }
      hide HandleTimeout;
    } else if e.msg.Prepare? {
      PrepareVotesNow(vals, s, e.msg);
      hide HandlePrepare;
    } else if e.msg.RoundChange? {
      RoundChangeVotesNow(vals, s, e.msg, e.env);
      hide HandleRoundChange;
    }
  }

  lemma PrepareVotesNow(vals: Validators, s: Replica, m: Message)
    requires Inv(vals, s) && m.Prepare?
    ensures OnlyCurrentVotes(s, HandlePrepare(vals, s, m))
  {
    hide PreparesFit;
    hide CommitsFit;
    hide RoundChangesFit;
    hide AcceptPrepare;
    hide PrepareOrCommitSize;
    if s.phase != AcceptRequest {
      AcceptedVotesNow(vals, s, s.(prepares := s.prepares[m.sender := m]), m);
    }
  }

  lemma AcceptedVotesNow(vals: Validators, s: Replica, t: Replica, m: Message)
    requires Coherent(s) && s.phase != AcceptRequest && m.Prepare? && t == s.(prepares := t.prepares)
    ensures OnlyCurrentVotes(s, AcceptPrepare(vals, t, m))
  {
    hide AcceptPrepare;
    hide PrepareOrCommitSize;
    PrepareEffect(vals, t, m);
  }

  lemma RoundChangeVotesNow(vals: Validators, s: Replica, m: Message, env: Env)
    requires Inv(vals, s) && m.RoundChange?
    ensures OnlyCurrentVotes(s, HandleRoundChange(vals, s, m, env))
  {
    var (u, _) := SendRoundChange(AddRoundChange(s, m, vals), m.subject.view.round, env.throttled);
    NewRoundFacts(vals, u, m.subject.view.round);
    hide StartNewRound;
  }

  /** A step sends a commit below its height if and only if it answers a stored old proposal, and then it sends
      this one: for the old view and the proposal's hash. */
  lemma OldReplyIff(vals: Validators, s: Replica, e: Event, m: Message)
    requires Inv(vals, s)
    ensures m in Next(vals, s, e).sent && m.Commit? && m.subject.view.height < s.height
            <==> RepliesToOld(vals, s, e) && m == CommitVote(s.id, e.msg.view, e.msg.proposal.hash)
  {
    hide PreparesFit;
    hide CommitsFit;
    hide RoundChangesFit;
    if e.Deliver? && e.msg.Preprepare? {
      ProposalVotesNow(vals, s, e.msg, e.env);
      hide AcceptProposal;
      hide SelectProposer;
    } else {
      OthersVoteNow(vals, s, e);
      hide Next;
    }
  }

  lemma ResetSendsNoVote(vals: Validators, s: Replica, e: Event)
    requires Inv(vals, s) && LockedReset(s, e)
    ensures var step := Next(vals, s, e);
            step.next.chain == s.chain && forall m :: m in step.sent ==> m.sender == s.id && !m.Commit?
  {
    hide SelectProposer;
  }

  /** A held lock survives a step inside its height if and only if the step is not
      a new header that restarts the height the replica is locked at. */
  lemma LockSurvivesIff(vals: Validators, s: Replica, e: Event)
    requires Inv(vals, s) && s.lock.Some?
    ensures LockStays(s, Next(vals, s, e)) <==> !LockedReset(s, e)
  {
    if !LockedReset(s, e) {
      NextFacts(vals, s, e);
    }
  }
}
