/** What a replica does on every event, exactly: its next state, its answer, and every message it sends, read off the
    state and the event. Together with `PanicsIff` these statements leave no event open. */
module ReplicaAnswers {
  import opened Types
  import opened Quorum
  import opened ValidatorSet
  import opened Replica
  import opened ReplicaInvariants
  import opened RoundChangeSet

  // ----- messages in the current view

  function MyPrepare(s: Replica, digest: Hash): Message {
    Prepare(s.id, Subject(View(s.height, s.round), digest))
  }

  function MyCommit(s: Replica, digest: Hash): Message {
    Commit(s.id, Subject(View(s.height, s.round), digest), Some(Seal(s.id, digest)))
  }

  function MyRoundChange(s: Replica, round: Round): Message {
    RoundChange(s.id, Subject(View(s.height, round), seq(32, _ => 0)))
  }

  /** A message, or none. */
  function Only(condition: bool, m: Message): seq<Message> {
    if condition then [m] else []
  }

  /** Why a message with this view is turned away: a stranger, no height, a later or an earlier height, or no
      proposal yet. */
  function TurnedAway(vals: Validators, s: Replica, sender: Address, view: View, needsProposal: bool): Option<ConsensusError> {
    if sender !in vals then Some(UnauthorizedAddress)
    else if view.height == 0 then Some(Unknown)
    else if view.height > s.height then Some(FutureBlockMessage(view.height))
    else if view.height < s.height then Some(OldMessage)
    else if needsProposal && s.phase == AcceptRequest then Some(FutureMessage)
    else None
  }

  // ----- prepares

  /** A validator's prepare for the current view, after a proposal, is stored. The vote for the stored proposal goes out
      once if the prepare is for the lock, and once more if prepares and commits now come from a quorum; either locks.
      Any other prepare does nothing. */
  lemma PrepareAnswer(vals: Validators, s: Replica, m: Message, env: Env)
    requires Inv(vals, s) && !s.halted && m.Prepare?
    ensures var step := Next(vals, s, Deliver(m, env));
            var away := TurnedAway(vals, s, m.sender, m.subject.view, true);
            if away.Some? then step == Step(s, Err(away.value), [], None)
            else if m.subject.view.round != s.round then step == Step(s, Err(InconsistentSubject), [], None)
            else
              && s.preprepare.Some?
              && var hash := s.preprepare.value.hash;
              var echo := s.lock == Some(m.subject.digest);
              var quorum := |s.prepares.Keys + {m.sender} + s.commits.Keys| >= Threshold(|vals|);
              step == Step(s.(prepares := s.prepares[m.sender := m],
                              lock := if echo || quorum then Some(hash) else s.lock,
                              phase := if echo || quorum then Prepared else s.phase),
                           Ok, Only(echo, MyCommit(s, hash)) + Only(quorum, MyCommit(s, hash)), None)
  {
    hide PreparesFit;
    hide CommitsFit;
    hide RoundChangesFit;
    if TurnedAway(vals, s, m.sender, m.subject.view, true).None? && m.subject.view.round == s.round {
      PrepareIsAccepted(vals, s, m, env);
      hide Next;
      AcceptedAnswer(vals, s, s.(prepares := s.prepares[m.sender := m]), m);
    } else {
      hide AcceptPrepare;
      hide HandlePreprepare;
      hide HandleCommit;
      hide HandleRoundChange;
    }
  }

  lemma AcceptedAnswer(vals: Validators, s: Replica, t: Replica, m: Message)
    requires Coherent(s) && s.preprepare.Some? && m.Prepare? && t == s.(prepares := s.prepares[m.sender := m])
    ensures var hash := s.preprepare.value.hash;
            var echo := s.lock == Some(m.subject.digest);
            var quorum := |s.prepares.Keys + {m.sender} + s.commits.Keys| >= Threshold(|vals|);
            AcceptPrepare(vals, t, m)
            == Step(t.(lock := if echo || quorum then Some(hash) else s.lock,
                       phase := if echo || quorum then Prepared else s.phase),
                    Ok, Only(echo, MyCommit(s, hash)) + Only(quorum, MyCommit(s, hash)), None)
  {
    assert t.prepares.Keys + t.commits.Keys == s.prepares.Keys + {m.sender} + s.commits.Keys;
    assert PrepareOrCommitSize(t) == |s.prepares.Keys + {m.sender} + s.commits.Keys|;
    hide PrepareOrCommitSize;
    hide Threshold;
    hide AcceptPrepare;
    var u := t.(lock := Some(s.preprepare.value.hash), phase := Prepared);
    EchoAnswer(vals, t, m);
    SizeIgnoresLock(t);
    QuorumAnswer(vals, t);
    QuorumAnswer(vals, u);
    hide LockWithQuorum;
  }

  lemma EchoAnswer(vals: Validators, t: Replica, m: Message)
    requires t.preprepare.Some? && m.Prepare?
    ensures var hash := t.preprepare.value.hash;
            var echo := t.lock == Some(m.subject.digest);
            AcceptPrepare(vals, t, m)
            == After(Only(echo, MyCommit(t, hash)),
                     LockWithQuorum(vals, if echo then t.(lock := Some(hash), phase := Prepared) else t))
  {
    LockAndVoteEffect(t);
    hide LockAndVote;
    hide LockWithQuorum;
  }

  lemma QuorumAnswer(vals: Validators, t: Replica)
    requires t.preprepare.Some?
    ensures var hash := t.preprepare.value.hash;
            var quorum := PrepareOrCommitSize(t) >= Threshold(|vals|);
            LockWithQuorum(vals, t)
            == Step(if quorum then t.(lock := Some(hash), phase := Prepared) else t, Ok, Only(quorum, MyCommit(t, hash)), None)
  {
    hide PrepareOrCommitSize;
    LockAndVoteEffect(t);
    hide LockAndVote;
  }

  // ----- commits

  /** A countable commit is stored; it decides the stored proposal if commits now come from a quorum and no decision is
      standing. A decided block that is the next one goes to the ledger, where a block without a date is fatal. Any
      other commit does nothing, and none is answered with a message. */
  lemma CommitAnswer(vals: Validators, s: Replica, m: Message, env: Env)
    requires Inv(vals, s) && !s.halted && m.Commit?
    ensures var step := Next(vals, s, Deliver(m, env));
            var away := TurnedAway(vals, s, m.sender, m.subject.view, true);
            if away.Some? then step == Step(s, Err(away.value), [], None)
            else if m.seal.None? || m.seal.value.Unrecoverable? then step == Step(s, Err(Unknown), [], None)
            else
              && s.preprepare.Some?
              && var block := s.preprepare.value;
              var commits := s.commits[m.sender := m];
              var decides := |s.commits.Keys + {m.sender}| >= Threshold(|vals|) && s.phase != Committed;
              var stores := decides && block.height == |s.chain|;
              var dies := stores && !block.datable;
              step == Step(s.(commits := commits, lock := if decides then Some(block.hash) else s.lock,
                              phase := if decides then Committed else s.phase,
                              chain := if stores then s.chain + [Entry(block.hash, block.time)] else s.chain,
                              halted := dies),
                           if dies then Panic else Ok, [],
                           if decides then Some(Decision(s.id, s.height, block.hash, commits)) else None)
  {
    hide PreparesFit;
    hide CommitsFit;
    hide RoundChangesFit;
    hide Next;
    if TurnedAway(vals, s, m.sender, m.subject.view, true).None? && Sealed(m) {
      CommitIsAccepted(vals, s, m, env);
      TakenCommit(vals, s, m);
      hide AcceptCommit;
    } else {
      Dispatched(vals, s, m, env);
      if m.sender in vals {
        RefusedCommit(vals, s, m);
      }
      hide HandleCommit;
    }
  }

  lemma TakenCommit(vals: Validators, s: Replica, m: Message)
    requires s.preprepare.Some? && !s.halted && m.Commit?
    ensures var block := s.preprepare.value;
            var commits := s.commits[m.sender := m];
            var decides := |s.commits.Keys + {m.sender}| >= Threshold(|vals|) && s.phase != Committed;
            var stores := decides && block.height == |s.chain|;
            var dies := stores && !block.datable;
            AcceptCommit(vals, s.(commits := commits))
            == Step(s.(commits := commits, lock := if decides then Some(block.hash) else s.lock,
                       phase := if decides then Committed else s.phase,
                       chain := if stores then s.chain + [Entry(block.hash, block.time)] else s.chain,
                       halted := dies),
                    if dies then Panic else Ok, [],
                    if decides then Some(Decision(s.id, s.height, block.hash, commits)) else None)
  {
    var t := s.(commits := s.commits[m.sender := m]);
    assert t.commits.Keys == s.commits.Keys + {m.sender};
    assert |t.commits| == |t.commits.Keys|;
    CommitEffect(vals, t);
    hide AcceptCommit;
  }

  lemma RefusedCommit(vals: Validators, s: Replica, m: Message)
    requires m.Commit? && m.sender in vals
    requires TurnedAway(vals, s, m.sender, m.subject.view, true).Some? || !Sealed(m)
    ensures var away := TurnedAway(vals, s, m.sender, m.subject.view, true);
            HandleCommit(vals, s, m) == Step(s, Err(if away.Some? then away.value else Unknown), [], None)
  {
    hide AcceptCommit;
  }

  /** A live replica refuses a stranger's message and gives any other to its handler. */
  lemma Dispatched(vals: Validators, s: Replica, m: Message, env: Env)
    requires s.chain != [] && !s.halted
    ensures Next(vals, s, Deliver(m, env))
            == if m.sender !in vals then Step(s, Err(UnauthorizedAddress), [], None)
               else match m
                    case Preprepare(_, _, _) => HandlePreprepare(vals, s, m, env)
                    case Prepare(_, _) => HandlePrepare(vals, s, m)
                    case Commit(_, _, _) => HandleCommit(vals, s, m)
                    case RoundChange(_, _) => HandleRoundChange(vals, s, m, env)
  {
    hide HandlePreprepare;
    hide HandlePrepare;
    hide HandleCommit;
    hide HandleRoundChange;
  }

  // ----- the vote for a next round

  /** The round that a timeout votes for: a stored later round of which every higher stored round has fewer votes;
      or the next round, if each stored later round has fewer votes than some round up to the current one. */
  ghost predicate Picks(s: Replica, round: Round) {
    var table := s.roundChanges;
    && round > s.round
    && (|| (round in table && forall q :: q in table && q > round ==> |table[q]| < |table[round]|)
        || (round == s.round + 1
            && forall q :: q in table && q > s.round ==>
                 exists p :: p in table && p <= s.round && |table[q]| < |table[p]|))
  }

  /** Whatever is picked, no most-voted round lies above it, and without votes for later rounds it is the next one. */
  lemma PickIsRobust(s: Replica, round: Round)
    requires Picks(s, round)
    ensures (forall q :: q in s.roundChanges ==> q <= s.round) ==> round == s.round + 1
    ensures forall q :: q in s.roundChanges && q > round ==>
              exists p :: p in s.roundChanges && |s.roundChanges[q]| < |s.roundChanges[p]|
  {
  }

  /** The answer of a replica that wants the next round: nothing if the limiter holds it back, and otherwise exactly one
      vote, for a picked round, and the waiting flag. */
  ghost predicate AsksForNextRound(s: Replica, env: Env, step: Step, result: Result, before: seq<Message>) {
    && step.result == result && step.decided.None?
    && (env.throttled ==> step.next == s && step.sent == before)
    && (!env.throttled ==> step.next == s.(waiting := true)
                           && exists r :: Picks(s, r) && step.sent == before + [MyRoundChange(s, r)])
  }

  lemma NextRoundIsPicked(s: Replica, env: Env, result: Result, before: seq<Message>)
    requires s.round < MAX_ROUND && Enumerates(env.order, s.roundChanges.Keys)
    ensures AsksForNextRound(s, env, After(before, SendNextRoundChange(s, env, result)), result, before)
  {
    var max := ScanMax(s.roundChanges, env.order).0;
    MaxRoundIsRobust(s.roundChanges, env.order);
    var r: Round := if max <= s.round then s.round + 1 else max;
    assert Picks(s, r) by {
      hide ScanMax;
      if max <= s.round {
        forall q | q in s.roundChanges && q > s.round
          ensures exists p :: p in s.roundChanges && p <= s.round && |s.roundChanges[q]| < |s.roundChanges[p]|
        {
          assert max in s.roundChanges && |s.roundChanges[q]| < |s.roundChanges[max]|;
        }
      }
    }
    hide Picks;
    hide ScanMax;
    assert EmptyHash() == seq(32, _ => 0);
    if env.throttled {
      assert before + [] == before;
    }
  }

  /** The picked round itself may have fewer votes than a later stored one: in round 2, with two votes for round 2 read
      before one vote for round 5, the vote is for round 3. */
  lemma PickWithoutVotes(s: Replica, env: Env, two: Votes, five: Votes)
    requires s.round == 2 && !env.throttled && env.order == [2, 5] && s.roundChanges == map[2 := two, 5 := five]
    requires |two| == 2 && |five| == 1
    ensures SendNextRoundChange(s, env, Ok).sent == [MyRoundChange(s, 3)] && 3 !in s.roundChanges
  {
    assert [2, 5][..1] == [2] && [2][..0] == [];
    assert ScanMax(s.roundChanges, []) == (0, 0);
    assert ScanMax(s.roundChanges, [2]) == (2, 2);
    assert ScanMax(s.roundChanges, [2, 5]) == (2, 2);
  }

  // ----- proposals

  /** The commit that answers a stored proposal of an older view. */
  function OldAnswer(vals: Validators, s: Replica, e: Event): seq<Message> {
    if RepliesToOld(vals, s, e)
    then [Commit(s.id, Subject(e.msg.view, e.msg.proposal.hash), Some(Seal(s.id, e.msg.proposal.hash)))] else []
  }

  /** A proposal that gets to the engine and does not kill: rejected, or against the lock, it brings out a vote for
      a next round; acceptable, it is stored and prepared without a lock, stored and voted for under its own lock,
      and ignored once a proposal is stored. An old one is answered before. */
  lemma ProposalAnswer(vals: Validators, s: Replica, m: Message, env: Env)
    requires Inv(vals, s) && !s.halted && m.Preprepare? && Considered(vals, s, Deliver(m, env))
    requires !Panics(vals, s, Deliver(m, env)) && Enumerates(env.order, s.roundChanges.Keys)
    ensures var e := Deliver(m, env);
            var step := Next(vals, s, e);
            var before := OldAnswer(vals, s, e);
            match env.verdict
            case FutureBlock => step == Step(s, Err(FutureBlockMessage(m.proposal.height)), before, None)
            case Rejected => AsksForNextRound(s, env, step, Err(Unknown), before)
            case Acceptable =>
              if s.phase != AcceptRequest then step == Step(s, Ok, before, None)
              else if s.lock.None? then
                step == Step(s.(preprepare := Some(m.proposal), phase := PrePrepared), Ok,
                             before + [MyPrepare(s, m.proposal.hash)], None)
              else if s.lock == Some(m.proposal.hash) then
                step == Step(s.(preprepare := Some(m.proposal), phase := Prepared), Ok,
                             before + [MyCommit(s, m.proposal.hash)], None)
              else AsksForNextRound(s, env, step, Ok, before)
  {
    hide PreparesFit;
    hide CommitsFit;
    hide RoundChangesFit;
    var e := Deliver(m, env);
    var before := OldAnswer(vals, s, e);
    ConsideredStep(vals, s, m, env);
    if WantsNextRound(vals, s, e) {
      NextRoundIsPicked(s, env, Err(Unknown), before);
      NextRoundIsPicked(s, env, Ok, before);
    }
    hide Next;
    hide AsksForNextRound;
    hide SendNextRoundChange;
    hide OldAnswer;
    assert before + [] == before;
  }

  lemma ConsideredStep(vals: Validators, s: Replica, m: Message, env: Env)
    requires !s.halted && s.chain != [] && m.Preprepare? && Considered(vals, s, Deliver(m, env))
    requires !EngineBreaks(vals, s, Deliver(m, env))
    ensures Next(vals, s, Deliver(m, env))
            == After(OldAnswer(vals, s, Deliver(m, env)), AcceptProposal(vals, s, m, env)) && !EngineFails(s, m.proposal)
  {
    hide AcceptProposal;
    var step := AcceptProposal(vals, s, m, env);
    assert [] + step.sent == step.sent;
  }

  /** A proposal that does not get to the engine changes nothing; an old stored one is answered all the same. */
  lemma UnconsideredAnswer(vals: Validators, s: Replica, m: Message, env: Env)
    requires Inv(vals, s) && !s.halted && m.Preprepare? && !Considered(vals, s, Deliver(m, env))
    requires !Panics(vals, s, Deliver(m, env))
    ensures var e := Deliver(m, env);
            var stored := m.proposal.height < |s.chain| && s.chain[m.proposal.height].hash == m.proposal.hash;
            Next(vals, s, e) == Step(s, Err(if m.sender !in vals then UnauthorizedAddress
                                            else if m.view.height == 0 then Unknown
                                            else if m.view.height < s.height && !stored then InvalidProposal
                                            else NotFromProposer), OldAnswer(vals, s, e), None)
  {
    hide PreparesFit;
    hide CommitsFit;
    hide RoundChangesFit;
  }

  // ----- round changes

  /** The proposal that opens a round: the locked block, or else the pending one, if it is ours to make and has the
      height. */
  function Opening(vals: Validators, s: Replica, round: Round): seq<Message>
    requires s.chain != []
  {
    if SelectProposer(s.LastHash(), round, vals) != Some(s.id) then []
    else
      match if s.lock.Some? then s.preprepare else s.pending
      case Some(block) => Only(block.height == s.height, Preprepare(s.id, View(s.height, round), block))
      case None => []
  }

  /** A vote that completes a quorum for a later round takes the replica there, proposer or not: empty vote maps and
      table, the lock and the request kept, the proposal kept exactly under a lock, and the round's own proposer. It
      joins the vote, unless held back, and opens the round if it is that proposer. */
  lemma RoundEntryAnswer(vals: Validators, s: Replica, m: Message, env: Env)
    requires Inv(vals, s) && !s.halted && CompletesRound(vals, s, Deliver(m, env)) && !Panics(vals, s, Deliver(m, env))
    ensures var round := m.subject.view.round;
            && SelectProposer(s.LastHash(), round, vals).Some?
            && Next(vals, s, Deliver(m, env))
               == Step(s.(round := round, phase := AcceptRequest, prepares := map[], commits := map[],
                          roundChanges := map[], waiting := false,
                          preprepare := if s.lock.Some? then s.preprepare else None,
                          proposer := SelectProposer(s.LastHash(), round, vals)),
                       Ok, Only(!env.throttled, MyRoundChange(s, round)) + Opening(vals, s, round), None)
  {
    hide PreparesFit;
    hide CommitsFit;
    hide RoundChangesFit;
    hide SelectProposer;
    var round := m.subject.view.round;
    TallyCounts(vals, s, m);
    var t := AddRoundChange(s, m, vals);
    assert Next(vals, s, Deliver(m, env)) == VoteAndEnter(vals, t, round, env.throttled);
    hide Next;
    EntryAnswer(vals, s, t, round, env.throttled);
  }

  lemma EntryAnswer(vals: Validators, s: Replica, t: Replica, round: Round, throttled: bool)
    requires s.chain != [] && Coherent(s) && !s.halted && t == s.(roundChanges := t.roundChanges)
    requires s.round < round && s.height <= |s.chain| && |s.chain| - 1 <= s.height
    requires SelectProposer(s.LastHash(), round, vals).Some?
    requires SelectProposer(s.LastHash(), round, vals) == Some(s.id) ==> s.lock.Some? || s.pending.Some?
    ensures VoteAndEnter(vals, t, round, throttled)
            == Step(s.(round := round, phase := AcceptRequest, prepares := map[], commits := map[],
                       roundChanges := map[], waiting := false,
                       preprepare := if s.lock.Some? then s.preprepare else None,
                       proposer := SelectProposer(s.LastHash(), round, vals)),
                    Ok, Only(!throttled, MyRoundChange(s, round)) + Opening(vals, s, round), None)
  {
    hide SelectProposer;
    assert EmptyHash() == seq(32, _ => 0);
    var (u, out) := SendRoundChange(t, round, throttled);
    assert out == Only(!throttled, MyRoundChange(s, round));
  }

  /** Every other round-change vote: a late one, for an earlier round but the first, is answered with a vote for
      that round and not stored; else it is stored under its sender. Behind the ledger a quorum is joined but not
      followed, and a waiting replica reports a vote for a later round. */
  lemma RoundChangeAnswer(vals: Validators, s: Replica, m: Message, env: Env)
    requires Inv(vals, s) && !s.halted && m.RoundChange? && !CompletesRound(vals, s, Deliver(m, env))
    ensures var step := Next(vals, s, Deliver(m, env));
            var round := m.subject.view.round;
            var away := TurnedAway(vals, s, m.sender, m.subject.view, false);
            if away.Some? then step == Step(s, Err(away.value), [], None)
            else if 0 < round < s.round then
              step == Step(s, Ok, Only(!env.throttled, MyRoundChange(s, round)), None)
            else
              var votes: Votes := if round in s.roundChanges then s.roundChanges[round] else map[];
              var table := s.roundChanges[round := votes[m.sender := m]];
              if round > s.round && |VotersFor(s, round) + {m.sender}| >= Threshold(|vals|) then
                step == Step(s.(roundChanges := table, waiting := s.waiting || !env.throttled), Ok,
                             Only(!env.throttled, MyRoundChange(s, round)), None)
              else
                step == Step(s.(roundChanges := table),
                             if s.waiting && round > s.round then Err(FutureRoundMessage) else Ok, [], None)
  {
    hide Next;
    hide PreparesFit;
    hide CommitsFit;
    hide RoundChangesFit;
    Dispatched(vals, s, m, env);
    if m.sender in vals {
      Tallied(vals, s, m, env);
      assert EmptyHash() == seq(32, _ => 0);
      hide VoteAndEnter;
      hide AddRoundChange;
    }
    hide SelectProposer;
  }

  lemma Tallied(vals: Validators, s: Replica, m: Message, env: Env)
    requires Inv(vals, s) && !s.halted && m.RoundChange? && m.sender in vals && !CompletesRound(vals, s, Deliver(m, env))
    ensures var round := m.subject.view.round;
            var votes: Votes := if round in s.roundChanges then s.roundChanges[round] else map[];
            var table := s.roundChanges[round := votes[m.sender := m]];
            && AddRoundChange(s, m, vals) == s.(roundChanges := table)
            && VoteCount(AddRoundChange(s, m, vals).roundChanges, round) == |VotersFor(s, round) + {m.sender}|
            && (m.subject.view.height == s.height && round > s.round && |VotersFor(s, round) + {m.sender}| >= Threshold(|vals|) ==>
                  VoteAndEnter(vals, AddRoundChange(s, m, vals), round, env.throttled)
                  == Step(s.(roundChanges := table, waiting := s.waiting || !env.throttled), Ok,
                          Only(!env.throttled, MyRoundChange(s, round)), None))
  {
    hide PreparesFit;
    hide CommitsFit;
    hide RoundChangesFit;
    hide SelectProposer;
    TallyCounts(vals, s, m);
    assert EmptyHash() == seq(32, _ => 0);
    hide EnterRound;
  }

  // ----- the other events

  /** A started replica is at round 0 above its ledger, with nothing stored, locked or asked for. */
  lemma StartAnswer(vals: Validators, id: Address, period: Time, chain: seq<Entry>)
    requires chain != []
    ensures var proposer := SelectProposer(chain[|chain| - 1].hash, 0, vals);
            && proposer.Some?
            && Start(vals, id, period, chain)
               == Replica(id, AcceptRequest, proposer, |chain|, 0, None, map[], map[], None, None, map[], false,
                          chain, false, period)
  {
    FirstProposer(chain[|chain| - 1].hash, vals);
    hide SelectProposer;
  }

  /** A new header starts the height above the ledger over, with everything of the old view gone, the lock included. A
      block of that height becomes the request, and the round's proposer proposes it. */
  lemma HeaderAnswer(vals: Validators, s: Replica, block: Block)
    requires Inv(vals, s) && !s.halted
    ensures var proposer := SelectProposer(s.LastHash(), 0, vals);
            var fits := block.height == |s.chain|;
            && proposer.Some?
            && Next(vals, s, NewHeader(block))
               == Step(Replica(s.id, AcceptRequest, proposer, |s.chain|, 0, None, map[], map[],
                               if fits then Some(block) else None, None, map[], false, s.chain, false, s.period),
                       if fits then Ok else if block.height < |s.chain| then Err(OldMessage) else Err(FutureMessage),
                       Only(fits && proposer == Some(s.id), Preprepare(s.id, View(|s.chain|, 0), block)), None)
  {
    FirstProposer(s.LastHash(), vals);
    hide SelectProposer;
  }

  /** A timeout behind the ledger ends the waiting; at the height it asks for the next round. */
  lemma TimeoutAnswer(vals: Validators, s: Replica, env: Env)
    requires Inv(vals, s) && !s.halted && Enumerates(env.order, s.roundChanges.Keys)
    requires !Panics(vals, s, Timeout(env))
    ensures var step := Next(vals, s, Timeout(env));
            if s.height < |s.chain| then step == Step(s.(waiting := false), Ok, [], None)
            else AsksForNextRound(s, env, step, Ok, [])
  {
    if s.height >= |s.chain| {
      NextRoundIsPicked(s, env, Ok, []);
      var step := SendNextRoundChange(s, env, Ok);
      assert [] + step.sent == step.sent;
      assert Next(vals, s, Timeout(env)) == After([], step);
      hide AsksForNextRound;
    }
  }

  /** The end of a commit ends the waiting, a block from elsewhere lengthens the ledger, and a dead replica does nothing
      more. */
  lemma QuietAnswer(vals: Validators, s: Replica, e: Event)
    requires s.chain != []
    ensures e.BlockInserted? ==> Next(vals, s, e) == Step(s.(chain := s.chain + [e.entry]), Ok, [], None)
    ensures e.FinalCommitted? && !s.halted ==> Next(vals, s, e) == Step(s.(waiting := false), Ok, [], None)
    ensures s.halted && !e.BlockInserted? ==> Next(vals, s, e) == Step(s, Panic, [], None)
  {
  }
}
