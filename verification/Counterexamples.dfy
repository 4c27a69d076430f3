/** Runs of one replica that show why the conditions of its safety theorems are needed, and that each of its panics
    can be reached. All verdicts in them are those of the code's engine. */
module Counterexamples {
  import opened Types
  import opened Quorum
  import opened ValidatorSet
  import opened Replica
  import opened ReplicaInvariants
  import opened ReplicaAnswers
  import opened ReplicaRuns
  import opened Ballots

  // ----- one validator: a restart of the height makes it vote twice

  /** New header, own preprepare, own prepare: a lone validator votes for the block,
      whatever it was locked on before. */
  lemma VoteCycle(id: Address, s: Replica, b: Block) returns (s1: Replica, s2: Replica, s3: Replica)
    requires s.chain != [] && !s.halted && s.id == id && b.height == |s.chain| && EngineVerdict(s, b) == Acceptable
    ensures s.chain == s1.chain == s2.chain == s3.chain && s.period == s1.period == s2.period == s3.period
    ensures var view := View(|s.chain|, 0);
            && s1 == Next([id], s, NewHeader(b)).next && Genuine(s1, Deliver(Preprepare(id, view, b), ACCEPT))
            && s2 == Next([id], s1, Deliver(Preprepare(id, view, b), ACCEPT)).next
            && var last := Next([id], s2, Deliver(Prepare(id, Subject(view, b.hash)), ACCEPT));
            && s3 == last.next && last.sent == [CommitVote(id, view, b.hash)]
            && s1.lock.None? && s2.lock.None? && s3.lock == Some(b.hash)
            && s1.height == s2.height == s3.height == |s.chain| && s3.id == id && !s3.halted
            && s3.phase == Prepared && s3.preprepare == Some(b) && s3.commits == map[]
  {
    var view := View(|s.chain|, 0);
    s1 := Next([id], s, NewHeader(b)).next;
    assert s1.proposer == Some(id);
    var pp := Preprepare(id, view, b);
    s2 := Next([id], s1, Deliver(pp, ACCEPT)).next;
    assert s2 == s1.(preprepare := Some(b), phase := PrePrepared);
    var m := Prepare(id, Subject(view, b.hash));
    var t := s2.(prepares := map[id := m]);
    assert s2.prepares[id := m] == map[id := m];
    assert t.prepares.Keys + t.commits.Keys == {id};
    assert Next([id], s2, Deliver(m, ACCEPT)) == AcceptPrepare([id], t, m);
    s3 := Next([id], s2, Deliver(m, ACCEPT)).next;
  }

  /** With a restart while locked, one run sends commits for two different blocks of one height:
      the condition of `OneVotePerHeight` cannot be dropped. */
  lemma TwoVotesAfterRestart(id: Address, genesis: Entry, period: Time, b1: Block, b2: Block)
      returns (states: seq<Replica>, events: seq<Event>, m1: Message, m2: Message)
    requires b1.height == 1 && b2.height == 1 && b1.hash != b2.hash
    requires Follows(b1, genesis, period) && Follows(b2, genesis, period)
    ensures IsRun([id], id, states, events) && |events| == 6 && AllGenuine(states, events)
    ensures SendsCommit([id], states, events, 2, m1) && SendsCommit([id], states, events, 5, m2)
    ensures m1.subject.view.height == m2.subject.view.height && m1.subject.digest != m2.subject.digest
    ensures forall i :: 0 <= i < 6 ==> (LockedReset(states[i], events[i]) <==> i == 3)
  {
    hide Next;
    var s0 := Start([id], id, period, [genesis]);
    var s1, s2, s3 := VoteCycle(id, s0, b1);
    var s4, s5, s6 := VoteCycle(id, s3, b2);
    var view := View(1, 0);
    states := [s0, s1, s2, s3, s4, s5, s6];
    events := [NewHeader(b1), Deliver(Preprepare(id, view, b1), ACCEPT), Deliver(Prepare(id, Subject(view, b1.hash)), ACCEPT),
               NewHeader(b2), Deliver(Preprepare(id, view, b2), ACCEPT), Deliver(Prepare(id, Subject(view, b2.hash)), ACCEPT)];
    m1 := CommitVote(id, view, b1.hash);
    m2 := CommitVote(id, view, b2.hash);
    assert m1 in Next([id], states[2], events[2]).sent;
    assert m2 in Next([id], states[5], events[5]).sent;
  }

  /** Replies about old blocks break the single vote as well: a lone validator votes for y at height 1,
      receives x for that height by block sync, moves on, and then answers its own old proposal of x. */
  lemma TwoVotesByOldReply(id: Address, genesis: Entry, period: Time, x: Block, y: Block, z: Block)
      returns (states: seq<Replica>, events: seq<Event>, m1: Message, m2: Message)
    requires x.height == 1 && y.height == 1 && z.height == 2 && x.hash != y.hash
    requires Follows(x, genesis, period) && Follows(y, genesis, period)
    ensures IsRun([id], id, states, events) && NoLockedReset(states, events) && |events| == 7 && AllGenuine(states, events)
    ensures SendsCommit([id], states, events, 3, m1) && SendsCommit([id], states, events, 6, m2)
    ensures m1.subject.view == m2.subject.view && m1.subject.digest != m2.subject.digest
  {
    hide Next;
    var view := View(1, 0);
    var s0 := Start([id], id, period, [genesis]);
    var s1 := FirstHeader(id, s0, x);
    var s2, s3, s4 := VoteCycle(id, s1, y);
    var s5 := s4.(chain := [genesis, EntryOf(x)]);
    var s6, s7 := LateReply(id, s4, x, z);
    states := [s0, s1, s2, s3, s4, s5, s6, s7];
    events := [NewHeader(x), NewHeader(y), Deliver(Preprepare(id, view, y), ACCEPT),
               Deliver(Prepare(id, Subject(view, y.hash)), ACCEPT),
               BlockInserted(EntryOf(x)), NewHeader(z), Deliver(Preprepare(id, view, x), ACCEPT)];
    m1 := CommitVote(id, view, y.hash);
    m2 := CommitVote(id, view, x.hash);
    assert m1 in Next([id], states[3], events[3]).sent;
  }

  lemma FirstHeader(id: Address, s: Replica, x: Block) returns (s1: Replica)
    requires s.chain != [] && !s.halted && s.id == id && x.height == |s.chain|
    ensures s1 == Next([id], s, NewHeader(x)).next
    ensures !s1.halted && s1.chain == s.chain && s1.period == s.period && s1.id == id && s1.lock.None?
  {
    s1 := Next([id], s, NewHeader(x)).next;
  }

  lemma LateReply(id: Address, s: Replica, x: Block, z: Block) returns (s6: Replica, s7: Replica)
    requires |s.chain| == 1 && !s.halted && s.id == id && s.height == 1 && x.height == 1 && z.height == 2
    requires Follows(x, s.chain[0], s.period)
    ensures var s5 := s.(chain := [s.chain[0], EntryOf(x)]);
            && s5 == Next([id], s, BlockInserted(EntryOf(x))).next
            && s6 == Next([id], s5, NewHeader(z)).next && s6.chain != [] && s6.lock.None?
            && var last := Next([id], s6, Deliver(Preprepare(id, View(1, 0), x), ACCEPT));
            && s7 == last.next && CommitVote(id, View(1, 0), x.hash) in last.sent
            && Genuine(s6, Deliver(Preprepare(id, View(1, 0), x), ACCEPT))
  {
    var s5 := s.(chain := [s.chain[0], EntryOf(x)]);
    assert s.chain + [EntryOf(x)] == s5.chain;
    s6 := Next([id], s5, NewHeader(z)).next;
    assert s6.height == 2 && s6.chain == s5.chain && s6.id == id && !s6.halted && s6.period == s.period;
    s7 := Next([id], s6, Deliver(Preprepare(id, View(1, 0), x), ACCEPT)).next;
  }

  // ----- panics

  /** A missing request: a lone validator that was never asked for a block times out, votes for
      round 1, receives its own vote and has nothing to propose. */
  lemma PanicWithoutRequest(id: Address, genesis: Entry, period: Time) returns (states: seq<Replica>, events: seq<Event>)
    ensures IsRun([id], id, states, events) && |events| == 2
    ensures events[1].Deliver? && events[1].msg in Next([id], states[0], events[0]).sent
    ensures ProposesWithoutRequest([id], states[1], events[1]) && states[2].halted
  {
    var s0 := Start([id], id, period, [genesis]);
    var vote := RoundChange(id, Subject(View(1, 1), EmptyHash()));
    var s1 := Next([id], s0, Timeout(ACCEPT)).next;
    assert s1 == s0.(waiting := true);
    LoneTally(id, s1, vote);
    var s2 := Next([id], s1, Deliver(vote, ACCEPT)).next;
    states, events := [s0, s1, s2], [Timeout(ACCEPT), Deliver(vote, ACCEPT)];
  }

  /** One vote is a quorum of one. */
  lemma LoneTally(id: Address, s: Replica, vote: Message)
    requires vote.RoundChange? && vote.sender == id && s.roundChanges == map[]
    ensures VoteCount(AddRoundChange(s, vote, [id]).roundChanges, vote.subject.view.round) == 1
  {
    assert AddRoundChange(s, vote, [id]).roundChanges[vote.subject.view.round] == map[id := vote];
  }

  /** The genesis block as an old proposal: any validator that sends it stops every replica that is past height 1. */
  lemma PanicByOldGenesis(vals: Validators, id: Address, period: Time, chain: seq<Entry>,
                          sender: Address, genesis: Block, round: Round) returns (states: seq<Replica>, events: seq<Event>)
    requires |chain| > 1 && sender in vals && genesis.height == 0 && genesis.hash == chain[0].hash
    ensures IsRun(vals, id, states, events) && |events| == 1
    ensures events[0].Deliver? && events[0].msg == Preprepare(sender, View(1, round), genesis) && AllGenuine(states, events)
    ensures OldProposalBreaks(vals, states[0], events[0]) && states[1].halted
  {
    var s := Start(vals, id, period, chain);
    var e := Deliver(Preprepare(sender, View(1, round), genesis), Env(EngineVerdict(s, genesis), false, []));
    states, events := [s, Next(vals, s, e).next], [e];
  }

  /** An old stored block under a view whose round is too large for its parent's seed does the same. */
  lemma PanicByOldRound(vals: Validators, id: Address, period: Time, chain: seq<Entry>,
                        sender: Address, block: Block, round: Round) returns (states: seq<Replica>, events: seq<Event>)
    requires |chain| > 1 && sender in vals && block.height < |chain| && block.hash == chain[block.height].hash
    requires RandomSeed(block.prevHash, |vals|) + round >= U64
    ensures IsRun(vals, id, states, events) && |events| == 1
    ensures events[0].Deliver? && events[0].msg == Preprepare(sender, View(1, round), block) && AllGenuine(states, events)
    ensures OldProposalBreaks(vals, states[0], events[0]) && states[1].halted
  {
    var s := Start(vals, id, period, chain);
    var e := Deliver(Preprepare(sender, View(1, round), block), Env(EngineVerdict(s, block), false, []));
    states, events := [s, Next(vals, s, e).next], [e];
  }

  /** A parent hash whose seed among three validators is not zero, so that the last round overflows. */
  lemma SeedOfOne() returns (h: Hash)
    ensures RandomSeed(h, 3) == 1 && RandomSeed(h, 3) + MAX_ROUND >= U64
  {
    h := seq(7, _ => 0) + [1] + seq(24, _ => 0);
    var bytes: seq<Byte> := h[..8] + seq(8, _ => 0);
    assert bytes == [0, 0, 0, 0, 0, 0, 0, 1, 0, 0, 0, 0, 0, 0, 0, 0];
    SeedValue(bytes);
  }

  lemma SeedValue(bytes: seq<Byte>)
    requires bytes == [0, 0, 0, 0, 0, 0, 0, 1, 0, 0, 0, 0, 0, 0, 0, 0]
    ensures BigEndian(bytes) == U64
  {
    var z: seq<Byte> := [0, 0, 0, 0, 0, 0, 0];
    ZerosAreZero(z);
    assert (z + [1])[..7] == z;
    assert BigEndian(z + [1]) == 1;
    ShiftByZeros(z + [1], 8);
    PowEight();
    assert bytes == (z + [1]) + seq<Byte>(8, _ => 0);
  }

  lemma {:induction false} ZerosAreZero(z: seq<Byte>)
    requires forall i :: 0 <= i < |z| ==> z[i] == 0
    ensures BigEndian(z) == 0
  {
    if z != [] { ZerosAreZero(z[..|z| - 1]); }
  }

  /** Rounds run out: a lone validator whose own vote takes it to the last round cannot time out there. */
  lemma PanicInLastRound(id: Address, genesis: Entry, period: Time, block: Block)
      returns (states: seq<Replica>, events: seq<Event>)
    requires block.height == 1
    ensures IsRun([id], id, states, events) && |events| == 3
    ensures RoundsExhausted([id], states[2], events[2]) && states[3].halted
  {
    var s0 := Start([id], id, period, [genesis]);
    var s1 := Next([id], s0, NewHeader(block)).next;
    assert s1 == s0.(pending := Some(block));
    var vote := RoundChange(id, Subject(View(1, MAX_ROUND), EmptyHash()));
    LoneTally(id, s1, vote);
    var s2 := LoneEntry(id, s1, vote);
    var s3 := Next([id], s2, Timeout(ACCEPT)).next;
    states, events := [s0, s1, s2, s3], [NewHeader(block), Deliver(vote, ACCEPT), Timeout(ACCEPT)];
  }

  lemma LoneEntry(id: Address, s: Replica, vote: Message) returns (t: Replica)
    requires s.chain != [] && !s.halted && s.id == id && s.height == |s.chain| && s.round == 0 && s.lock.None? && s.pending.Some?
    requires s.roundChanges == map[] && vote == RoundChange(id, Subject(View(s.height, MAX_ROUND), EmptyHash()))
    ensures t == Next([id], s, Deliver(vote, ACCEPT)).next
    ensures t.round == MAX_ROUND && t.chain == s.chain && t.height == s.height && !t.halted
  {
    LoneTally(id, s, vote);
    var proposer := SelectProposer(s.LastHash(), MAX_ROUND, [id]);
    assert proposer == Some(id);
    hide SelectProposer;
    t := Next([id], s, Deliver(vote, ACCEPT)).next;
  }

  /** A round beyond the proposer selection, for every set of validators and every ledger whose last hash has such
      a seed: the votes of a quorum for the last round kill the replica. */
  lemma PanicByRoundOverflow(vals: Validators, id: Address, period: Time, chain: seq<Entry>)
      returns (states: seq<Replica>, events: seq<Event>)
    requires Distinct(vals) && chain != [] && RandomSeed(chain[|chain| - 1].hash, |vals|) + MAX_ROUND >= U64
    ensures IsRun(vals, id, states, events) && |events| == Threshold(|vals|)
    ensures RoundOverflows(vals, states[|events| - 1], events[|events| - 1]) && states[|events|].halted
  {
    hide Next;
    hide Start;
    hide AtLast;
    hide IsRun;
    hide SelectProposer;
    hide RandomSeed;
    hide RoundOverflows;
    states, events := [Start(vals, id, period, chain)], [];
    LastStart(vals, id, period, chain);
    var q := TwoThirds(|vals|);
    for k := 0 to q
      invariant |events| == k && |states| == k + 1 && IsRun(vals, id, states, events) && AtLast(vals, states[k], chain, k)
    {
      var e := Deliver(LastRoundVote(|chain|, vals[k]), ACCEPT);
      var t := VoteStored(vals, states[k], chain, k);
      AppendedIsRun(vals, id, states, events, e, t);
      states, events := states + [t], events + [e];
    }
    var e := Deliver(LastRoundVote(|chain|, vals[q]), ACCEPT);
    LastVoteKills(vals, states[q], chain);
    var t := Next(vals, states[q], e).next;
    AppendedIsRun(vals, id, states, events, e, t);
    states, events := states + [t], events + [e];
  }

  lemma LastStart(vals: Validators, id: Address, period: Time, chain: seq<Entry>)
    requires chain != []
    ensures var s := Start(vals, id, period, chain); AtLast(vals, s, chain, 0) && IsRun(vals, id, [s], [])
  {
    StartHasInv(vals, id, period, chain);
    hide SelectProposer;
    hide Inv;
    assert vals[..0] == [];
    assert First(vals, 0) == {};
  }

  function LastRoundVote(height: nat, a: Address): Message {
    RoundChange(a, Subject(View(height, MAX_ROUND), EmptyHash()))
  }

  /** In round 0 above the ledger, with the votes of the first k validators for the last round. */
  ghost predicate AtLast(vals: Validators, s: Replica, chain: seq<Entry>, k: nat)
    requires k <= |vals|
  {
    && Inv(vals, s) && !s.halted && chain != [] && s.chain == chain && s.height == |chain| && s.round == 0
    && VotersFor(s, MAX_ROUND) == First(vals, k)
  }

  ghost function First(vals: Validators, k: nat): set<Address>
    requires k <= |vals|
  {
    set a | a in vals[..k]
  }

  lemma FirstGrows(vals: Validators, k: nat)
    requires Distinct(vals) && k < |vals|
    ensures First(vals, k) + {vals[k]} == First(vals, k + 1) && |First(vals, k + 1)| == k + 1
  {
    var more := vals[..k + 1];
    assert more == vals[..k] + [vals[k]];
    DistinctSize(more);
    assert First(vals, k + 1) == set a | a in more;
  }

  lemma VoteStored(vals: Validators, s: Replica, chain: seq<Entry>, k: nat) returns (t: Replica)
    requires Distinct(vals) && k < TwoThirds(|vals|) && AtLast(vals, s, chain, k)
    ensures s.chain != []
    ensures t == Next(vals, s, Deliver(LastRoundVote(|chain|, vals[k]), ACCEPT)).next && AtLast(vals, t, chain, k + 1)
  {
    hide Next;
    hide First;
    hide Inv;
    var m := LastRoundVote(|chain|, vals[k]);
    FirstGrows(vals, k);
    NextKeepsInv(vals, s, Deliver(m, ACCEPT));
    RoundChangeAnswer(vals, s, m, ACCEPT);
    t := Next(vals, s, Deliver(m, ACCEPT)).next;
    hide EmptyHash;
    hide Distinct;
    assert t == s.(roundChanges := t.roundChanges);
    assert VotersFor(t, MAX_ROUND) == VotersFor(s, MAX_ROUND) + {vals[k]};
  }

  lemma LastVoteKills(vals: Validators, s: Replica, chain: seq<Entry>)
    requires Distinct(vals) && AtLast(vals, s, chain, TwoThirds(|vals|))
    requires RandomSeed(chain[|chain| - 1].hash, |vals|) + MAX_ROUND >= U64
    ensures var e := Deliver(LastRoundVote(|chain|, vals[TwoThirds(|vals|)]), ACCEPT);
            s.chain != [] && RoundOverflows(vals, s, e) && Next(vals, s, e).next.halted
  {
    hide Next;
    hide First;
    hide Inv;
    hide RandomSeed;
    hide ProposesWithoutRequest;
    hide OldProposalBreaks;
    hide EngineBreaks;
    hide RoundsExhausted;
    hide CommitBreaks;
    var e := Deliver(LastRoundVote(|chain|, vals[TwoThirds(|vals|)]), ACCEPT);
    FirstGrows(vals, TwoThirds(|vals|));
    assert RoundOverflows(vals, s, e);
    hide RoundOverflows;
    PanicsIff(vals, s, e);
  }

  /** A block without a date: a lone validator commits it and dies writing the log line. */
  lemma PanicByDate(id: Address, genesis: Entry, period: Time, block: Block) returns (states: seq<Replica>, events: seq<Event>)
    requires block.height == 1 && Follows(block, genesis, period) && !block.datable
    ensures IsRun([id], id, states, events) && |events| == 4 && AllGenuine(states, events)
    ensures CommitBreaks([id], states[3], events[3]) && states[4].halted && |states[4].chain| == 2
  {
    hide Next;
    hide CommitBreaks;
    hide SelectProposer;
    var s0, s1, s2, s3 := Voted(id, genesis, period, block);
    var seal := Some(Seal(id, block.hash));
    var s4 := LoneCommit(id, s3, block, seal);
    CommitKills(id, s3, block);
    states := [s0, s1, s2, s3, s4];
    events := VoteEvents(id, block) + [Deliver(LoneVote(id, block, seal), ACCEPT)];
  }

  /** The events that make a lone validator vote for a block of height 1. */
  function VoteEvents(id: Address, block: Block): seq<Event> {
    [NewHeader(block), Deliver(Preprepare(id, View(1, 0), block), ACCEPT),
     Deliver(Prepare(id, Subject(View(1, 0), block.hash)), ACCEPT)]
  }

  lemma Voted(id: Address, genesis: Entry, period: Time, block: Block)
      returns (s0: Replica, s1: Replica, s2: Replica, s3: Replica)
    requires block.height == 1 && Follows(block, genesis, period)
    ensures IsRun([id], id, [s0, s1, s2, s3], VoteEvents(id, block)) && AllGenuine([s0, s1, s2, s3], VoteEvents(id, block))
    ensures s0 == Start([id], id, period, [genesis])
    ensures s3.chain == [genesis] && s3.period == period && s3.id == id && !s3.halted && s3.height == 1
    ensures s3.phase == Prepared && s3.preprepare == Some(block) && s3.commits == map[] && s3.lock == Some(block.hash)
  {
    hide Next;
    hide SelectProposer;
    s0 := Start([id], id, period, [genesis]);
    assert s0.chain == [genesis] && s0.period == period && !s0.halted && s0.id == id;
    assert EngineVerdict(s0, block) == Acceptable;
    hide EngineVerdict;
    hide Follows;
    s1, s2, s3 := VoteCycle(id, s0, block);
    LoneRun(id, s0, s1, s2, s3, VoteEvents(id, block));
  }

  lemma LoneRun(id: Address, s0: Replica, s1: Replica, s2: Replica, s3: Replica, events: seq<Event>)
    requires |events| == 3 && s0.chain != [] && s1.chain != [] && s2.chain != []
    requires s0 == Start([id], id, s0.period, s0.chain) && s1 == Next([id], s0, events[0]).next
    requires s2 == Next([id], s1, events[1]).next && s3 == Next([id], s2, events[2]).next
    ensures IsRun([id], id, [s0, s1, s2, s3], events)
  {
    hide Next;
    hide Start;
  }

  /** The lone validator's commit under any seal. */
  function LoneVote(id: Address, block: Block, seal: Option<Seal>): Message {
    Commit(id, Subject(View(1, 0), block.hash), seal)
  }

  /** Any recoverable seal will do: the commit is counted and decides. */
  lemma LoneCommit(id: Address, s: Replica, block: Block, seal: Option<Seal>) returns (t: Replica)
    requires !s.halted && |s.chain| == 1 && s.height == 1 && s.phase == Prepared && s.preprepare == Some(block) && s.id == id
    requires s.commits == map[] && block.height == 1 && seal.Some? && seal.value.Seal?
    ensures var m := LoneVote(id, block, seal);
            var step := Next([id], s, Deliver(m, ACCEPT));
            && t == step.next && t.commits == map[id := m] && step.decided == Some(Decision(id, 1, block.hash, map[id := m]))
            && t.chain == s.chain + [EntryOf(block)] && t.period == s.period && t.id == id && t.halted == !block.datable
  {
    var m := LoneVote(id, block, seal);
    CommitIsAccepted([id], s, m, ACCEPT);
    assert s.commits[id := m] == map[id := m];
    CommitEffect([id], s.(commits := map[id := m]));
    hide Next;
    hide AcceptCommit;
    t := Next([id], s, Deliver(m, ACCEPT)).next;
  }

  lemma CommitKills(id: Address, s: Replica, block: Block)
    requires !s.halted && |s.chain| == 1 && s.height == 1 && s.phase == Prepared && s.preprepare == Some(block)
    requires s.commits == map[] && block.height == 1 && !block.datable
    ensures CommitBreaks([id], s, Deliver(LoneVote(id, block, Some(Seal(id, block.hash))), ACCEPT))
  {
    var commit := LoneVote(id, block, Some(Seal(id, block.hash)));
    assert s.commits[id := commit] == map[id := commit];
  }

  /** Whatever the seal of a commit is, the lone validator decides on it: a decision need not rest on its
      voters' own seals. */
  lemma ForeignSealDecides(id: Address, genesis: Entry, period: Time, block: Block, seal: Seal)
      returns (states: seq<Replica>, events: seq<Event>)
    requires block.height == 1 && Follows(block, genesis, period) && seal.Seal?
    ensures IsRun([id], id, states, events) && |events| == 4 && AllGenuine(states, events)
    ensures var d := Next([id], states[3], events[3]).decided;
            d.Some? && id in d.value.votes && d.value.votes[id].Commit? && d.value.votes[id].seal == Some(seal)
    ensures seal != Seal(id, block.hash) ==> OwnSeals(states[3]) && !OwnSeals(states[4])
  {
    hide Next;
    hide SelectProposer;
    var s0, s1, s2, s3 := Voted(id, genesis, period, block);
    var s4 := LoneCommit(id, s3, block, Some(seal));
    states := [s0, s1, s2, s3, s4];
    events := VoteEvents(id, block) + [Deliver(LoneVote(id, block, Some(seal)), ACCEPT)];
    assert id in s4.commits;
  }

  /** A parent at the end of time: a lone validator commits a block with the last time, which the engine accepts on an
      ordinary ledger, and dies when the engine checks any proposal on it. */
  lemma PanicByEngine(id: Address, genesis: Entry, period: Time, parent: Block, child: Block)
      returns (states: seq<Replica>, events: seq<Event>)
    requires 0 < period && genesis.time + period < U64
    requires parent.height == 1 && Follows(parent, genesis, period) && parent.time == U64 - 1 && parent.datable
    requires child.height == 2 && child.prevHash == parent.hash && child.txs == TxsFit
    ensures IsRun([id], id, states, events) && |events| == 6 && AllGenuine(states, events)
    ensures states[0] == Start([id], id, period, [genesis])
    ensures EngineBreaks([id], states[5], events[5]) && states[6].halted
  {
    hide Next;
    hide SelectProposer;
    hide EngineBreaks;
    var s0, s1, s2, s3 := Voted(id, genesis, period, parent);
    var seal := Some(Seal(id, parent.hash));
    var s4 := LoneCommit(id, s3, parent, seal);
    var e, s5, s6 := ChildKills(id, s4, parent, child);
    states := [s0, s1, s2, s3, s4, s5, s6];
    events := VoteEvents(id, parent) + [Deliver(LoneVote(id, parent, seal), ACCEPT), NewHeader(child), e];
  }

  lemma ChildKills(id: Address, s: Replica, parent: Block, child: Block) returns (e: Event, t: Replica, u: Replica)
    requires |s.chain| == 2 && s.chain[1] == EntryOf(parent) && !s.halted && s.id == id
    requires parent.time + s.period >= U64 && child.height == 2 && child.prevHash == parent.hash && child.txs == TxsFit
    ensures t == Next([id], s, NewHeader(child)).next && t.chain != []
    ensures EngineBreaks([id], t, e) && Genuine(t, e) && u == Next([id], t, e).next && u.halted
  {
    t := Next([id], s, NewHeader(child)).next;
    assert t.proposer == Some(id) && t.chain == s.chain && t.period == s.period && t.height == 2 && !t.halted;
    hide SelectProposer;
    e := Deliver(Preprepare(id, View(2, 0), child), Env(EngineVerdict(t, child), false, []));
    u := Next([id], t, e).next;
  }

  /** A block whose transactions have no root does the same on any ledger. */
  lemma PanicByNoRoot(vals: Validators, id: Address, period: Time, chain: seq<Entry>, block: Block, round: Round)
      returns (states: seq<Replica>, events: seq<Event>)
    requires chain != [] && block.txs == NoRoot
    ensures IsRun(vals, id, states, events) && |events| == 1 && AllGenuine(states, events)
    ensures EngineBreaks(vals, states[0], events[0]) && states[1].halted
  {
    var s := Start(vals, id, period, chain);
    FirstProposer(chain[|chain| - 1].hash, vals);
    var p := SelectProposer(chain[|chain| - 1].hash, 0, vals).value;
    hide SelectProposer;
    var e := Deliver(Preprepare(p, View(|chain|, round), block), Env(EngineVerdict(s, block), false, []));
    states, events := [s, Next(vals, s, e).next], [e];
  }
}
