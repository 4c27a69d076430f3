/** The consensus core: an object whose handlers update its state in place.
    Every handler is proved to do exactly what the function of the same name in `Replica` says. */
module Core {
  import opened Types
  import opened Quorum
  import opened ValidatorSet
  import opened RoundState
  import opened RoundChangeSet
  import Spec = Replica
  import Invariants = ReplicaInvariants
  import Runs = ReplicaRuns

  class Core {
    const id: Address
    const vals: Validators
    const period: Time                 // of the engine's configuration
    var phase: Spec.Phase
    var proposer: Option<Address>
    var current: RoundState
    var roundChangeSet: RoundChangeSet
    var waiting: bool
    var halted: bool
    var chain: seq<Entry>              // the ledger behind the backend, by height
    var outbox: seq<Message>           // messages broadcast so far
    var decisions: seq<Spec.Decision>  // calls to commit() so far

    ghost predicate Wellformed()
      reads this, current, roundChangeSet
    {
      chain != [] && current.Valid() && current.validators == vals && roundChangeSet.validators == vals
    }

    /** Between events the core satisfies the replica's invariant. */
    ghost predicate Valid()
      reads this, current, roundChangeSet
    {
      Wellformed() && Invariants.Inv(vals, Model())
    }

    ghost function Model(): Spec.Replica
      reads this, current, roundChangeSet
    {
      Spec.Replica(id, phase, proposer, current.height, current.round, current.preprepare, current.prepares,
                   current.commits, current.pending, current.lock, roundChangeSet.roundChanges, waiting, chain, halted,
                   period)
    }

    /** The state and the effects since (`sent`, `decided`) are those of the specified step. */
    ghost predicate Did(sent: seq<Message>, decided: seq<Spec.Decision>, step: Spec.Step)
      reads this, current, roundChangeSet
    {
      && Wellformed() && Model() == step.next && outbox == sent + step.sent
      && decisions == decided + if step.decided.Some? then [step.decided.value] else []
    }

    lemma ThenDid(sent: seq<Message>, decided: seq<Spec.Decision>, first: Spec.Step, next: Spec.Step)
      requires Did(sent + first.sent, decided, next)
      ensures Did(sent, decided, Spec.After(first.sent, next))
    {
      assert sent + first.sent + next.sent == sent + (first.sent + next.sent);
    }

    ghost function Owned(): set<object>
      reads this
    {
      {current, roundChangeSet}
    }

    /** A core as the actor system builds it and after `started()` has run. */
    constructor (id: Address, vals: Validators, period: Time, chain: seq<Entry>)
      requires chain != []
      ensures Valid() && Model() == Spec.Start(vals, id, period, chain) && outbox == [] && decisions == []
      ensures this.vals == vals && fresh(Owned())
    {
      this.id := id;
      this.vals := vals;
      this.period := period;
      this.chain := chain;
      phase, proposer, waiting, halted := Spec.AcceptRequest, None, false, false;
      outbox, decisions := [], [];
      current := new RoundState(View(|chain| - 1, 0), vals, Some(chain[|chain| - 1].hash), None, None);
      roundChangeSet := new RoundChangeSet(vals);
      new;
      hide Invariants.Inv;
      hide SelectProposer;
      hide Spec.StartNewZeroRound;
      Invariants.StartHasInv(vals, id, period, chain);
      StartNewZeroRound();
    }

    method Broadcast(m: Message)
      modifies this`outbox
      ensures outbox == old(outbox) + [m]
    {
      outbox := outbox + [m];
    }

    method Halt() returns (r: Result)
      modifies this`halted
      ensures halted && r == Panic
    {
      halted := true;
      return Panic;
    }

    function CurrentView(): View
      reads this, current
    {
      View(current.height, current.round)
    }

    // ----- rounds

    method StartNewZeroRound()
      requires Wellformed()
      modifies this, Owned()
      ensures Did(old(outbox), old(decisions), Spec.Quiet(Spec.StartNewZeroRound(vals, old(Model())), Ok))
      ensures fresh(Owned() - old(Owned()))
    {
      roundChangeSet := new RoundChangeSet(vals);
      current := new RoundState(View(|chain|, 0), vals, None, None, None);
      proposer := SelectProposer(chain[|chain| - 1].hash, 0, vals);
      waiting := false;
      phase := Spec.AcceptRequest;
    }

    method SendPreprepare(block: Block)
      modifies this`outbox
      ensures outbox == old(outbox) + Spec.SendPreprepare(Model(), block)
    {
      if current.height == block.height && proposer == Some(id) {
        Broadcast(Preprepare(id, CurrentView(), block));
      }
    }

    /** The snapshot for the next round: a held lock keeps its proposal, the request always stays. */
    method UpdateRoundState(round: Round)
      requires Wellformed()
      modifies this`current
      ensures fresh(current) && current.Valid() && current.validators == vals
      ensures current.height == old(current.height) && current.round == round
      ensures current.prepares == map[] && current.commits == map[]
      ensures current.lock == old(current.lock) && current.pending == old(current.pending)
      ensures current.preprepare == if old(current.lock).Some? then old(current.preprepare) else None
    {
      if current.lock.Some? {
        current := new RoundState(View(current.height, round), vals, current.lock, current.preprepare, current.pending);
      } else {
        current := new RoundState(View(current.height, round), vals, None, None, current.pending);
      }
    }

    method EnterRound(round: Round)
      requires Wellformed()
      modifies this, Owned()
      ensures Did(old(outbox), old(decisions), Spec.Quiet(Spec.EnterRound(vals, old(Model()), round), Ok))
      ensures fresh(Owned() - old(Owned()))
    {
      roundChangeSet := new RoundChangeSet(vals);
      UpdateRoundState(round);
      proposer := SelectProposer(chain[|chain| - 1].hash, round, vals);
      waiting := false;
      phase := Spec.AcceptRequest;
    }

    method StartNewRound(round: Round) returns (r: Result)
      requires Wellformed()
      modifies this, Owned()
      ensures var step := Spec.StartNewRound(vals, old(Model()), round);
              r == step.result && Did(old(outbox), old(decisions), step)
      ensures fresh(Owned() - old(Owned()))
    {
      if round == 0 || round <= current.round || |chain| < current.height {
        r := Halt();
        return;
      }
      if |chain| - 1 > current.height {
        return Ok;
      }
      if SelectProposer(chain[|chain| - 1].hash, round, vals).None? {
        r := Halt();
        return;
      }
      EnterRound(round);
      if proposer == Some(id) {
        var request := if current.lock.Some? then current.preprepare else current.pending;
        if request.None? {
          r := Halt();
          return;
        }
        SendPreprepare(request.value);
      }
      return Ok;
    }

    // ----- sending votes

    method SendRoundChange(round: Round, throttled: bool)
      requires Wellformed()
      modifies this`waiting, this`outbox
      ensures var (t, out) := Spec.SendRoundChange(old(Model()), round, throttled);
              Wellformed() && Model() == t && outbox == old(outbox) + out
    {
      if throttled {
        return;
      }
      if current.round < round {
        waiting := true;
      }
      Broadcast(RoundChange(id, Subject(View(current.height, round), Spec.EmptyHash())));
    }

    method SendNextRoundChange(throttled: bool, ghost verdict: Spec.Verdict, result: Result)
        returns (r: Result, ghost order: seq<Round>)
      requires Wellformed()
      modifies this`waiting, this`outbox, this`halted
      ensures Enumerates(order, old(roundChangeSet.roundChanges).Keys)
      ensures var step := Spec.SendNextRoundChange(old(Model()), Spec.Env(verdict, throttled, order), result);
              r == step.result && Did(old(outbox), old(decisions), step)
    {
      var max: Round;
      max, order := roundChangeSet.MaxRound();
      if max <= current.round {
        if current.round == MAX_ROUND {
          r := Halt();
          return;
        }
        SendRoundChange(current.round + 1, throttled);
      } else {
        SendRoundChange(max, throttled);
      }
      return result, order;
    }

    method SendCommit() returns (r: Result)
      requires Wellformed()
      modifies this`halted, this`outbox
      ensures var step := Spec.SendCommit(old(Model())); r == step.result && Did(old(outbox), old(decisions), step)
    {
      if current.preprepare.None? {
        r := Halt();
        return;
      }
      Broadcast(Spec.CommitVote(id, CurrentView(), current.preprepare.value.hash));
      return Ok;
    }

    method SendPrepare() returns (r: Result)
      requires Wellformed()
      modifies this`halted, this`outbox
      ensures var step := Spec.SendPrepare(old(Model())); r == step.result && Did(old(outbox), old(decisions), step)
    {
      if current.preprepare.None? {
        r := Halt();
        return;
      }
      Broadcast(Prepare(id, Subject(CurrentView(), current.preprepare.value.hash)));
      return Ok;
    }

    /** Lock the proposal, move to Prepared and vote. */
    method LockAndVote() returns (r: Result)
      requires Wellformed()
      modifies this`phase, this`halted, this`outbox, current`lock
      ensures var step := Spec.LockAndVote(old(Model())); r == step.result && Did(old(outbox), old(decisions), step)
    {
      current.LockHash();
      phase := Spec.Prepared;
      r := SendCommit();
    }

    // ----- handlers

    function CheckMessage(code: Spec.Code, view: View): (r: Result)
      reads this, current, roundChangeSet
      ensures r == Spec.CheckMessage(Model(), code, view)
    {
      if view.height == 0 then Err(Unknown)
      else if view.height > current.height then Err(FutureBlockMessage(view.height))
      else if view.height < current.height then Err(OldMessage)
      else if code != Spec.RoundChangeCode && phase == Spec.AcceptRequest && code != Spec.PreprepareCode then Err(FutureMessage)
      else Ok
    }

    /** The checks of the engine in their order, as far as they can panic. */
    method EngineFails(block: Block) returns (fails: bool)
      requires Wellformed()
      ensures fails == Spec.EngineFails(Model(), block)
    {
      match block.txs {
        case NoRoot => return true;
        case TxsUnfit => return false;
        case TxsFit =>
      }
      if block.height == 0 || block.height - 1 >= |chain| {
        return false;
      }
      var parent := chain[block.height - 1];
      if parent.hash != block.prevHash {
        return false;
      }
      return parent.time + period >= U64;
    }

    method AcceptProposal(m: Message, verdict: Spec.Verdict, throttled: bool) returns (r: Result, ghost order: seq<Round>)
      requires Wellformed() && m.Preprepare?
      modifies this, current
      ensures var step := Spec.AcceptProposal(vals, old(Model()), m, Spec.Env(verdict, throttled, order));
              r == step.result && Did(old(outbox), old(decisions), step)
      ensures Owned() == old(Owned())
    {
      hide Spec.EngineFails;
      hide Spec.SendNextRoundChange;
      order := [];
      if proposer != Some(m.sender) {
        return Err(NotFromProposer), order;
      }
      var fails := EngineFails(m.proposal);
      if fails {
        r := Halt();
        return;
      }
      match verdict {
        case FutureBlock =>
          return Err(FutureBlockMessage(m.proposal.height)), order;
        case Rejected =>
          r, order := SendNextRoundChange(throttled, verdict, Err(Unknown));
          return;
        case Acceptable =>
      }
      if phase == Spec.AcceptRequest {
        if current.lock.Some? {
          if m.proposal.hash == current.lock.value {
            current.preprepare := Some(m.proposal);
            phase := Spec.Prepared;
            r := SendCommit();
            return;
          }
          r, order := SendNextRoundChange(throttled, verdict, Ok);
          return;
        } else {
          current.preprepare := Some(m.proposal);
          phase := Spec.PrePrepared;
          r := SendPrepare();
          return;
        }
      }
      return Ok, order;
    }

    method HandlePreprepare(m: Message, verdict: Spec.Verdict, throttled: bool) returns (r: Result, ghost order: seq<Round>)
      requires Wellformed() && m.Preprepare?
      modifies this, current
      ensures var step := Spec.HandlePreprepare(vals, old(Model()), m, Spec.Env(verdict, throttled, order));
              r == step.result && Did(old(outbox), old(decisions), step)
      ensures Owned() == old(Owned())
    {
      hide Spec.AcceptProposal;
      order := [];
      var check := CheckMessage(Spec.PreprepareCode, m.view);
      if check == Err(OldMessage) {
        var block := m.proposal;
        if block.height >= |chain| || chain[block.height].hash != block.hash {
          return Err(InvalidProposal), order;
        }
        if block.height == 0 {
          r := Halt();
          return;
        }
        var proposer := SelectProposer(block.prevHash, m.view.round, vals);
        if proposer.None? {
          r := Halt();
          return;
        }
        if proposer.value == m.sender {
          Broadcast(Spec.CommitVote(id, m.view, block.hash));
        }
      } else if check != Ok && !check.error.FutureBlockMessage? {
        return check, order;
      }
      r, order := AcceptProposal(m, verdict, throttled);
    }

    method HandlePrepare(m: Message) returns (r: Result)
      requires Wellformed() && m.Prepare?
      modifies this, current
      ensures var step := Spec.HandlePrepare(vals, old(Model()), m);
              r == step.result && Did(old(outbox), old(decisions), step)
      ensures Owned() == old(Owned())
    {
      r := CheckMessage(Spec.PrepareCode, m.subject.view);
      if r != Ok {
        return;
      }
      if m.subject.view != CurrentView() {
        return Err(InconsistentSubject);
      }
      var ok := current.AddPrepare(m);
      if !ok {
        return Err(Unknown);
      }
      hide Spec.AcceptPrepare;
      r := AcceptPrepare(m);
    }

    method AcceptPrepare(m: Message) returns (r: Result)
      requires Wellformed() && m.Prepare?
      modifies this, current
      ensures var step := Spec.AcceptPrepare(vals, old(Model()), m);
              r == step.result && Did(old(outbox), old(decisions), step)
      ensures Owned() == old(Owned())
    {
      hide Spec.LockAndVote;
      hide Spec.VoteIfLocked;
      hide Spec.LockWithQuorum;
      hide RoundState.Valid;
      ghost var s := Model();
      r := VoteIfLocked(m);
      if r == Panic {
        return;
      }
      ghost var first := Spec.VoteIfLocked(s, m);
      r := LockWithQuorum();
      ThenDid(old(outbox), old(decisions), first, Spec.LockWithQuorum(vals, first.next));
    }

    method LockWithQuorum() returns (r: Result)
      requires Wellformed()
      modifies this`phase, this`halted, this`outbox, current`lock
      ensures var step := Spec.LockWithQuorum(vals, old(Model()));
              r == step.result && Did(old(outbox), old(decisions), step)
    {
      hide Spec.LockAndVote;
      r := Ok;
      var size := current.PrepareOrCommitSize();
      if size > TwoThirds(|vals|) {
        r := LockAndVote();
      }
    }

    method VoteIfLocked(m: Message) returns (r: Result)
      requires Wellformed() && m.Prepare?
      modifies this`phase, this`halted, this`outbox, current`lock
      ensures var step := Spec.VoteIfLocked(old(Model()), m);
              r == step.result && Did(old(outbox), old(decisions), step) && (r == Ok || r == Panic)
    {
      r := Ok;
      if current.lock == Some(m.subject.digest) {
        r := LockAndVote();
      }
    }

    /** Enter the committed phase and hand the block to the ledger. */
    method Commit() returns (r: Result)
      requires Wellformed()
      modifies this
      ensures var step := Spec.Decide(vals, old(Model())); r == step.result && Did(old(outbox), old(decisions), step)
      ensures Owned() == old(Owned())
    {
      phase := Spec.Committed;
      if |current.commits| < Threshold(|vals|) || current.preprepare.None? {
        r := Halt();
        return;
      }
      var block := current.preprepare.value;
      decisions := decisions + [Spec.Decision(id, current.height, block.hash, current.commits)];
      if block.height == |chain| {
        chain := chain + [EntryOf(block)];
        if !block.datable {
          r := Halt();
          return;
        }
      }
      return Ok;
    }

    method HandleCommit(m: Message) returns (r: Result)
      requires Wellformed() && m.Commit?
      modifies this, current
      ensures var step := Spec.HandleCommit(vals, old(Model()), m);
              r == step.result && Did(old(outbox), old(decisions), step)
      ensures Owned() == old(Owned())
    {
      r := CheckMessage(Spec.CommitCode, m.subject.view);
      if r != Ok {
        return;
      }
      if m.seal.None? || m.seal.value.Unrecoverable? {
        return Err(Unknown);
      }
      if current.preprepare.None? {
        r := Halt();
        return;
      }
      var ok := current.AddCommit(m);
      if !ok {
        return Err(Unknown);
      }
      if |current.commits| > TwoThirds(|vals|) && phase != Spec.Committed {
        current.LockHash();
        r := Commit();
      }
    }

    method VoteAndEnter(round: Round, throttled: bool) returns (r: Result)
      requires Wellformed()
      modifies this, Owned()
      ensures var step := Spec.VoteAndEnter(vals, old(Model()), round, throttled);
              r == step.result && Did(old(outbox), old(decisions), step)
      ensures fresh(Owned() - old(Owned()))
    {
      hide Spec.StartNewRound;
      SendRoundChange(round, throttled);
      r := StartNewRound(round);
    }

    method HandleRoundChange(m: Message, throttled: bool, ghost env: Spec.Env) returns (r: Result)
      requires Wellformed() && m.RoundChange? && env.throttled == throttled
      modifies this, Owned()
      ensures var step := Spec.HandleRoundChange(vals, old(Model()), m, env);
              r == step.result && Did(old(outbox), old(decisions), step)
      ensures fresh(Owned() - old(Owned()))
    {
      hide Spec.VoteAndEnter;
      hide Spec.TallyVote;
      r := CheckMessage(Spec.RoundChangeCode, m.subject.view);
      if r != Ok {
        return;
      }
      var round := m.subject.view.round;
      if current.round > round && round > 0 {
        SendRoundChange(round, throttled);
        return;
      }
      var n := roundChangeSet.Add(m);
      if n.None? {
        return Err(Unknown);
      }
      if n.value >= Threshold(|vals|) && current.round < round {
        r := VoteAndEnter(round, throttled);
      } else if waiting && current.round < round {
        r := Err(FutureRoundMessage);
      }
    }

    method HandleRequest(block: Block) returns (r: Result)
      requires Wellformed()
      modifies this, current
      ensures var step := Spec.HandleRequest(old(Model()), block); r == step.result && Did(old(outbox), old(decisions), step)
      ensures Owned() == old(Owned())
    {
      if current.height == 0 {
        return Err(WaitNewRound);
      }
      if current.height > block.height {
        return Err(OldMessage);
      }
      if current.height < block.height {
        return Err(FutureMessage);
      }
      if phase != Spec.AcceptRequest {
        r := Halt();
        return;
      }
      current.pending := Some(block);
      SendPreprepare(block);
      return Ok;
    }

    // ----- events

    /** What an event may do to the core, given its state before and how much had been sent: it dies exactly on the
        events of `Panics`; a lock stays inside its height unless a new header restarts it; and a commit
        is the answer to a stored old proposal or a vote for the lock in the current view. */
    ghost predicate KeepsWord(s: Spec.Replica, e: Spec.Event, sent: nat)
      requires s.chain != []
      reads this, current, roundChangeSet
    {
      && sent <= |outbox| && s.chain <= chain && s.height <= current.height
      && (halted <==> s.halted || Invariants.Panics(vals, s, e))
      && (!Invariants.LockedReset(s, e) && current.height == s.height && s.lock.Some? ==> current.lock == s.lock)
      && (forall m :: m in outbox[sent..] ==> m.sender == id && (m.Commit? ==>
            if m.subject.view.height < s.height
            then Invariants.RepliesToOld(vals, s, e) && m.subject.digest == e.msg.proposal.hash
            else m.subject.view == s.CurrentView() && current.height == s.height && current.lock == Some(m.subject.digest)))
    }

    lemma StepKeepsWord(s: Spec.Replica, e: Spec.Event, sent: seq<Message>, decided: seq<Spec.Decision>)
      requires Invariants.Inv(vals, s) && !s.halted && s.id == id && Did(sent, decided, Spec.Next(vals, s, e))
      ensures Valid() && KeepsWord(s, e, |sent|)
    {
      hide Spec.Next;
      Invariants.NextKeepsInv(vals, s, e);
      Invariants.PanicsIff(vals, s, e);
      Runs.ViewGrows(vals, s, e);
      hide Invariants.Panics;
      var step := Spec.Next(vals, s, e);
      assert outbox[|sent|..] == step.sent;
      forall m | m in step.sent && m.Commit? && m.subject.view.height < s.height
        ensures Invariants.RepliesToOld(vals, s, e) && m.subject.digest == e.msg.proposal.hash
      {
        Invariants.OldReplyIff(vals, s, e, m);
      }
      if Invariants.LockedReset(s, e) {
        Invariants.ResetSendsNoVote(vals, s, e);
      } else {
        Invariants.NextFacts(vals, s, e);
      }
    }

    method NewHeader(block: Block) returns (r: Result)
      requires Valid() && !halted
      modifies this, Owned()
      ensures Valid() && fresh(Owned() - old(Owned()))
      ensures var e := Spec.NewHeader(block);
              && r == Spec.Next(vals, old(Model()), e).result
              && Did(old(outbox), old(decisions), Spec.Next(vals, old(Model()), e))
              && KeepsWord(old(Model()), e, |old(outbox)|)
    {
      ghost var s := Model();
      StartNewZeroRound();
      r := HandleRequest(block);
      StepKeepsWord(s, Spec.NewHeader(block), old(outbox), old(decisions));
    }

    method Timeout(throttled: bool, ghost verdict: Spec.Verdict) returns (ghost order: seq<Round>)
      requires Valid() && !halted
      modifies this
      ensures Valid() && Owned() == old(Owned())
      ensures var e := Spec.Timeout(Spec.Env(verdict, throttled, order));
              && Did(old(outbox), old(decisions), Spec.Next(vals, old(Model()), e))
              && KeepsWord(old(Model()), e, |old(outbox)|)
    {
      hide Spec.SendNextRoundChange;
      ghost var s := Model();
      order := [];
      if |chain| - 1 >= current.height {
        waiting := false;
      } else {
        var _, o := SendNextRoundChange(throttled, verdict, Ok);
        order := o;
      }
      StepKeepsWord(s, Spec.Timeout(Spec.Env(verdict, throttled, order)), old(outbox), old(decisions));
    }

    /** The engine reports that the block producer is done with a committed block. */
    method FinalCommitted()
      requires Valid() && !halted
      modifies this
      ensures Valid() && Owned() == old(Owned())
      ensures && Did(old(outbox), old(decisions), Spec.Next(vals, old(Model()), Spec.FinalCommitted))
              && KeepsWord(old(Model()), Spec.FinalCommitted, |old(outbox)|)
    {
      ghost var s := Model();
      waiting := false;
      StepKeepsWord(s, Spec.FinalCommitted, old(outbox), old(decisions));
    }

    /** Another part of the node, such as block sync, appends a block to the ledger. */
    method BlockInserted(entry: Entry)
      requires Valid()
      modifies this
      ensures Valid() && Owned() == old(Owned())
      ensures Did(old(outbox), old(decisions), Spec.Next(vals, old(Model()), Spec.BlockInserted(entry)))
    {
      ghost var s := Model();
      chain := chain + [entry];
      Invariants.NextKeepsInv(vals, s, Spec.BlockInserted(entry));
    }

    /** A message from the network: the sender must be a validator. */
    method HandleMessage(m: Message, verdict: Spec.Verdict, throttled: bool) returns (r: Result, ghost order: seq<Round>)
      requires Valid() && !halted
      modifies this, Owned()
      ensures Valid() && fresh(Owned() - old(Owned()))
      ensures var e := Spec.Deliver(m, Spec.Env(verdict, throttled, order));
              && r == Spec.Next(vals, old(Model()), e).result
              && Did(old(outbox), old(decisions), Spec.Next(vals, old(Model()), e))
              && KeepsWord(old(Model()), e, |old(outbox)|)
    {
      ghost var s := Model();
      r, order := Dispatch(m, verdict, throttled);
      StepKeepsWord(s, Spec.Deliver(m, Spec.Env(verdict, throttled, order)), old(outbox), old(decisions));
    }

    method Dispatch(m: Message, verdict: Spec.Verdict, throttled: bool) returns (r: Result, ghost order: seq<Round>)
      requires Wellformed()
      modifies this, Owned()
      ensures var step := Spec.HandleMessage(vals, old(Model()), m, Spec.Env(verdict, throttled, order));
              r == step.result && Did(old(outbox), old(decisions), step)
      ensures fresh(Owned() - old(Owned()))
    {
      order := [];
      if m.sender !in vals {
        return Err(UnauthorizedAddress), order;
      }
      match m {
        case Preprepare(_, _, _) => r, order := HandlePreprepare(m, verdict, throttled);
        case Prepare(_, _) => r := HandlePrepare(m);
        case Commit(_, _, _) => r := HandleCommit(m);
        case RoundChange(_, _) => r := HandleRoundChange(m, throttled, Spec.Env(verdict, throttled, order));
      }
    }

    /** Any event; a dead core only sees its ledger grow. `e` is the input with the order in which
        the vote table was read. */
    method Handle(input: Spec.Event) returns (ghost e: Spec.Event)
      requires Valid()
      modifies this, Owned()
      ensures Valid() && fresh(Owned() - old(Owned())) && SameInput(input, e)
      ensures Did(old(outbox), old(decisions), Spec.Next(vals, old(Model()), e))
    {
      hide KeepsWord;
      e := input;
      if input.BlockInserted? {
        BlockInserted(input.entry);
        return;
      }
      if halted {
        return;
      }
      match input {
        case NewHeader(block) => var _ := NewHeader(block);
        case Deliver(m, env) =>
          var _, order := HandleMessage(m, env.verdict, env.throttled);
          e := Spec.Deliver(m, Spec.Env(env.verdict, env.throttled, order));
        case Timeout(env) =>
          ghost var order := Timeout(env.throttled, env.verdict);
          e := Spec.Timeout(Spec.Env(env.verdict, env.throttled, order));
        case FinalCommitted => FinalCommitted();
      }
    }
  }

  /** The same event up to the order in which the vote table is read. */
  ghost predicate SameInput(a: Spec.Event, b: Spec.Event) {
    match a
    case Deliver(m, env) => b.Deliver? && b.msg == m && b.env.verdict == env.verdict && b.env.throttled == env.throttled
    case Timeout(env) => b.Timeout? && b.env.verdict == env.verdict && b.env.throttled == env.throttled
    case _ => a == b
  }

  /** A whole life: a core is built on a ledger and handles any inputs. Its states are a run of the replica, so all
      theorems about runs are about this object, and its outbox and decisions are those of the run. */
  method Session(id: Address, vals: Validators, period: Time, chain: seq<Entry>, inputs: seq<Spec.Event>)
      returns (core: Core, ghost states: seq<Spec.Replica>, ghost events: seq<Spec.Event>)
    requires chain != []
    ensures |events| == |inputs| && forall i :: 0 <= i < |inputs| ==> SameInput(inputs[i], events[i])
    ensures Runs.IsRun(vals, id, states, events) && core.Valid() && core.Model() == states[|events|]
    ensures core.outbox == Runs.AllSent(vals, states, events) && core.decisions == Runs.AllDecided(vals, states, events)
    ensures Runs.NoLockedReset(states, events) && Runs.NoContradiction(vals, states, events) ==> Runs.VotesAgree(core.outbox)
    ensures Runs.NoLockedReset(states, events) ==> Runs.DecisionsAgree(core.decisions)
  {
    hide Spec.Next;
    hide Invariants.Inv;
    hide Runs.Records;
    hide SameInput;
    core := new Core(id, vals, period, chain);
    Runs.RecordBegins(vals, id, period, chain);
    states, events := [core.Model()], [];
    for i := 0 to |inputs|
      invariant core.Valid() && core.vals == vals && fresh(core) && fresh(core.Owned())
      invariant |events| == i && forall k :: 0 <= k < i ==> SameInput(inputs[k], events[k])
      invariant Runs.Records(vals, id, states, events, core.Model(), core.outbox, core.decisions)
    {
      ghost var s, out, decided := core.Model(), core.outbox, core.decisions;
      ghost var e := core.Handle(inputs[i]);
      Runs.RecordGrows(vals, id, states, events, s, out, decided, e);
      states, events := states + [core.Model()], events + [e];
    }
    SessionAgrees(vals, id, states, events, core.Model(), core.outbox, core.decisions);
  }

  lemma SessionAgrees(vals: Validators, id: Address, states: seq<Spec.Replica>, events: seq<Spec.Event>,
                      s: Spec.Replica, out: seq<Message>, decided: seq<Spec.Decision>)
    requires Runs.Records(vals, id, states, events, s, out, decided)
    ensures Runs.IsRun(vals, id, states, events) && s == states[|events|]
    ensures out == Runs.AllSent(vals, states, events) && decided == Runs.AllDecided(vals, states, events)
    ensures Runs.NoLockedReset(states, events) && Runs.NoContradiction(vals, states, events) ==> Runs.VotesAgree(out)
    ensures Runs.NoLockedReset(states, events) ==> Runs.DecisionsAgree(decided)
  {
    Runs.RunVotesAgree(vals, id, states, events);
    Runs.RunDecisionsAgree(vals, id, states, events);
  }
}
