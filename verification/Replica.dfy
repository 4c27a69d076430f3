/** One consensus replica as a value, and what each handler does to it.
    These functions are the specification of the imperative `Core` class; the
    invariants and the network theorems are proved about them. */
module Replica {
  import opened Types
  import opened Quorum
  import opened ValidatorSet

  datatype Phase = AcceptRequest | PrePrepared | Prepared | Committed

  /** Votes keyed by validator address. */
  type Votes = map<Address, Message>

  /** The state of a core after it has started.
      `chain` is the local ledger, indexed by height, and `period` the configured time between blocks.
      `halted` is set when the actor has died of a panic. */
  datatype Replica = Replica(
    id: Address,
    phase: Phase,
    proposer: Option<Address>,
    height: nat,
    round: Round,
    preprepare: Option<Block>,
    prepares: Votes,
    commits: Votes,
    pending: Option<Block>,
    lock: Option<Hash>,
    roundChanges: map<Round, Votes>,
    waiting: bool,
    chain: seq<Entry>,
    halted: bool,
    period: Time
  ) {
    function CurrentView(): View {
      View(height, round)
    }

    function LastHash(): Hash
      requires chain != []
    {
      chain[|chain| - 1].hash
    }

    predicate IsProposer(a: Address) {
      proposer == Some(a)
    }
  }

  /** A call to `commit()`: the votes are the commits counted at that moment. */
  datatype Decision = Decision(node: Address, height: nat, digest: Hash, votes: Votes)

  datatype Step = Step(next: Replica, result: Result, sent: seq<Message>, decided: Option<Decision>)

  datatype Verdict = Acceptable | FutureBlock | Rejected

  /** What a handler reads outside its state: the engine's verdict on a proposal, whether the
      round-change limiter holds the message back, and the iteration order of the vote table. */
  datatype Env = Env(verdict: Verdict, throttled: bool, order: seq<Round>)

  datatype Event =
    | NewHeader(proposal: Block)
    | Deliver(msg: Message, env: Env)
    | Timeout(env: Env)
    | FinalCommitted
    | BlockInserted(entry: Entry)

  function Quiet(s: Replica, result: Result): Step {
    Step(s, result, [], None)
  }

  /** A step preceded by messages already sent. */
  function After(sent: seq<Message>, step: Step): Step {
    step.(sent := sent + step.sent)
  }

  function Halt(s: Replica): Step {
    Quiet(s.(halted := true), Panic)
  }

  // ----- rounds

  /** A fresh view at the height above the ledger; everything of the old view is dropped,
      the lock included. */
  function StartNewZeroRound(vals: Validators, s: Replica): Replica
    requires s.chain != []
  {
    s.(height := |s.chain|, round := 0, preprepare := None, prepares := map[], commits := map[],
       pending := None, lock := None, roundChanges := map[], waiting := false,
       phase := AcceptRequest, proposer := SelectProposer(s.LastHash(), 0, vals))
  }

  function SendPreprepare(s: Replica, block: Block): seq<Message> {
    if s.height == block.height && s.IsProposer(s.id)
    then [Preprepare(s.id, s.CurrentView(), block)] else []
  }

  /** The next round at the same height: a held lock keeps its proposal. */
  function EnterRound(vals: Validators, s: Replica, round: Round): Replica
    requires s.chain != []
  {
    s.(round := round, prepares := map[], commits := map[], roundChanges := map[], waiting := false,
       preprepare := if s.lock.Some? then s.preprepare else None,
       phase := AcceptRequest, proposer := SelectProposer(s.LastHash(), round, vals))
  }

  /** The assertions of a round change, the return behind the ledger, the checked sum of the proposer
      selection, and the proposal. Nobody reads the fields of a replica that died halfway. */
  function StartNewRound(vals: Validators, s: Replica, round: Round): Step
    requires s.chain != []
  {
    if round == 0 || round <= s.round || |s.chain| < s.height then Halt(s)
    else if |s.chain| - 1 > s.height then Quiet(s, Ok)
    else if SelectProposer(s.LastHash(), round, vals).None? then Halt(s)
    else
      var t := EnterRound(vals, s, round);
      if !t.IsProposer(t.id) then Quiet(t, Ok)
      else if t.lock.Some? then
        if t.preprepare.None? then Halt(t) else Step(t, Ok, SendPreprepare(t, t.preprepare.value), None)
      else
        if t.pending.None? then Halt(t) else Step(t, Ok, SendPreprepare(t, t.pending.value), None)
  }

  // ----- round-change votes

  function VoteCount(table: map<Round, Votes>, round: Round): nat {
    if round in table then |table[round]| else 0
  }

  /** The scan of `max_round` over the table in a given iteration order. */
  function ScanMax(table: map<Round, Votes>, order: seq<Round>): (Round, nat) {
    if order == [] then (0, 0)
    else
      var (max, total) := ScanMax(table, order[..|order| - 1]);
      var r := order[|order| - 1];
      if VoteCount(table, r) >= total && r > max then (r, VoteCount(table, r)) else (max, total)
  }

  function SendRoundChange(s: Replica, round: Round, throttled: bool): (Replica, seq<Message>) {
    if throttled then (s, [])
    else
      (if s.round < round then s.(waiting := true) else s,
       [RoundChange(s.id, Subject(View(s.height, round), EmptyHash()))])
  }

  function EmptyHash(): Hash {
    seq(32, _ => 0)
  }

  /** Vote for the scanned maximum or, if that is not ahead, for the next round; no round is ahead of
      the last one, and there is none after it. */
  function SendNextRoundChange(s: Replica, env: Env, result: Result): Step {
    if s.round == MAX_ROUND then Halt(s)
    else
      var max := ScanMax(s.roundChanges, env.order).0;
      var (t, out) := SendRoundChange(s, if max <= s.round then s.round + 1 else max, env.throttled);
      Step(t, result, out, None)
  }

  /** Votes of a round, an absent entry being empty. */
  function VotesOf(table: map<Round, Votes>, round: Round): Votes {
    if round in table then table[round] else map[]
  }

  // ----- message checks

  datatype Code = PreprepareCode | PrepareCode | CommitCode | RoundChangeCode

  /** Height and phase only: the rounds are not compared. */
  function CheckMessage(s: Replica, code: Code, view: View): Result {
    if view.height == 0 then Err(Unknown)
    else if view.height > s.height then Err(FutureBlockMessage(view.height))
    else if view.height < s.height then Err(OldMessage)
    else if code != RoundChangeCode && s.phase == AcceptRequest && code != PreprepareCode then Err(FutureMessage)
    else Ok
  }

  // ----- preprepare

  /** `lock_hash`: lock the stored proposal, if there is one. */
  function LockHash(s: Replica): Replica {
    if s.preprepare.None? then s else s.(lock := Some(s.preprepare.value.hash))
  }

  function CommitVote(id: Address, view: View, digest: Hash): Message {
    Commit(id, Subject(view, digest), Some(Seal(id, digest)))
  }

  function SendCommit(s: Replica): Step {
    if s.preprepare.None? then Halt(s)
    else Step(s, Ok, [CommitVote(s.id, s.CurrentView(), s.preprepare.value.hash)], None)
  }

  function SendPrepare(s: Replica): Step {
    if s.preprepare.None? then Halt(s)
    else Step(s, Ok, [Prepare(s.id, Subject(s.CurrentView(), s.preprepare.value.hash))], None)
  }

  /** Whether an old proposal is the block stored at its height. */
  predicate IsStored(s: Replica, block: Block) {
    block.height < |s.chain| && s.chain[block.height].hash == block.hash
  }

  /** The commit sent for an old proposal that came from the proposer of its view. */
  function OldBlockReply(vals: Validators, s: Replica, m: Message): seq<Message>
    requires m.Preprepare?
  {
    if SelectProposer(m.proposal.prevHash, m.view.round, vals) == Some(m.sender)
    then [CommitVote(s.id, m.view, m.proposal.hash)] else []
  }

  // ----- the engine

  /** The parent that a block names is the stored block below its height. */
  predicate HasParent(s: Replica, block: Block) {
    0 < block.height <= |s.chain| && s.chain[block.height - 1].hash == block.prevHash
  }

  /** The engine dies on a block: its transactions have no root, or its parent is stored and
      the parent's time and the period do not add up in 64 bits. */
  predicate EngineFails(s: Replica, block: Block) {
    || block.txs == NoRoot
    || (block.txs == TxsFit && HasParent(s, block) && s.chain[block.height - 1].time + s.period >= U64)
  }

  /** The transactions fit, and the block names the parent and is a period later. */
  predicate Follows(block: Block, parent: Entry, period: Time) {
    block.txs == TxsFit && block.prevHash == parent.hash && parent.time + period <= block.time
  }

  /** The verdict of the code's engine where it does not die. */
  function EngineVerdict(s: Replica, block: Block): Verdict {
    if HasParent(s, block) && Follows(block, s.chain[block.height - 1], s.period) then Acceptable else Rejected
  }

  /** The event comes with the verdict of the code's engine. */
  predicate Genuine(s: Replica, e: Event) {
    e.Deliver? && e.msg.Preprepare? ==> e.env.verdict == EngineVerdict(s, e.msg.proposal)
  }

  /** The verdict is left open, whatever the engine; only where it dies is fixed. */
  function AcceptProposal(vals: Validators, s: Replica, m: Message, env: Env): Step
    requires m.Preprepare?
  {
    if !s.IsProposer(m.sender) then Quiet(s, Err(NotFromProposer))
    else if EngineFails(s, m.proposal) then Halt(s)
    else if env.verdict == FutureBlock then Quiet(s, Err(FutureBlockMessage(m.proposal.height)))
    else if env.verdict == Rejected then SendNextRoundChange(s, env, Err(Unknown))
    else if s.phase != AcceptRequest then Quiet(s, Ok)
    else if s.lock.None? then
      SendPrepare(s.(preprepare := Some(m.proposal), phase := PrePrepared))
    else if m.proposal.hash == s.lock.value then
      SendCommit(s.(preprepare := Some(m.proposal), phase := Prepared))
    else SendNextRoundChange(s, env, Ok)
  }

  /** An old proposal on which the checked arithmetic fails: it is the genesis block, which has no height
      below, or the seed of its parent and the round of its view do not add up in 64 bits. */
  predicate BreaksOldReply(vals: Validators, m: Message)
    requires m.Preprepare?
  {
    m.proposal.height == 0 || SelectProposer(m.proposal.prevHash, m.view.round, vals).None?
  }

  function HandlePreprepare(vals: Validators, s: Replica, m: Message, env: Env): Step
    requires m.Preprepare?
  {
    match CheckMessage(s, PreprepareCode, m.view)
    case Ok => AcceptProposal(vals, s, m, env)
    case Err(FutureBlockMessage(_)) => AcceptProposal(vals, s, m, env)
    case Err(OldMessage) =>
      if !IsStored(s, m.proposal) then Quiet(s, Err(InvalidProposal))
      else if BreaksOldReply(vals, m) then Halt(s)
      else After(OldBlockReply(vals, s, m), AcceptProposal(vals, s, m, env))
    case other => Quiet(s, other)
  }

  // ----- prepare

  /** Lock, move to Prepared and send a commit. */
  function LockAndVote(s: Replica): (step: Step)
    ensures step.decided.None?
  {
    SendCommit(LockHash(s).(phase := Prepared))
  }

  function PrepareOrCommitSize(s: Replica): nat {
    |s.prepares.Keys + s.commits.Keys|
  }

  /** A prepare for the locked hash is answered with a commit at once. */
  function VoteIfLocked(s: Replica, m: Message): (step: Step)
    requires m.Prepare?
    ensures step.decided.None?
  {
    if s.lock == Some(m.subject.digest) then LockAndVote(s) else Quiet(s, Ok)
  }

  function LockWithQuorum(vals: Validators, s: Replica): Step {
    if PrepareOrCommitSize(s) > TwoThirds(|vals|) then LockAndVote(s) else Quiet(s, Ok)
  }

  function AcceptPrepare(vals: Validators, s: Replica, m: Message): Step
    requires m.Prepare?
  {
    var first := VoteIfLocked(s, m);
    if first.result == Panic then first else After(first.sent, LockWithQuorum(vals, first.next))
  }

  function HandlePrepare(vals: Validators, s: Replica, m: Message): Step
    requires m.Prepare?
  {
    var check := CheckMessage(s, PrepareCode, m.subject.view);
    if check != Ok then Quiet(s, check)
    else if m.subject.view != s.CurrentView() then Quiet(s, Err(InconsistentSubject))
    else if m.sender !in vals then Quiet(s, Err(Unknown))
    else AcceptPrepare(vals, s.(prepares := s.prepares[m.sender := m]), m)
  }

  // ----- commit

  /** `insert_block` as seen from consensus: only the block right above the ledger is added. */
  function InsertBlock(chain: seq<Entry>, block: Block): seq<Entry> {
    if block.height == |chain| then chain + [EntryOf(block)] else chain
  }

  /** The insertion writes a log line with the block's date, which panics when there is none. */
  predicate FailsToLog(s: Replica, block: Block) {
    block.height == |s.chain| && !block.datable
  }

  function Decide(vals: Validators, s: Replica): Step {
    if |s.commits| <= TwoThirds(|vals|) || s.preprepare.None? then Halt(s.(phase := Committed))
    else
      var block := s.preprepare.value;
      var dies := FailsToLog(s, block);
      Step(s.(phase := Committed, chain := InsertBlock(s.chain, block), halted := s.halted || dies),
           if dies then Panic else Ok, [], Some(Decision(s.id, s.height, block.hash, s.commits)))
  }

  function AcceptCommit(vals: Validators, s: Replica): Step {
    if |s.commits| > TwoThirds(|vals|) && s.phase != Committed
    then Decide(vals, LockHash(s)) else Quiet(s, Ok)
  }

  /** A seal of which some signer can be recovered. Whose it is, and over what, is not compared. */
  predicate Sealed(m: Message)
    requires m.Commit?
  {
    m.seal.Some? && m.seal.value.Seal?
  }

  /** A subject that differs from the current one is only logged, then counted. */
  function HandleCommit(vals: Validators, s: Replica, m: Message): Step
    requires m.Commit?
  {
    var check := CheckMessage(s, CommitCode, m.subject.view);
    if check != Ok then Quiet(s, check)
    else if !Sealed(m) then Quiet(s, Err(Unknown))
    else if s.preprepare.None? then Halt(s)
    else if m.sender !in vals then Quiet(s, Err(Unknown))
    else AcceptCommit(vals, s.(commits := s.commits[m.sender := m]))
  }

  // ----- round change

  /** Enter a vote in the table; the entry of its round is created even for a stranger. */
  function TallyVote(table: map<Round, Votes>, m: Message, vals: Validators): map<Round, Votes>
    requires m.RoundChange?
  {
    var votes := VotesOf(table, m.subject.view.round);
    table[m.subject.view.round := if m.sender in vals then votes[m.sender := m] else votes]
  }

  function AddRoundChange(s: Replica, m: Message, vals: Validators): Replica
    requires m.RoundChange?
  {
    s.(roundChanges := TallyVote(s.roundChanges, m, vals))
  }

  /** Join the vote for a round that has its quorum, then start the round. */
  function VoteAndEnter(vals: Validators, s: Replica, round: Round, throttled: bool): Step
    requires s.chain != []
  {
    var (u, out) := SendRoundChange(s, round, throttled);
    After(out, StartNewRound(vals, u, round))
  }

  function HandleRoundChange(vals: Validators, s: Replica, m: Message, env: Env): Step
    requires m.RoundChange? && s.chain != []
  {
    var check := CheckMessage(s, RoundChangeCode, m.subject.view);
    var round := m.subject.view.round;
    if check != Ok then Quiet(s, check)
    else if s.round > round && round > 0 then
      var (t, out) := SendRoundChange(s, round, env.throttled);
      Step(t, Ok, out, None)
    else
      var t := AddRoundChange(s, m, vals);
      if m.sender !in vals then Quiet(t, Err(Unknown))
      else if VoteCount(t.roundChanges, round) >= Threshold(|vals|) && s.round < round then
        VoteAndEnter(vals, t, round, env.throttled)
      else if s.waiting && s.round < round then Quiet(t, Err(FutureRoundMessage))
      else Quiet(t, Ok)
  }

  // ----- requests and timers

  function HandleRequest(s: Replica, block: Block): Step {
    if s.height == 0 then Quiet(s, Err(WaitNewRound))
    else if s.height > block.height then Quiet(s, Err(OldMessage))
    else if s.height < block.height then Quiet(s, Err(FutureMessage))
    else if s.phase != AcceptRequest then Halt(s)
    else
      var t := s.(pending := Some(block));
      Step(t, Ok, SendPreprepare(t, block), None)
  }

  function HandleTimeout(s: Replica, env: Env): Step
    requires s.chain != []
  {
    if |s.chain| - 1 >= s.height then Quiet(s.(waiting := false), Ok)
    else SendNextRoundChange(s, env, Ok)
  }

  function HandleMessage(vals: Validators, s: Replica, m: Message, env: Env): Step
    requires s.chain != []
  {
    if m.sender !in vals then Quiet(s, Err(UnauthorizedAddress))
    else
      match m
      case Preprepare(_, _, _) => HandlePreprepare(vals, s, m, env)
      case Prepare(_, _) => HandlePrepare(vals, s, m)
      case Commit(_, _, _) => HandleCommit(vals, s, m)
      case RoundChange(_, _) => HandleRoundChange(vals, s, m, env)
  }

  // ----- the whole replica

  /** What one event does; a halted replica ignores everything but its ledger. */
  function Next(vals: Validators, s: Replica, e: Event): Step
    requires s.chain != []
  {
    match e
    case BlockInserted(entry) => Quiet(s.(chain := s.chain + [entry]), Ok)
    case _ =>
      if s.halted then Quiet(s, Panic)
      else
        match e
        case NewHeader(block) => HandleRequest(StartNewZeroRound(vals, s), block)
        case Deliver(m, env) => HandleMessage(vals, s, m, env)
        case Timeout(env) => HandleTimeout(s, env)
        case FinalCommitted => Quiet(s.(waiting := false), Ok)
  }

  /** A core that has just run `started()` on a ledger. */
  function Start(vals: Validators, id: Address, period: Time, chain: seq<Entry>): Replica
    requires chain != []
  {
    StartNewZeroRound(vals, Replica(id, AcceptRequest, None, |chain| - 1, 0, None, map[], map[], None,
                                    Some(chain[|chain| - 1].hash), map[], false, chain, false, period))
  }
}
