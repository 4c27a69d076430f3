/** Network runs, for every size of the validator set, that show which conditions agreement needs and that they can be
    met. All validators are correct in them. */
module Disagreements {
  import opened Types
  import opened Quorum
  import opened ValidatorSet
  import opened Replica
  import opened ReplicaInvariants
  import opened Ballots
  import opened Network
  import opened SingleVote

  // ----- the cast

  /** Validators on a ledger that holds only the genesis block, with their period. */
  datatype Cast = Cast(vals: Validators, genesis: Entry, period: Time) {

    ghost predicate Valid() {
      Distinct(vals)
    }

    /** The proposer of round 0. */
    function Lead(): (a: Address)
      ensures a in vals && SelectProposer(genesis.hash, 0, vals) == Some(a)
    {
      FirstProposer(genesis.hash, vals);
      SelectProposer(genesis.hash, 0, vals).value
    }

    /** A replica at height 1 that holds at most a pending request. */
    function Fresh(id: Address, pending: Option<Block>): Replica {
      Replica(id, AcceptRequest, Some(Lead()), 1, 0, None, map[], map[], pending, None, map[], false, [genesis], false,
              period)
    }

    function Voting(id: Address, pending: Option<Block>, block: Block): Replica {
      Fresh(id, pending).(preprepare := Some(block), phase := PrePrepared)
    }

    /** Locked on the block after the prepares of some voters. */
    function Locked(id: Address, pending: Option<Block>, block: Block, prepares: Votes): Replica {
      Voting(id, pending, block).(prepares := prepares, lock := Some(block.hash), phase := Prepared)
    }

    /** A live replica of this cast whose ledger has not grown. */
    predicate Grounded(s: Replica) {
      s.chain == [genesis] && s.period == period && !s.halted
    }

    /** A block on the genesis block that the engine accepts. */
    predicate Sound(block: Block) {
      block.height == 1 && Follows(block, genesis, period)
    }

    function Proposal(block: Block): Message {
      Preprepare(Lead(), View(1, 0), block)
    }
  }

  /** Each voter's prepare for its own digest. */
  function PrepareOf(digest: Address -> Hash): Address -> Message {
    (a: Address) => Prepare(a, Subject(View(1, 0), digest(a)))
  }

  function CommitOf(digest: Address -> Hash): Address -> Message {
    (a: Address) => CommitVote(a, View(1, 0), digest(a))
  }

  // ----- runs

  datatype Run = Run(nets: seq<Network>, actions: seq<Action>) {
    ghost predicate Valid(c: Cast) {
      nets != [] && IsNetRun(c.vals, nets, actions)
    }

    ghost function Last(): Network
      requires nets != []
    {
      nets[|nets| - 1]
    }

    /** No locked replica restarts its height. */
    ghost predicate Steady() {
      |nets| == |actions| + 1 && NoRestarts(nets, actions)
    }

    /** All verdicts are those of the engine. */
    ghost predicate Authentic() {
      |nets| == |actions| + 1 && GenuineRun(nets, actions)
    }

    ghost predicate Disciplined(c: Cast) {
      |nets| == |actions| + 1 && LockDiscipline(c.vals, nets, actions)
    }
  }

  /** A longer run that has kept whatever discipline the shorter one had. */
  ghost predicate Extends(c: Cast, r: Run, r': Run) {
    && r.Valid(c) && r'.Valid(c) && r.Last().sent <= r'.Last().sent && r.Last().decisions <= r'.Last().decisions
    && (r.Steady() ==> r'.Steady()) && (r.Disciplined(c) ==> r'.Disciplined(c)) && (r.Authentic() ==> r'.Authentic())
  }

  lemma ExtendsMore(c: Cast, r: Run, r1: Run, r2: Run)
    requires Extends(c, r, r1) && Extends(c, r1, r2)
    ensures Extends(c, r, r2) && r2.Valid(c) && r2.nets != [] && r1.nets != [] && r.nets != []
    ensures r.Last().sent <= r1.Last().sent <= r2.Last().sent
  {
    hide NoRestarts;
    hide LockDiscipline;
    hide GenuineRun;
  }

  lemma ExtendsItself(c: Cast, r: Run)
    requires r.Valid(c)
    ensures Extends(c, r, r) && r.nets != []
  {
  }

  lemma Extend(c: Cast, r: Run, a: Action) returns (r': Run)
    requires r.Valid(c) && Enabled(r.Last(), a)
    ensures r'.Valid(c) && r'.Last() == Apply(c.vals, r.Last(), a)
    ensures r.Steady() && !DropsLock(r.Last(), a) ==> r'.Steady()
    ensures r.Authentic() && (a.Local? && a.node in r.Last().nodes ==> Genuine(r.Last().nodes[a.node], a.event))
            ==> r'.Authentic()
    ensures r.Disciplined(c) && !DropsLock(r.Last(), a) && !ContradictsSent(c.vals, r.Last(), a) ==> r'.Disciplined(c)
  {
    hide Next;
    hide ContradictsSent;
    hide Apply;
    hide Enabled;
    r' := Run(r.nets + [Apply(c.vals, r.Last(), a)], r.actions + [a]);
    forall i | 0 <= i < |r'.actions|
      ensures Enabled(r'.nets[i], r'.actions[i]) && r'.nets[i + 1] == Apply(c.vals, r'.nets[i], r'.actions[i])
    {
      if i < |r.actions| {
        assert r'.nets[i] == r.nets[i] && r'.nets[i + 1] == r.nets[i + 1] && r'.actions[i] == r.actions[i];
      }
    }
    assert forall i :: 0 <= i < |r.actions| ==> r'.nets[i] == r.nets[i] && r'.actions[i] == r.actions[i];
  }

  /** What some actions of replica `id` leave behind: its new state, more messages and decisions, all else as before. */
  ghost predicate Moved(c: Cast, r: Run, r': Run, id: Address, s: Replica, sent: set<Message>, decided: set<Decision>) {
    && r.nets != [] && r'.Valid(c)
    && r'.Last() == Network(r.Last().nodes[id := s], r.Last().sent + sent, r.Last().decisions + decided)
  }

  lemma DoAction(c: Cast, r: Run, id: Address, e: Event) returns (r': Run)
    requires r.Valid(c) && id in r.Last().nodes && r.Last().nodes[id].chain != []
    requires e.Deliver? ==> e.msg in r.Last().sent
    ensures var s := r.Last().nodes[id];
            var step := Next(c.vals, s, e);
            && Moved(c, r, r', id, step.next, ToSet(step.sent), if step.decided.Some? then {step.decided.value} else {})
            && (r.Steady() && !LockedReset(s, e) ==> r'.Steady()) && (r.Authentic() && Genuine(s, e) ==> r'.Authentic())
            && (r.Disciplined(c) && !LockedReset(s, e) && !RepliesToOld(c.vals, s, e) ==> r'.Disciplined(c))
  {
    hide Next;
    hide RepliesToOld;
    r' := Extend(c, r, Local(id, e));
  }

  lemma NoMessages()
    ensures ToSet<Message>([]) == {}
  {
  }

  lemma OneMessage(m: Message)
    ensures ToSet([m]) == {m}
  {
  }

  // ----- what one replica does

  lemma HeaderStep(c: Cast, s: Replica, block: Block)
    requires c.Grounded(s) && block.height == 1
    ensures var step := Next(c.vals, s, NewHeader(block));
            && step.next == c.Fresh(s.id, Some(block)) && step.decided.None?
            && step.sent == if s.id == c.Lead() then [c.Proposal(block)] else []
  {
    assert SelectProposer(c.genesis.hash, 0, c.vals) == Some(c.Lead());
    hide SelectProposer;
  }

  lemma AcceptStep(c: Cast, id: Address, pending: Option<Block>, block: Block)
    requires c.Sound(block)
    ensures Genuine(c.Fresh(id, pending), Deliver(c.Proposal(block), ACCEPT))
    ensures Next(c.vals, c.Fresh(id, pending), Deliver(c.Proposal(block), ACCEPT))
            == Step(c.Voting(id, pending, block), Ok, [Prepare(id, Subject(View(1, 0), block.hash))], None)
  {
    assert c.Lead() in c.vals;
    hide SelectProposer;
  }

  lemma DoHeader(c: Cast, r: Run, id: Address, block: Block) returns (r': Run)
    requires r.Valid(c) && id in r.Last().nodes && block.height == 1
    requires var s := r.Last().nodes[id]; s.id == id && c.Grounded(s)
    ensures Moved(c, r, r', id, c.Fresh(id, Some(block)), if id == c.Lead() then {c.Proposal(block)} else {}, {})
    ensures r.Last().nodes[id].lock.None? ==> Extends(c, r, r')
    ensures r.Authentic() ==> r'.Authentic()
  {
    hide Next;
    HeaderStep(c, r.Last().nodes[id], block);
    r' := DoAction(c, r, id, NewHeader(block));
    NoMessages();
    OneMessage(c.Proposal(block));
  }

  lemma DoAccept(c: Cast, r: Run, id: Address, pending: Option<Block>, block: Block) returns (r': Run)
    requires r.Valid(c) && id in r.Last().nodes && r.Last().nodes[id] == c.Fresh(id, pending)
    requires c.Proposal(block) in r.Last().sent && c.Sound(block)
    ensures Moved(c, r, r', id, c.Voting(id, pending, block), {Prepare(id, Subject(View(1, 0), block.hash))}, {})
    ensures Extends(c, r, r')
  {
    hide Next;
    AcceptStep(c, id, pending, block);
    r' := DoAction(c, r, id, Deliver(c.Proposal(block), ACCEPT));
    OneMessage(Prepare(id, Subject(View(1, 0), block.hash)));
  }

  lemma Still(c: Cast, r: Run, id: Address)
    requires r.Valid(c) && id in r.Last().nodes
    ensures Extends(c, r, r) && Moved(c, r, r, id, r.Last().nodes[id], {}, {})
  {
    var net := r.Last();
    assert net == Network(net.nodes[id := net.nodes[id]], net.sent + {}, net.decisions + {});
  }

  /** One more vote for a replica that has only stored votes so far. */
  lemma DoVote(c: Cast, r: Run, r1: Run, id: Address, s: Replica, m: Message) returns (r2: Run)
    requires Extends(c, r, r1) && Moved(c, r, r1, id, s, {}, {}) && s.chain != []
    requires !m.Preprepare? && m in r.Last().sent
    ensures Extends(c, r, r2)
    ensures var step := Next(c.vals, s, Deliver(m, ACCEPT));
            Moved(c, r, r2, id, step.next, ToSet(step.sent), if step.decided.Some? then {step.decided.value} else {})
  {
    hide Next;
    hide NoRestarts;
    hide LockDiscipline;
    hide GenuineRun;
    r2 := DoAction(c, r1, id, Deliver(m, ACCEPT));
    var step := Next(c.vals, s, Deliver(m, ACCEPT));
    var decided := if step.decided.Some? then {step.decided.value} else {};
    assert r2.Last() == Network(r.Last().nodes[id := step.next], r.Last().sent + ToSet(step.sent), r.Last().decisions + decided);
  }

  lemma DoLock(c: Cast, r: Run, id: Address, pending: Option<Block>, block: Block, voters: seq<Address>, digest: Address -> Hash)
      returns (r': Run)
    requires r.Valid(c) && id in r.Last().nodes && r.Last().nodes[id] == c.Voting(id, pending, block)
    requires IsQuorum(c.vals, voters) && forall a :: a in voters ==> PrepareOf(digest)(a) in r.Last().sent
    ensures Moved(c, r, r', id, c.Locked(id, pending, block, Ballot(voters, PrepareOf(digest))),
                  {CommitVote(id, View(1, 0), block.hash)}, {})
    ensures Extends(c, r, r')
  {
    hide Next;
    hide SelectProposer;
    var vote := PrepareOf(digest);
    var s := c.Voting(id, pending, block);
    assert voters[..0] == [];
    assert Ballot(voters[..0], vote) == map[];
    assert Waiting(s, block, voters, vote, 0);
    r' := r;
    Still(c, r, id);
    NoMessages();
    hide Moved;
    hide Extends;
    hide Ballot;
    hide Cast.Locked;
    var q := TwoThirds(|c.vals|);
    for k := 0 to q
      invariant Extends(c, r, r')
      invariant Waiting(s.(prepares := Ballot(voters[..k], vote)), block, voters, vote, k)
      invariant Moved(c, r, r', id, s.(prepares := Ballot(voters[..k], vote)), {}, {})
    {
      PrepareWaits(c.vals, s.(prepares := Ballot(voters[..k], vote)), block, voters, vote, k);
      r' := DoVote(c, r, r', id, s.(prepares := Ballot(voters[..k], vote)), vote(voters[k]));
    }
    var t := s.(prepares := Ballot(voters[..q], vote));
    PrepareLocks(c.vals, t, block, voters, vote);
    OneMessage(CommitVote(id, View(1, 0), block.hash));
    r' := DoVote(c, r, r', id, t, vote(voters[q]));
    LockedIs(c, id, pending, block, t, Ballot(voters, vote));
  }

  lemma LockedIs(c: Cast, id: Address, pending: Option<Block>, block: Block, t: Replica, prepares: Votes)
    requires t == c.Voting(id, pending, block).(prepares := t.prepares)
    ensures t.(prepares := prepares, lock := Some(block.hash), phase := Prepared) == c.Locked(id, pending, block, prepares)
  {
  }

  lemma DoDecide(c: Cast, r: Run, id: Address, pending: Option<Block>, block: Block, prepares: Votes,
                 voters: seq<Address>, digest: Address -> Hash) returns (r': Run, s': Replica)
    requires r.Valid(c) && id in r.Last().nodes && r.Last().nodes[id] == c.Locked(id, pending, block, prepares)
    requires IsQuorum(c.vals, voters) && forall a :: a in voters ==> CommitOf(digest)(a) in r.Last().sent
    ensures Moved(c, r, r', id, s', {}, {Decision(id, 1, block.hash, Ballot(voters, CommitOf(digest)))})
    ensures Extends(c, r, r')
  {
    hide Next;
    hide SelectProposer;
    var vote := CommitOf(digest);
    var s := c.Locked(id, pending, block, prepares);
    assert voters[..0] == [];
    assert Ballot(voters[..0], vote) == map[];
    assert Collecting(s, block, voters, vote, 0);
    r' := r;
    Still(c, r, id);
    NoMessages();
    hide Moved;
    hide Extends;
    hide Ballot;
    hide Cast.Locked;
    var q := TwoThirds(|c.vals|);
    for k := 0 to q
      invariant Extends(c, r, r')
      invariant Collecting(s.(commits := Ballot(voters[..k], vote)), block, voters, vote, k)
      invariant Moved(c, r, r', id, s.(commits := Ballot(voters[..k], vote)), {}, {})
    {
      CommitWaits(c.vals, s.(commits := Ballot(voters[..k], vote)), block, voters, vote, k);
      r' := DoVote(c, r, r', id, s.(commits := Ballot(voters[..k], vote)), vote(voters[k]));
    }
    var t := s.(commits := Ballot(voters[..q], vote));
    CommitDecides(c.vals, t, block, voters, vote);
    r' := DoVote(c, r, r', id, t, vote(voters[q]));
    s' := Next(c.vals, t, Deliver(vote(voters[q]), ACCEPT)).next;
  }

  // ----- what all replicas do

  /** The replicas are exactly the validators, each in its own state. */
  ghost predicate NodesAre(c: Cast, net: Network, state: Address -> Replica) {
    net.nodes == map a | a in c.vals :: state(a)
  }

  function FreshWith(c: Cast, pending: Address -> Option<Block>): Address -> Replica {
    (a: Address) => c.Fresh(a, pending(a))
  }

  function VotingFor(c: Cast, pending: Address -> Option<Block>, block: Address -> Block): Address -> Replica {
    (a: Address) => c.Voting(a, pending(a), block(a))
  }

  function LockedOn(c: Cast, pending: Address -> Option<Block>, block: Address -> Block, prepares: Votes): Address -> Replica {
    (a: Address) => c.Locked(a, pending(a), block(a), prepares)
  }

  function HashOf(block: Address -> Block): Address -> Hash {
    (a: Address) => block(a).hash
  }

  function Nobody(): Address -> Option<Block> {
    (a: Address) => None
  }

  function Everybody(block: Block): Address -> Option<Block> {
    (a: Address) => Some(block)
  }

  lemma Begin(c: Cast) returns (r: Run)
    ensures r.Valid(c) && r.Steady() && r.Disciplined(c) && r.Authentic() && NodesAre(c, r.Last(), FreshWith(c, Nobody()))
    ensures r.Last().sent == {} && r.Last().decisions == {} && r.nets[0] == r.Last()
  {
    var state := FreshWith(c, Nobody());
    var nodes := map a | a in c.vals :: state(a);
    r := Run([Network(nodes, {}, {})], []);
    forall p | p in nodes ensures nodes[p] == Start(c.vals, p, c.period, [c.genesis]) {
      assert SelectProposer(c.genesis.hash, 0, c.vals) == Some(c.Lead());
    }
  }

  /** The first i validators are in a new state, the others still in the old one. */
  ghost predicate HalfWay(c: Cast, net: Network, before: Address -> Replica, after: Address -> Replica, i: nat)
    requires i <= |c.vals|
  {
    && net.nodes.Keys == (set a | a in c.vals)
    && (forall k :: 0 <= k < i ==> net.nodes[c.vals[k]] == after(c.vals[k]))
    && (forall k :: i <= k < |c.vals| ==> net.nodes[c.vals[k]] == before(c.vals[k]))
  }

  lemma HalfWayStarts(c: Cast, net: Network, before: Address -> Replica, after: Address -> Replica)
    requires NodesAre(c, net, before)
    ensures HalfWay(c, net, before, after, 0)
  {
  }

  lemma HalfWayEnds(c: Cast, net: Network, before: Address -> Replica, after: Address -> Replica)
    requires HalfWay(c, net, before, after, |c.vals|)
    ensures NodesAre(c, net, after)
  {
  }

  lemma HalfWayMoves(c: Cast, r: Run, r': Run, before: Address -> Replica, after: Address -> Replica, i: nat,
                     sent: set<Message>, decided: set<Decision>)
    requires Distinct(c.vals) && i < |c.vals| && r.nets != [] && HalfWay(c, r.Last(), before, after, i)
    requires Moved(c, r, r', c.vals[i], after(c.vals[i]), sent, decided)
    ensures HalfWay(c, r'.Last(), before, after, i + 1)
    ensures r'.Last().sent == r.Last().sent + sent && r'.Last().decisions == r.Last().decisions + decided
  {
  }

  lemma HalfWayNext(c: Cast, net: Network, before: Address -> Replica, after: Address -> Replica, i: nat)
    requires i < |c.vals| && HalfWay(c, net, before, after, i)
    ensures c.vals[i] in net.nodes && net.nodes[c.vals[i]] == before(c.vals[i])
  {
  }

  /** The votes of the first i validators are out. */
  ghost predicate HaveSent(c: Cast, net: Network, vote: Address -> Message, i: nat)
    requires i <= |c.vals|
  {
    forall k :: 0 <= k < i ==> vote(c.vals[k]) in net.sent
  }

  lemma NobodyHasSent(c: Cast, net: Network, vote: Address -> Message)
    ensures HaveSent(c, net, vote, 0)
  {
  }

  lemma OneMoreSent(c: Cast, net: Network, net': Network, vote: Address -> Message, i: nat)
    requires i < |c.vals| && HaveSent(c, net, vote, i) && net.sent <= net'.sent && vote(c.vals[i]) in net'.sent
    ensures HaveSent(c, net', vote, i + 1)
  {
  }

  /** The votes of all validators are out. */
  ghost predicate Voted(c: Cast, net: Network, vote: Address -> Message) {
    forall a :: a in c.vals ==> vote(a) in net.sent
  }

  lemma AllHaveSent(c: Cast, net: Network, vote: Address -> Message)
    requires HaveSent(c, net, vote, |c.vals|)
    ensures Voted(c, net, vote)
  {
  }

  lemma VotersHaveSent(c: Cast, net: Network, net': Network, voters: seq<Address>, vote: Address -> Message)
    requires Voted(c, net, vote) && net.sent <= net'.sent && forall a :: a in voters ==> a in c.vals
    ensures forall a :: a in voters ==> vote(a) in net'.sent
  {
  }

  /** The next validator accepts its proposal. */
  lemma NextAccepts(c: Cast, r: Run, pending: Address -> Option<Block>, block: Address -> Block, i: nat) returns (r': Run)
    requires c.Valid() && r.Valid(c) && r.nets != [] && i < |c.vals| && c.Proposal(block(c.vals[i])) in r.Last().sent
    requires c.Sound(block(c.vals[i]))
    requires HalfWay(c, r.Last(), FreshWith(c, pending), VotingFor(c, pending, block), i)
    ensures Extends(c, r, r') && r'.nets != [] && r'.Last().decisions == r.Last().decisions
    ensures HalfWay(c, r'.Last(), FreshWith(c, pending), VotingFor(c, pending, block), i + 1)
    ensures PrepareOf(HashOf(block))(c.vals[i]) in r'.Last().sent
  {
    hide SelectProposer;
    var a := c.vals[i];
    var before, after := FreshWith(c, pending), VotingFor(c, pending, block);
    HalfWayNext(c, r.Last(), before, after, i);
    r' := DoAccept(c, r, a, pending(a), block(a));
    HalfWayMoves(c, r, r', before, after, i, {PrepareOf(HashOf(block))(a)}, {});
  }

  /** Everybody accepts a proposal of its own. */
  lemma AllAccept(c: Cast, r: Run, pending: Address -> Option<Block>, block: Address -> Block) returns (r': Run)
    requires c.Valid() && r.Valid(c) && NodesAre(c, r.Last(), FreshWith(c, pending))
    requires Voted(c, r.Last(), (a: Address) => c.Proposal(block(a))) && forall a :: c.Sound(block(a))
    ensures Extends(c, r, r') && NodesAre(c, r'.Last(), VotingFor(c, pending, block))
    ensures r'.Last().decisions == r.Last().decisions
    ensures Voted(c, r'.Last(), PrepareOf(HashOf(block)))
  {
    var before, after := FreshWith(c, pending), VotingFor(c, pending, block);
    HalfWayStarts(c, r.Last(), before, after);
    r' := r;
    ExtendsItself(c, r);
    hide NodesAre;
    hide Extends;
    hide Run.Valid;
    hide HalfWay;
    hide FreshWith;
    hide VotingFor;
    hide HashOf;
    for i := 0 to |c.vals|
      invariant Extends(c, r, r') && r'.Valid(c) && r.nets != [] && r'.nets != [] && r.Last().sent <= r'.Last().sent
      invariant HalfWay(c, r'.Last(), before, after, i) && r'.Last().decisions == r.Last().decisions
      invariant HaveSent(c, r'.Last(), PrepareOf(HashOf(block)), i)
    {
      assert c.vals[i] in c.vals;
      assert c.Proposal(block(c.vals[i])) in r.Last().sent;
      var r1 := NextAccepts(c, r', pending, block, i);
      ExtendsMore(c, r, r', r1);
      OneMoreSent(c, r'.Last(), r1.Last(), PrepareOf(HashOf(block)), i);
      r' := r1;
    }
    HalfWayEnds(c, r'.Last(), before, after);
    AllHaveSent(c, r'.Last(), PrepareOf(HashOf(block)));
  }

  /** The next validator locks its block. */
  lemma NextLocks(c: Cast, r: Run, pending: Address -> Option<Block>, block: Address -> Block, voters: seq<Address>, i: nat)
      returns (r': Run)
    requires c.Valid() && r.Valid(c) && r.nets != [] && i < |c.vals| && IsQuorum(c.vals, voters)
    requires forall a :: a in voters ==> PrepareOf(HashOf(block))(a) in r.Last().sent
    requires var prepares := Ballot(voters, PrepareOf(HashOf(block)));
             HalfWay(c, r.Last(), VotingFor(c, pending, block), LockedOn(c, pending, block, prepares), i)
    ensures Extends(c, r, r') && r'.nets != [] && r'.Last().decisions == r.Last().decisions
    ensures var prepares := Ballot(voters, PrepareOf(HashOf(block)));
            HalfWay(c, r'.Last(), VotingFor(c, pending, block), LockedOn(c, pending, block, prepares), i + 1)
    ensures CommitOf(HashOf(block))(c.vals[i]) in r'.Last().sent
  {
    hide SelectProposer;
    hide Ballot;
    hide IsQuorum;
    var a := c.vals[i];
    var before, after := VotingFor(c, pending, block), LockedOn(c, pending, block, Ballot(voters, PrepareOf(HashOf(block))));
    HalfWayNext(c, r.Last(), before, after, i);
    r' := DoLock(c, r, a, pending(a), block(a), voters, HashOf(block));
    HalfWayMoves(c, r, r', before, after, i, {CommitOf(HashOf(block))(a)}, {});
  }

  /** Everybody locks its own block on the prepares of some voters, whatever they prepared. */
  lemma AllLock(c: Cast, r: Run, pending: Address -> Option<Block>, block: Address -> Block, voters: seq<Address>)
      returns (r': Run)
    requires c.Valid() && r.Valid(c) && NodesAre(c, r.Last(), VotingFor(c, pending, block)) && IsQuorum(c.vals, voters)
    requires Voted(c, r.Last(), PrepareOf(HashOf(block)))
    ensures Extends(c, r, r') && r'.Last().decisions == r.Last().decisions
    ensures NodesAre(c, r'.Last(), LockedOn(c, pending, block, Ballot(voters, PrepareOf(HashOf(block)))))
    ensures Voted(c, r'.Last(), CommitOf(HashOf(block)))
  {
    hide NodesAre;
    hide Extends;
    hide IsNetRun;
    hide HalfWay;
    hide Ballot;
    hide VotingFor;
    hide LockedOn;
    hide HashOf;
    hide Voted;
    hide HaveSent;
    hide PrepareOf;
    hide CommitOf;
    assert forall a :: a in voters ==> a in c.vals;
    hide IsQuorum;
    var prepares := Ballot(voters, PrepareOf(HashOf(block)));
    var before, after := VotingFor(c, pending, block), LockedOn(c, pending, block, prepares);
    HalfWayStarts(c, r.Last(), before, after);
    r' := r;
    ExtendsItself(c, r);
    NobodyHasSent(c, r.Last(), CommitOf(HashOf(block)));
    for i := 0 to |c.vals|
      invariant Extends(c, r, r') && r'.Valid(c) && r.nets != [] && r'.nets != [] && r.Last().sent <= r'.Last().sent
      invariant HalfWay(c, r'.Last(), before, after, i) && r'.Last().decisions == r.Last().decisions
      invariant HaveSent(c, r'.Last(), CommitOf(HashOf(block)), i)
    {
      VotersHaveSent(c, r.Last(), r'.Last(), voters, PrepareOf(HashOf(block)));
      var r1 := NextLocks(c, r', pending, block, voters, i);
      ExtendsMore(c, r, r', r1);
      OneMoreSent(c, r'.Last(), r1.Last(), CommitOf(HashOf(block)), i);
      r' := r1;
    }
    HalfWayEnds(c, r'.Last(), before, after);
    AllHaveSent(c, r'.Last(), CommitOf(HashOf(block)));
  }

  /** A replica that can start the height over. */
  ghost predicate Restartable(c: Cast, state: Address -> Replica) {
    forall a :: a in c.vals ==> state(a).id == a && c.Grounded(state(a))
  }

  /** The next validator starts over. */
  lemma NextRestarts(c: Cast, r: Run, state: Address -> Replica, block: Block, i: nat) returns (r': Run)
    requires c.Valid() && r.Valid(c) && r.nets != [] && i < |c.vals| && Restartable(c, state) && block.height == 1
    requires HalfWay(c, r.Last(), state, FreshWith(c, Everybody(block)), i)
    ensures r'.Valid(c) && r'.nets != [] && r.Last().sent <= r'.Last().sent && r'.Last().decisions == r.Last().decisions
    ensures r.Authentic() ==> r'.Authentic()
    ensures HalfWay(c, r'.Last(), state, FreshWith(c, Everybody(block)), i + 1)
    ensures c.vals[i] == c.Lead() ==> c.Proposal(block) in r'.Last().sent
  {
    hide SelectProposer;
    var a := c.vals[i];
    var after := FreshWith(c, Everybody(block));
    HalfWayNext(c, r.Last(), state, after, i);
    r' := DoHeader(c, r, a, block);
    HalfWayMoves(c, r, r', state, after, i, if a == c.Lead() then {c.Proposal(block)} else {}, {});
  }

  lemma LeadAt(c: Cast) returns (l: nat)
    ensures l < |c.vals| && c.vals[l] == c.Lead()
  {
    var lead := c.Lead();
    l :| 0 <= l < |c.vals| && c.vals[l] == lead;
  }

  /** Everybody starts the height over with one request, locked or not. */
  lemma AllRestart(c: Cast, r: Run, state: Address -> Replica, block: Block) returns (r': Run)
    requires c.Valid() && r.Valid(c) && NodesAre(c, r.Last(), state) && Restartable(c, state) && block.height == 1
    ensures r'.Valid(c) && r'.nets != [] && NodesAre(c, r'.Last(), FreshWith(c, Everybody(block)))
    ensures r.Authentic() ==> r'.Authentic()
    ensures r.Last().sent <= r'.Last().sent && r'.Last().decisions == r.Last().decisions
    ensures c.Proposal(block) in r'.Last().sent
  {
    hide NodesAre;
    hide HalfWay;
    hide FreshWith;
    hide Restartable;
    hide IsNetRun;
    hide Cast.Proposal;
    hide Cast.Lead;
    var after := FreshWith(c, Everybody(block));
    HalfWayStarts(c, r.Last(), state, after);
    var l := LeadAt(c);
    r' := r;
    assert r'.nets != [];
    for i := 0 to |c.vals|
      invariant r'.Valid(c) && r'.nets != [] && HalfWay(c, r'.Last(), state, after, i)
      invariant r.Authentic() ==> r'.Authentic()
      invariant r.Last().sent <= r'.Last().sent && r'.Last().decisions == r.Last().decisions
      invariant l < i ==> c.Proposal(block) in r'.Last().sent
    {
      r' := NextRestarts(c, r', state, block, i);
    }
    HalfWayEnds(c, r'.Last(), state, after);
  }

  // ----- support

  lemma QuorumSupports(vals: Validators, voters: seq<Address>, digest: Address -> Hash, d: Decision)
    requires IsQuorum(vals, voters) && d.votes == Ballot(voters, CommitOf(digest))
    requires forall a :: a in voters ==> digest(a) == d.digest
    ensures Supported(vals, d)
  {
    DistinctSize(voters);
    forall a | a in voters ensures a in Supporters(d) {
      assert d.votes[a] == CommitVote(a, View(1, 0), digest(a));
    }
    SubsetSize((set a | a in voters), Supporters(d));
  }

  /** The first quorum of the list. */
  function Voters(c: Cast): seq<Address>
    requires c.Valid()
  {
    c.vals[..Threshold(|c.vals|)]
  }

  /** Two validators in one run, both correct, whose decisions at one height differ. */
  ghost predicate Disagrees(c: Cast, r: Run, d1: Decision, d2: Decision) {
    && r.Valid(c) && r.nets != [] && r.Authentic() && r.nets[0].nodes.Keys == (set a | a in c.vals)
    && d1 in r.Last().decisions && d2 in r.Last().decisions && d1.height == d2.height && d1.digest != d2.digest
  }

  /** Everybody prepares, locks and commits its own block; the lead has been asked for both. */
  lemma AllVote(c: Cast, x: Block, y: Block, block: Address -> Block) returns (r: Run, pending: Address -> Option<Block>)
    requires c.Valid() && c.Sound(x) && c.Sound(y) && forall a :: block(a) == x || block(a) == y
    ensures r.Valid(c) && r.Steady() && r.Disciplined(c) && r.Authentic() && r.Last().decisions == {}
    ensures NodesAre(c, r.Last(), LockedOn(c, pending, block, Ballot(Voters(c), PrepareOf(HashOf(block)))))
    ensures Voted(c, r.Last(), CommitOf(HashOf(block)))
    ensures c.Proposal(x) in r.Last().sent && c.Proposal(y) in r.Last().sent
  {
    hide NodesAre;
    hide IsNetRun;
    hide NoRestarts;
    hide LockDiscipline;
    hide GenuineRun;
    hide Ballot;
    hide SelectProposer;
    FirstQuorum(c.vals);
    hide IsQuorum;
    var lead := c.Lead();
    pending := (a: Address) => if a == lead then Some(y) else None;
    var r2 := AskForBoth(c, x, y, pending);
    var r3 := AllAccept(c, r2, pending, block);
    r := AllLock(c, r3, pending, block, Voters(c));
  }

  /** The lead is asked for one block and then for another. */
  lemma AskForBoth(c: Cast, x: Block, y: Block, pending: Address -> Option<Block>) returns (r: Run)
    requires x.height == 1 && y.height == 1 && forall a :: pending(a) == if a == c.Lead() then Some(y) else None
    ensures r.Valid(c) && r.Steady() && r.Disciplined(c) && r.Authentic() && r.Last().decisions == {}
    ensures NodesAre(c, r.Last(), FreshWith(c, pending))
    ensures c.Proposal(x) in r.Last().sent && c.Proposal(y) in r.Last().sent
  {
    hide IsNetRun;
    hide NoRestarts;
    hide LockDiscipline;
    hide GenuineRun;
    var lead := c.Lead();
    hide SelectProposer;
    var r0 := Begin(c);
    var r1 := DoHeader(c, r0, lead, x);
    r := DoHeader(c, r1, lead, y);
  }

  /** Two locked replicas decide, each on the commits of a quorum. */
  lemma TwoDecide(c: Cast, r: Run, pending: Address -> Option<Block>, block: Address -> Block, prepares: Votes,
                  a: Address, b: Address, voters: seq<Address>, digest: Address -> Hash) returns (r': Run)
    requires r.Valid(c) && NodesAre(c, r.Last(), LockedOn(c, pending, block, prepares))
    requires a in c.vals && b in c.vals && a != b && IsQuorum(c.vals, voters)
    requires forall v :: v in voters ==> CommitOf(digest)(v) in r.Last().sent
    ensures Extends(c, r, r') && r'.nets != [] && r'.nets[0].nodes.Keys == (set v | v in c.vals)
    ensures Decision(a, 1, block(a).hash, Ballot(voters, CommitOf(digest))) in r'.Last().decisions
    ensures Decision(b, 1, block(b).hash, Ballot(voters, CommitOf(digest))) in r'.Last().decisions
  {
    hide NoRestarts;
    hide LockDiscipline;
    hide GenuineRun;
    hide IsNetRun;
    hide Ballot;
    hide IsQuorum;
    hide SelectProposer;
    var r1, s := DoDecide(c, r, a, pending(a), block(a), prepares, voters, digest);
    var r2, t := DoDecide(c, r1, b, pending(b), block(b), prepares, voters, digest);
    r' := r2;
    SameNodes(c, r');
  }

  /** Agreement fails without support, for every set of two or more validators: the lead is asked for two blocks of
      height 1 and accepts one, the others accept the other; since prepares and commits are counted whatever their
      digest, correct replicas decide differently. No lock is dropped and no old block is asked about. */
  lemma DisagreementWithoutSupport(c: Cast, x: Block, y: Block) returns (r: Run, d1: Decision, d2: Decision)
    requires c.Valid() && |c.vals| >= 2 && c.Sound(x) && c.Sound(y) && x.hash != y.hash
    ensures Disagrees(c, r, d1, d2) && r.Disciplined(c)
  {
    hide NodesAre;
    hide IsNetRun;
    hide LockDiscipline;
    hide Ballot;
    hide SelectProposer;
    var lead := c.Lead();
    var b := AnotherThan(c, lead);
    var block := (a: Address) => if a == lead then x else y;
    var r1, pending := AllVote(c, x, y, block);
    FirstQuorum(c.vals);
    r := TwoDecide(c, r1, pending, block, Ballot(Voters(c), PrepareOf(HashOf(block))), lead, b, Voters(c), HashOf(block));
    var commits := Ballot(Voters(c), CommitOf(HashOf(block)));
    d1, d2 := Decision(lead, 1, x.hash, commits), Decision(b, 1, y.hash, commits);
  }

  lemma AnotherThan(c: Cast, a: Address) returns (b: Address)
    requires c.Valid() && |c.vals| >= 2
    ensures b in c.vals && b != a
  {
    b := if c.vals[0] == a then c.vals[1] else c.vals[0];
  }

  /** The hypotheses of `Agreement` can be met by every set of two or more validators: two correct replicas lock and
      decide one block in a disciplined run, both decisions supported. */
  lemma BothDecide(c: Cast, x: Block) returns (r: Run, d1: Decision, d2: Decision)
    requires c.Valid() && |c.vals| >= 2 && c.Sound(x)
    ensures r.Valid(c) && r.Disciplined(c) && r.Authentic() && r.nets != [] && r.nets[0].nodes.Keys == (set a | a in c.vals)
    ensures d1 in r.Last().decisions && d2 in r.Last().decisions && d1.node != d2.node && d1.height == d2.height
    ensures Supported(c.vals, d1) && Supported(c.vals, d2) && d1.digest == x.hash == d2.digest
  {
    hide NodesAre;
    hide IsNetRun;
    hide LockDiscipline;
    hide Ballot;
    hide SelectProposer;
    hide Supported;
    var lead := c.Lead();
    var b := AnotherThan(c, lead);
    var block := (a: Address) => x;
    var r1, pending := AllVote(c, x, x, block);
    FirstQuorum(c.vals);
    r := TwoDecide(c, r1, pending, block, Ballot(Voters(c), PrepareOf(HashOf(block))), lead, b, Voters(c), HashOf(block));
    var commits := Ballot(Voters(c), CommitOf(HashOf(block)));
    d1, d2 := Decision(lead, 1, x.hash, commits), Decision(b, 1, x.hash, commits);
    QuorumSupports(c.vals, Voters(c), HashOf(block), d1);
    QuorumSupports(c.vals, Voters(c), HashOf(block), d2);
  }

  function Constant(block: Block): Address -> Block {
    (a: Address) => block
  }

  /** Everybody votes for y, starts over and votes for x. */
  lemma AllVoteTwice(c: Cast, x: Block, y: Block) returns (r: Run)
    requires c.Valid() && c.Sound(x) && c.Sound(y)
    ensures r.Valid(c) && r.Authentic() && c.Proposal(y) in r.Last().sent
    ensures NodesAre(c, r.Last(), LockedOn(c, Everybody(x), Constant(x), Ballot(Voters(c), PrepareOf(HashOf(Constant(x))))))
    ensures Voted(c, r.Last(), PrepareOf(HashOf(Constant(y))))
    ensures Voted(c, r.Last(), CommitOf(HashOf(Constant(y))))
    ensures Voted(c, r.Last(), CommitOf(HashOf(Constant(x))))
  {
    hide NodesAre;
    hide IsNetRun;
    hide LockDiscipline;
    hide NoRestarts;
    hide GenuineRun;
    hide SelectProposer;
    hide Ballot;
    FirstQuorum(c.vals);
    hide IsQuorum;
    var r1 := AllRestartFresh(c, y);
    var r2 := AllAccept(c, r1, Everybody(y), Constant(y));
    var r3 := AllLock(c, r2, Everybody(y), Constant(y), Voters(c));
    var r4 := AllRestart(c, r3, LockedOn(c, Everybody(y), Constant(y), Ballot(Voters(c), PrepareOf(HashOf(Constant(y))))), x);
    var r5 := AllAccept(c, r4, Everybody(x), Constant(x));
    r := AllLock(c, r5, Everybody(x), Constant(x), Voters(c));
  }

  lemma AllRestartFresh(c: Cast, block: Block) returns (r: Run)
    requires c.Valid() && block.height == 1
    ensures r.Valid(c) && r.Authentic() && NodesAre(c, r.Last(), FreshWith(c, Everybody(block)))
    ensures c.Proposal(block) in r.Last().sent
  {
    var r0 := Begin(c);
    r := AllRestart(c, r0, FreshWith(c, Nobody()), block);
  }

  /** Agreement fails with dropped locks, for every set of two or more validators: after all have voted for y and then
      for x, the lead decides x; another one starts over once more and decides y on the old votes. Both decisions
      are supported. */
  lemma DisagreementAfterRestart(c: Cast, x: Block, y: Block) returns (r: Run, d1: Decision, d2: Decision)
    requires c.Valid() && |c.vals| >= 2 && c.Sound(x) && c.Sound(y) && x.hash != y.hash
    ensures Disagrees(c, r, d1, d2) && Supported(c.vals, d1) && Supported(c.vals, d2)
  {
    hide IsNetRun;
    hide LockDiscipline;
    hide NoRestarts;
    hide GenuineRun;
    hide SelectProposer;
    hide Ballot;
    hide Supported;
    FirstQuorum(c.vals);
    hide IsQuorum;
    var lead := c.Lead();
    var b := AnotherThan(c, lead);
    var ws := Voters(c);
    var prepares := Ballot(ws, PrepareOf(HashOf(Constant(x))));
    var r1 := AllVoteTwice(c, x, y);
    var r2, _ := DoDecide(c, r1, lead, Some(x), x, prepares, ws, HashOf(Constant(x)));
    var r3 := RestartAndDecide(c, r2, b, y, ws, HashOf(Constant(y)));
    r := r3;
    d1 := Decision(lead, 1, x.hash, Ballot(ws, CommitOf(HashOf(Constant(x)))));
    d2 := Decision(b, 1, y.hash, Ballot(ws, CommitOf(HashOf(Constant(y)))));
    QuorumSupports(c.vals, ws, HashOf(Constant(x)), d1);
    QuorumSupports(c.vals, ws, HashOf(Constant(y)), d2);
    SameNodes(c, r);
  }

  /** One replica starts over and goes through to a decision on votes that were sent before. */
  lemma RestartAndDecide(c: Cast, r: Run, id: Address, block: Block, voters: seq<Address>, digest: Address -> Hash)
      returns (r': Run)
    requires r.Valid(c) && id in r.Last().nodes && c.Sound(block) && IsQuorum(c.vals, voters)
    requires var s := r.Last().nodes[id]; s.id == id && c.Grounded(s)
    requires c.Proposal(block) in r.Last().sent
    requires forall a :: a in voters ==> PrepareOf(digest)(a) in r.Last().sent && CommitOf(digest)(a) in r.Last().sent
    ensures r'.Valid(c) && r'.Last().nodes.Keys == r.Last().nodes.Keys && r.Last().decisions <= r'.Last().decisions
    ensures r.Authentic() ==> r'.Authentic()
    ensures Decision(id, 1, block.hash, Ballot(voters, CommitOf(digest))) in r'.Last().decisions
  {
    hide IsNetRun;
    hide LockDiscipline;
    hide NoRestarts;
    hide GenuineRun;
    hide SelectProposer;
    hide Ballot;
    hide IsQuorum;
    var r1 := DoHeader(c, r, id, block);
    var r2 := DoAccept(c, r1, id, Some(block), block);
    var r3 := DoLock(c, r2, id, Some(block), block, voters, digest);
    var r4, _ := DoDecide(c, r3, id, Some(block), block, Ballot(voters, PrepareOf(digest)), voters, digest);
    r' := r4;
  }

  // ----- old blocks

  /** At height 1 on the genesis block. */
  ghost predicate AtFirstHeight(c: Cast, s: Replica, id: Address) {
    s.id == id && c.Grounded(s) && s.height == 1
  }

  /** A replica receives x by block sync, moves on to height 2, and is then asked about x. */
  lemma LateSteps(c: Cast, s: Replica, id: Address, x: Block, z: Block) returns (s1: Replica, s2: Replica)
    requires AtFirstHeight(c, s, id) && c.Sound(x)
    ensures Next(c.vals, s, BlockInserted(EntryOf(x))) == Quiet(s1, Ok) && s1.chain == [c.genesis, EntryOf(x)] && s1.height == 1
    ensures var header := Next(c.vals, s1, NewHeader(z)); header.next == s2 && header.decided.None? && s2.chain != []
    ensures var reply := Next(c.vals, s2, Deliver(c.Proposal(x), ACCEPT));
            && reply.decided.None? && CommitVote(id, View(1, 0), x.hash) in reply.sent
            && Genuine(s2, Deliver(c.Proposal(x), ACCEPT))
  {
    assert SelectProposer(c.genesis.hash, 0, c.vals) == Some(c.Lead());
    FirstProposer(x.hash, c.vals);
    hide SelectProposer;
    s1 := s.(chain := [c.genesis, EntryOf(x)]);
    assert s.chain + [EntryOf(x)] == s1.chain;
    s2 := Next(c.vals, s1, NewHeader(z)).next;
    assert s2.height == 2 && s2.chain == s1.chain && s2.id == id && !s2.halted && s2.period == c.period;
    hide SendNextRoundChange;
    NextRoundChangeFacts(s2, ACCEPT, Ok);
  }

  /** The run goes on with replica `id`: more messages, no decisions, nobody else moves, no lock is dropped. */
  ghost predicate Carried(c: Cast, r: Run, r': Run, id: Address) {
    && r.nets != [] && r'.Valid(c) && r'.nets != []
    && (r.Steady() ==> r'.Steady()) && (r.Authentic() ==> r'.Authentic())
    && r.Last().sent <= r'.Last().sent && r'.Last().decisions == r.Last().decisions
    && id in r'.Last().nodes && r'.Last().nodes == r.Last().nodes[id := r'.Last().nodes[id]]
  }

  lemma DoLateReply(c: Cast, r: Run, id: Address, x: Block, z: Block) returns (r': Run)
    requires r.Valid(c) && id in r.Last().nodes && AtFirstHeight(c, r.Last().nodes[id], id)
    requires c.Sound(x) && c.Proposal(x) in r.Last().sent
    ensures Carried(c, r, r', id) && CommitVote(id, View(1, 0), x.hash) in r'.Last().sent
  {
    hide Next;
    hide NoRestarts;
    hide LockDiscipline;
    hide GenuineRun;
    hide SelectProposer;
    var s := r.Last().nodes[id];
    var s1, s2 := LateSteps(c, s, id, x, z);
    var r1 := DoAction(c, r, id, BlockInserted(EntryOf(x)));
    var r2 := DoAction(c, r1, id, NewHeader(z));
    r' := DoAction(c, r2, id, Deliver(c.Proposal(x), ACCEPT));
    hide IsNetRun;
  }

  /** All validators of a list, except one that has voted for x already, are asked about x late. */
  lemma AllReply(c: Cast, r: Run, voters: seq<Address>, d: Address, x: Block, z: Block) returns (r': Run)
    requires r.Valid(c) && r.nets != [] && Distinct(voters) && d in r.Last().nodes
    requires forall a :: a in voters && a != d ==> a in r.Last().nodes && AtFirstHeight(c, r.Last().nodes[a], a)
    requires c.Sound(x) && c.Proposal(x) in r.Last().sent
    requires CommitVote(d, View(1, 0), x.hash) in r.Last().sent
    ensures r'.Valid(c) && r'.nets != [] && (r.Steady() ==> r'.Steady()) && (r.Authentic() ==> r'.Authentic())
    ensures r'.Last().decisions == r.Last().decisions
    ensures r.Last().nodes.Keys == r'.Last().nodes.Keys && r'.Last().nodes[d] == r.Last().nodes[d]
    ensures forall a :: a in voters ==> CommitVote(a, View(1, 0), x.hash) in r'.Last().sent
  {
    hide Run.Valid;
    hide Run.Steady;
    hide Run.Authentic;
    hide SelectProposer;
    hide AtFirstHeight;
    r' := r;
    for i := 0 to |voters|
      invariant r'.Valid(c) && r'.nets != [] && (r.Steady() ==> r'.Steady()) && (r.Authentic() ==> r'.Authentic())
      invariant r'.Last().decisions == r.Last().decisions
      invariant r.Last().nodes.Keys == r'.Last().nodes.Keys && r'.Last().nodes[d] == r.Last().nodes[d]
      invariant r.Last().sent <= r'.Last().sent
      invariant forall k :: i <= k < |voters| && voters[k] != d ==> r'.Last().nodes[voters[k]] == r.Last().nodes[voters[k]]
      invariant forall k :: 0 <= k < i ==> CommitVote(voters[k], View(1, 0), x.hash) in r'.Last().sent
    {
      if voters[i] != d {
        r' := DoLateReply(c, r', voters[i], x, z);
      }
    }
  }

  /** With four or more validators there is a quorum without any given one. */
  lemma QuorumWithout(vals: Validators, a: Address) returns (voters: seq<Address>)
    requires Distinct(vals) && |vals| >= 4 && a in vals
    ensures IsQuorum(vals, voters) && a !in voters
  {
    var k :| 0 <= k < |vals| && vals[k] == a;
    var rest := vals[..k] + vals[k + 1..];
    voters := rest[..Threshold(|vals|)];
  }

  lemma OthersAtFirstHeight(c: Cast, r: Run, r': Run, pending: Address -> Option<Block>, block: Address -> Block, prepares: Votes,
                            a: Address, s: Replica)
    requires r.nets != [] && r'.nets != [] && a in c.vals && NodesAre(c, r.Last(), LockedOn(c, pending, block, prepares))
    requires r'.Last().nodes == r.Last().nodes[a := s]
    ensures r'.Last().nodes.Keys == (set v | v in c.vals)
    ensures forall v :: v in c.vals && v != a ==>
              && r'.Last().nodes[v] == c.Locked(v, pending(v), block(v), prepares)
              && AtFirstHeight(c, r'.Last().nodes[v], v)
  {
    hide SelectProposer;
  }

  /** The answers about x let the replica that is locked on it decide. */
  lemma ReplyAndDecide(c: Cast, r: Run, voters: seq<Address>, d: Address, pending: Option<Block>, x: Block, z: Block,
                       prepares: Votes)
      returns (r': Run)
    requires r.Valid(c) && r.nets != [] && IsQuorum(c.vals, voters) && d in r.Last().nodes
    requires r.Last().nodes[d] == c.Locked(d, pending, x, prepares)
    requires forall a :: a in voters && a != d ==> a in r.Last().nodes && AtFirstHeight(c, r.Last().nodes[a], a)
    requires c.Sound(x) && c.Proposal(x) in r.Last().sent
    requires CommitVote(d, View(1, 0), x.hash) in r.Last().sent
    ensures r'.Valid(c) && r'.nets != [] && (r.Steady() ==> r'.Steady()) && (r.Authentic() ==> r'.Authentic())
    ensures r.Last().decisions <= r'.Last().decisions
    ensures r'.Last().nodes.Keys == r.Last().nodes.Keys
    ensures Decision(d, 1, x.hash, Ballot(voters, CommitOf(HashOf(Constant(x))))) in r'.Last().decisions
  {
    hide IsNetRun;
    hide NoRestarts;
    hide LockDiscipline;
    hide GenuineRun;
    hide SelectProposer;
    hide Ballot;
    var r1 := AllReply(c, r, voters, d, x, z);
    hide IsQuorum;
    var r2, _ := DoDecide(c, r1, d, pending, x, prepares, voters, HashOf(Constant(x)));
    r' := r2;
    SameNodes(c, r');
  }

  /** Agreement fails by answers about old blocks, for every set of four or more validators: all but one commit y
      and the lead decides it; the others receive x by block sync, move on and answer the old proposal of x; the
      one that accepted x decides it. Nobody drops a lock, and both decisions are supported. */
  lemma DisagreementByOldReplies(c: Cast, x: Block, y: Block, z: Block) returns (r: Run, d1: Decision, d2: Decision)
    requires c.Valid() && |c.vals| >= 4 && c.Sound(x) && c.Sound(y) && x.hash != y.hash
    ensures Disagrees(c, r, d1, d2) && r.Steady() && Supported(c.vals, d1) && Supported(c.vals, d2)
  {
    hide IsNetRun;
    hide NoRestarts;
    hide LockDiscipline;
    hide GenuineRun;
    hide Run.Steady;
    hide Run.Authentic;
    hide SelectProposer;
    hide Ballot;
    hide Supported;
    var lead := c.Lead();
    var d := AnotherThan(c, lead);
    var block := (a: Address) => if a == d then x else y;
    var r1, pending := AllVote(c, x, y, block);
    var prepares := Ballot(Voters(c), PrepareOf(HashOf(block)));
    var first := QuorumWithout(c.vals, d);
    var second := QuorumWithout(c.vals, lead);
    assert (forall a :: a in first ==> a in c.vals) && (forall a :: a in second ==> a in c.vals);
    hide IsQuorum;
    var r2, s := DoDecide(c, r1, lead, pending(lead), y, prepares, first, HashOf(block));
    assert CommitOf(HashOf(block))(d) == CommitVote(d, View(1, 0), x.hash);
    OthersAtFirstHeight(c, r1, r2, pending, block, prepares, lead, s);
    hide NodesAre;
    r := ReplyAndDecide(c, r2, second, d, pending(d), x, z, prepares);
    d1 := Decision(lead, 1, y.hash, Ballot(first, CommitOf(HashOf(block))));
    d2 := Decision(d, 1, x.hash, Ballot(second, CommitOf(HashOf(Constant(x)))));
    QuorumSupports(c.vals, first, HashOf(block), d1);
    QuorumSupports(c.vals, second, HashOf(Constant(x)), d2);
    SameNodes(c, r);
  }

  // ----- agreement without support, exactly

  /** A disciplined run in which all validators are correct and all verdicts those of the engine. */
  ghost predicate PerfectRun(vals: Validators, nets: seq<Network>, actions: seq<Action>) {
    && |nets| == |actions| + 1 && IsNetRun(vals, nets, actions) && LockDiscipline(vals, nets, actions)
    && GenuineRun(nets, actions) && nets[0].nodes.Keys == (set a | a in vals)
  }

  /** In every such run decisions at one height agree. */
  ghost predicate AlwaysAgree(vals: Validators) {
    forall nets: seq<Network>, actions: seq<Action>, d1: Decision, d2: Decision ::
      && PerfectRun(vals, nets, actions)
      && d1 in nets[|actions|].decisions && d2 in nets[|actions|].decisions && d1.height == d2.height
      ==> d1.digest == d2.digest
  }

  /** As long as support is not asked for, correct and disciplined replicas always agree if and only if there is just
      one of them. */
  lemma AgreementWithoutSupportIff(vals: Validators)
    requires Distinct(vals)
    ensures AlwaysAgree(vals) <==> |vals| == 1
  {
    hide IsNetRun;
    hide LockDiscipline;
    hide GenuineRun;
    if |vals| == 1 {
      forall nets: seq<Network>, actions: seq<Action>, d1: Decision, d2: Decision |
        && PerfectRun(vals, nets, actions)
        && d1 in nets[|actions|].decisions && d2 in nets[|actions|].decisions && d1.height == d2.height
        ensures d1.digest == d2.digest
      {
        LoneReplicaAgrees(vals, nets, actions, d1, d2);
      }
    } else {
      var c := Cast(vals, Early(), 0);
      var x := Block(EmptyHash(), 1, c.genesis.hash, 0, TxsFit, true);
      var y := x.(hash := OtherHash(x.hash));
      var r, d1, d2 := DisagreementWithoutSupport(c, x, y);
      assert PerfectRun(vals, r.nets, r.actions);
    }
  }

  lemma LoneReplicaAgrees(vals: Validators, nets: seq<Network>, actions: seq<Action>, d1: Decision, d2: Decision)
    requires |vals| == 1 && PerfectRun(vals, nets, actions)
    requires d1 in nets[|actions|].decisions && d2 in nets[|actions|].decisions && d1.height == d2.height
    ensures d1.digest == d2.digest
  {
    hide IsNetRun;
    DisciplineForbidsRestarts(vals, nets, actions);
    hide LockDiscipline;
    hide NetInv;
    hide NoRestarts;
    hide DecisionsAreSingle;
    LoneKey(vals);
    RunsKeepNetInv(vals, nets, actions, |actions|);
    RunsKeepDecisions(vals, nets, actions, |actions|);
    SameNodeAgrees(nets[|actions|], vals[0], d1, d2);
  }

  lemma LoneKey(vals: Validators)
    requires |vals| == 1
    ensures (set a | a in vals) == {vals[0]}
  {
  }

  lemma SameNodeAgrees(net: Network, p: Address, d1: Decision, d2: Decision)
    requires DecisionsAreSingle(net) && net.nodes.Keys == {p}
    requires d1 in net.decisions && d2 in net.decisions && d1.height == d2.height
    ensures d1.digest == d2.digest
  {
    assert d1.node == p == d2.node;
  }

  lemma DisciplineForbidsRestarts(vals: Validators, nets: seq<Network>, actions: seq<Action>)
    requires |nets| == |actions| + 1 && LockDiscipline(vals, nets, actions)
    ensures NoRestarts(nets, actions)
  {
    hide ContradictsSent;
    hide DropsLock;
  }

  lemma SameNodes(c: Cast, r: Run)
    requires r.Valid(c)
    ensures r.nets != [] && r.nets[0].nodes.Keys == r.Last().nodes.Keys
  {
    RunsKeepNetInv(c.vals, r.nets, r.actions, |r.actions|);
  }
}
