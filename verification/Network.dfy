/** A network of replicas over a growing set of authenticated messages. Delivery is arbitrary:
    a message of the set may be delivered late, often, never, or in any order. */
module Network {
  import opened Types
  import opened Quorum
  import opened ValidatorSet
  import opened Replica
  import opened ReplicaInvariants
  import opened ReplicaRuns

  datatype Network = Network(nodes: map<Address, Replica>, sent: set<Message>, decisions: set<Decision>)

  datatype Action =
    | Local(node: Address, event: Event)  // a correct replica handles an event
    | Forge(msg: Message)                 // a faulty sender emits any message under its own name

  function ToSet<T>(s: seq<T>): set<T> {
    set x | x in s
  }

  ghost predicate Enabled(net: Network, a: Action) {
    match a
    case Local(p, e) =>
      p in net.nodes && net.nodes[p].chain != [] && (e.Deliver? ==> e.msg in net.sent)
    case Forge(m) => m.sender !in net.nodes
  }

  /** The correct replicas are exactly `nodes`; everyone else may forge. */
  ghost function Apply(vals: Validators, net: Network, a: Action): Network
    requires Enabled(net, a)
  {
    match a
    case Local(p, e) =>
      var step := Next(vals, net.nodes[p], e);
      Network(net.nodes[p := step.next], net.sent + ToSet(step.sent),
              net.decisions + if step.decided.Some? then {step.decided.value} else {})
    case Forge(m) => net.(sent := net.sent + {m})
  }

  ghost predicate InitialNetwork(vals: Validators, net: Network) {
    && net.sent == {} && net.decisions == {}
    && forall p :: p in net.nodes ==>
         net.nodes[p].chain != [] && net.nodes[p] == Start(vals, p, net.nodes[p].period, net.nodes[p].chain)
  }

  /** A network run. */
  ghost predicate IsNetRun(vals: Validators, nets: seq<Network>, actions: seq<Action>) {
    && |nets| == |actions| + 1 && InitialNetwork(vals, nets[0])
    && forall i :: 0 <= i < |actions| ==> Enabled(nets[i], actions[i]) && nets[i + 1] == Apply(vals, nets[i], actions[i])
  }

  /** All proposals come with the verdicts of the code's engine. */
  ghost predicate GenuineRun(nets: seq<Network>, actions: seq<Action>)
    requires |nets| == |actions| + 1
  {
    forall i :: 0 <= i < |actions| && actions[i].Local? && actions[i].node in nets[i].nodes ==>
      Genuine(nets[i].nodes[actions[i].node], actions[i].event)
  }

  // ----- invariants that hold in every run

  /** All votes a replica holds have been sent. */
  ghost predicate StoredIn(s: Replica, sent: set<Message>) {
    && (forall a :: a in s.prepares ==> s.prepares[a] in sent)
    && (forall a :: a in s.commits ==> s.commits[a] in sent)
    && (forall r, a :: r in s.roundChanges && a in s.roundChanges[r] ==> s.roundChanges[r][a] in sent)
  }

  ghost predicate NodeFits(vals: Validators, net: Network, p: Address)
    requires p in net.nodes
  {
    net.nodes[p].id == p && Inv(vals, net.nodes[p]) && StoredIn(net.nodes[p], net.sent)
  }

  /** A decision rests on sent commits of a quorum of distinct validators, all for its height. */
  ghost predicate DecisionIsBacked(vals: Validators, net: Network, d: Decision) {
    && d.node in net.nodes && |d.votes| >= Threshold(|vals|)
    && forall a :: a in d.votes ==>
         a in vals && d.votes[a] in net.sent && d.votes[a].Commit? && d.votes[a].sender == a
         && d.votes[a].subject.view.height == d.height
  }

  ghost predicate NetInv(vals: Validators, net: Network) {
    && (forall p :: p in net.nodes ==> NodeFits(vals, net, p))
    && (forall d :: d in net.decisions ==> DecisionIsBacked(vals, net, d))
  }

  // ----- one vote per height, for every correct replica

  /** Commits of one correct replica for one height agree, and follow its lock at its current height. */
  ghost predicate VotesAreSingle(net: Network) {
    && (forall m :: m in net.sent && m.Commit? && m.sender in net.nodes ==>
          && m.subject.view.height <= net.nodes[m.sender].height
          && (m.subject.view.height == net.nodes[m.sender].height ==>
                net.nodes[m.sender].lock == Some(m.subject.digest)))
    && (forall m, n :: m in net.sent && n in net.sent && m.Commit? && n.Commit?
                       && m.sender == n.sender && m.sender in net.nodes
                       && m.subject.view.height == n.subject.view.height
                       ==> m.subject.digest == n.subject.digest)
  }

  /** A locked replica restarts the height it is locked at. */
  ghost predicate DropsLock(net: Network, a: Action) {
    a.Local? && a.node in net.nodes && LockedReset(net.nodes[a.node], a.event)
  }

  /** A replica is asked about an old block although it has sent a commit for another one of that height. */
  ghost predicate ContradictsSent(vals: Validators, net: Network, a: Action) {
    && a.Local? && a.node in net.nodes && RepliesToOld(vals, net.nodes[a.node], a.event)
    && exists m :: m in net.sent && m.Commit? && m.sender == a.node
                   && m.subject.view.height == a.event.msg.view.height && m.subject.digest != a.event.msg.proposal.hash
  }

  lemma InitHasNetInv(vals: Validators, net: Network)
    requires InitialNetwork(vals, net)
    ensures NetInv(vals, net) && VotesAreSingle(net)
  {
    forall p | p in net.nodes ensures NodeFits(vals, net, p) {
      StartHasInv(vals, p, net.nodes[p].period, net.nodes[p].chain);
    }
  }

  lemma StoredStaysIn(s: Replica, step: Step, input: Option<Message>, sent: set<Message>, more: set<Message>)
    requires StoredIn(s, sent) && StoresOnly(s, step, input) && sent <= more
    requires input.Some? ==> input.value in sent
    ensures StoredIn(step.next, more)
  {
  }

  lemma StepKeepsNode(vals: Validators, net: Network, p: Address, e: Event)
    requires NetInv(vals, net) && Enabled(net, Local(p, e))
    ensures NodeFits(vals, Apply(vals, net, Local(p, e)), p)
    ensures var step := Next(vals, net.nodes[p], e);
            step.decided.Some? ==> DecisionFits(vals, net.nodes[p], step)
  {
    hide Next;
    var s := net.nodes[p];
    assert NodeFits(vals, net, p);
    var step := Next(vals, s, e);
    NextKeepsInv(vals, s, e);
    if LockedReset(s, e) {
      ResetIsClean(vals, s, e);
      assert StoresOnly(s, step, None);
    } else {
      NextFacts(vals, s, e);
      StoredStaysIn(s, step, InputOf(e), net.sent, net.sent + ToSet(step.sent));
    }
  }

  lemma StepIsBacked(vals: Validators, net: Network, p: Address, e: Event)
    requires NetInv(vals, net) && Enabled(net, Local(p, e))
    ensures var step := Next(vals, net.nodes[p], e);
            step.decided.Some? ==> DecisionIsBacked(vals, Apply(vals, net, Local(p, e)), step.decided.value)
  {
    hide Next;
    hide StepFacts;
    StepKeepsNode(vals, net, p, e);
    var after := Apply(vals, net, Local(p, e));
    assert Inv(vals, after.nodes[p]) && StoredIn(after.nodes[p], after.sent);
    assert NodeFits(vals, net, p);
  }

  lemma ResetIsClean(vals: Validators, s: Replica, e: Event)
    requires Inv(vals, s) && LockedReset(s, e)
    ensures var step := Next(vals, s, e);
            && step.next.id == s.id && step.decided.None?
            && step.next.prepares == map[] && step.next.commits == map[] && step.next.roundChanges == map[]
  {
  }

  lemma ApplyKeepsNetInv(vals: Validators, net: Network, a: Action)
    requires NetInv(vals, net) && Enabled(net, a)
    ensures NetInv(vals, Apply(vals, net, a))
  {
    hide Next;
    var after := Apply(vals, net, a);
    if a.Local? {
      StepKeepsNode(vals, net, a.node, a.event);
      StepIsBacked(vals, net, a.node, a.event);
    }
    forall p | p in after.nodes ensures NodeFits(vals, after, p) {
      assert NodeFits(vals, net, p);
    }
    forall d | d in after.decisions ensures DecisionIsBacked(vals, after, d) {
      if d in net.decisions {
        assert DecisionIsBacked(vals, net, d);
      }
    }
  }

  lemma ApplyKeepsVotes(vals: Validators, net: Network, a: Action)
    requires NetInv(vals, net) && VotesAreSingle(net) && Enabled(net, a)
    requires !DropsLock(net, a) && !ContradictsSent(vals, net, a)
    ensures VotesAreSingle(Apply(vals, net, a))
  {
    hide Next;
    if a.Local? {
      var s := net.nodes[a.node];
      assert NodeFits(vals, net, a.node);
      NextFacts(vals, s, a.event);
      ViewGrows(vals, s, a.event);
      RepliesAgree(vals, net, a.node, a.event);
      hide VotesAreSingle;
      VotesStepSingle(net, a.node, Next(vals, s, a.event));
    }
  }

  /** The commits for older heights among some messages agree with each other and with those sent before. */
  ghost predicate OldVotesAgree(net: Network, p: Address, height: nat, out: seq<Message>) {
    forall m, n :: m in out && (n in net.sent || n in out) && m.Commit? && n.Commit? && n.sender == p
                   && m.subject.view.height == n.subject.view.height < height
                   ==> m.subject.digest == n.subject.digest
  }

  lemma RepliesAgree(vals: Validators, net: Network, p: Address, e: Event)
    requires NetInv(vals, net) && Enabled(net, Local(p, e)) && !ContradictsSent(vals, net, Local(p, e))
    ensures OldVotesAgree(net, p, net.nodes[p].height, Next(vals, net.nodes[p], e).sent)
  {
    hide Next;
    hide RepliesToOld;
    var s := net.nodes[p];
    assert NodeFits(vals, net, p);
    var out := Next(vals, s, e).sent;
    forall m, n | m in out && (n in net.sent || n in out) && m.Commit? && n.Commit? && n.sender == p
                  && m.subject.view.height == n.subject.view.height < s.height
      ensures m.subject.digest == n.subject.digest
    {
      OldReplyIff(vals, s, e, m);
      OldReplyIff(vals, s, e, n);
    }
  }

  /** The step of one replica whose new commits follow its lock or agree with what it sent before. */
  lemma VotesStepSingle(net: Network, p: Address, step: Step)
    requires VotesAreSingle(net) && p in net.nodes && net.nodes[p].id == p
    requires VotesFollowLock(net.nodes[p], step) && LockStays(net.nodes[p], step)
    requires net.nodes[p].height <= step.next.height && OldVotesAgree(net, p, net.nodes[p].height, step.sent)
    ensures VotesAreSingle(Network(net.nodes[p := step.next], net.sent + ToSet(step.sent), net.decisions))
  {
  }

  // ----- one decision per height, for every correct replica

  /** Decisions of one replica for one height agree, and follow its lock at its current height. */
  ghost predicate DecisionsAreSingle(net: Network) {
    && (forall d :: d in net.decisions ==>
          && d.node in net.nodes && d.height <= net.nodes[d.node].height
          && (d.height == net.nodes[d.node].height ==> net.nodes[d.node].lock == Some(d.digest)))
    && (forall d, e :: d in net.decisions && e in net.decisions && d.node == e.node && d.height == e.height
                       ==> d.digest == e.digest)
  }

  lemma ApplyKeepsDecisions(vals: Validators, net: Network, a: Action)
    requires NetInv(vals, net) && DecisionsAreSingle(net) && Enabled(net, a) && !DropsLock(net, a)
    ensures DecisionsAreSingle(Apply(vals, net, a))
  {
    hide Next;
    if a.Local? {
      var s := net.nodes[a.node];
      assert NodeFits(vals, net, a.node);
      NextFacts(vals, s, a.event);
      ViewGrows(vals, s, a.event);
      hide Inv;
      hide DecisionsAreSingle;
      DecisionsStepSingle(vals, net, a.node, Next(vals, s, a.event));
    }
  }

  lemma DecisionsStepSingle(vals: Validators, net: Network, p: Address, step: Step)
    requires DecisionsAreSingle(net) && p in net.nodes && net.nodes[p].id == p
    requires DecisionFits(vals, net.nodes[p], step) && LockStays(net.nodes[p], step)
    requires net.nodes[p].height <= step.next.height
    ensures DecisionsAreSingle(Network(net.nodes[p := step.next], net.sent + ToSet(step.sent),
                                       net.decisions + if step.decided.Some? then {step.decided.value} else {}))
  {
    hide ToSet;
    var moved := Network(net.nodes[p := step.next], net.sent + ToSet(step.sent), net.decisions);
    StateMoves(net, moved, p);
    if step.decided.Some? {
      DecisionJoins(moved, step.decided.value);
      assert net.decisions + {step.decided.value} == moved.decisions + {step.decided.value};
    } else {
      assert net.decisions + {} == net.decisions;
    }
  }

  lemma StateMoves(net: Network, moved: Network, p: Address)
    requires DecisionsAreSingle(net) && p in net.nodes && p in moved.nodes && moved.decisions == net.decisions
    requires moved.nodes == net.nodes[p := moved.nodes[p]] && net.nodes[p].height <= moved.nodes[p].height
    requires moved.nodes[p].height == net.nodes[p].height && net.nodes[p].lock.Some? ==> moved.nodes[p].lock == net.nodes[p].lock
    ensures DecisionsAreSingle(moved)
  {
  }

  lemma DecisionJoins(net: Network, d: Decision)
    requires DecisionsAreSingle(net) && d.node in net.nodes
    requires d.height == net.nodes[d.node].height && net.nodes[d.node].lock == Some(d.digest)
    ensures DecisionsAreSingle(net.(decisions := net.decisions + {d}))
  {
  }

  /** No locked replica restarts its height anywhere in the run. */
  ghost predicate NoRestarts(nets: seq<Network>, actions: seq<Action>)
    requires |nets| == |actions| + 1
  {
    forall i :: 0 <= i < |actions| ==> !DropsLock(nets[i], actions[i])
  }

  /** Without locked restarts each correct replica decides one digest per height, whatever is counted,
      forged or answered. */
  lemma {:induction false} RunsKeepDecisions(vals: Validators, nets: seq<Network>, actions: seq<Action>, i: nat)
    requires IsNetRun(vals, nets, actions) && NoRestarts(nets, actions) && i < |nets|
    ensures DecisionsAreSingle(nets[i])
  {
    hide Next;
    hide NetInv;
    hide Apply;
    if i > 0 {
      RunsKeepDecisions(vals, nets, actions, i - 1);
      RunsKeepNetInv(vals, nets, actions, i - 1);
      hide DecisionsAreSingle;
      ApplyKeepsDecisions(vals, nets[i - 1], actions[i - 1]);
    }
  }

  // ----- agreement

  /** The validators whose counted commit carries the committed digest. */
  ghost function Supporters(d: Decision): set<Address> {
    set a | a in d.votes && d.votes[a].Commit? && d.votes[a].subject.digest == d.digest
  }

  /** The committed digest itself has a quorum among the counted commits. */
  ghost predicate Supported(vals: Validators, d: Decision) {
    |Supporters(d)| >= Threshold(|vals|)
  }

  lemma AgreementIn(vals: Validators, faulty: set<Address>, net: Network, d1: Decision, d2: Decision)
    requires Distinct(vals) && |faulty| <= MaxFaults(|vals|)
    requires forall a :: a in vals ==> a in faulty || a in net.nodes
    requires NetInv(vals, net) && VotesAreSingle(net)
    requires d1 in net.decisions && d2 in net.decisions && d1.height == d2.height
    requires Supported(vals, d1) && Supported(vals, d2)
    ensures d1.digest == d2.digest
  {
    hide NodeFits;
    assert DecisionIsBacked(vals, net, d1) && DecisionIsBacked(vals, net, d2);
    var w := SharedSupporter(vals, faulty, d1, d2);
    var m, n := d1.votes[w], d2.votes[w];
    assert m in net.sent && n in net.sent;
  }

  lemma SharedSupporter(vals: Validators, faulty: set<Address>, d1: Decision, d2: Decision) returns (w: Address)
    requires Distinct(vals) && |faulty| <= MaxFaults(|vals|)
    requires forall a :: a in d1.votes || a in d2.votes ==> a in vals
    requires Supported(vals, d1) && Supported(vals, d2)
    ensures w in Supporters(d1) && w in Supporters(d2) && w !in faulty
  {
    var all := set a | a in vals;
    DistinctSize(vals);
    assert vals[0] in all;
    w := CorrectWitness(all, faulty, Supporters(d1), Supporters(d2));
  }

  lemma {:induction false} RunsKeepNetInv(vals: Validators, nets: seq<Network>, actions: seq<Action>, i: nat)
    requires IsNetRun(vals, nets, actions) && i < |nets|
    ensures NetInv(vals, nets[i]) && nets[i].nodes.Keys == nets[0].nodes.Keys
  {
    hide Next;
    if i == 0 {
      InitHasNetInv(vals, nets[0]);
    } else {
      RunsKeepNetInv(vals, nets, actions, i - 1);
      ApplyKeepsNetInv(vals, nets[i - 1], actions[i - 1]);
    }
  }

  /** The run keeps to the conditions under which locks protect a height. */
  ghost predicate LockDiscipline(vals: Validators, nets: seq<Network>, actions: seq<Action>)
    requires |nets| == |actions| + 1
  {
    forall i :: 0 <= i < |actions| ==> !DropsLock(nets[i], actions[i]) && !ContradictsSent(vals, nets[i], actions[i])
  }

  lemma {:induction false} RunsKeepVotes(vals: Validators, nets: seq<Network>, actions: seq<Action>, i: nat)
    requires IsNetRun(vals, nets, actions) && LockDiscipline(vals, nets, actions) && i < |nets|
    ensures VotesAreSingle(nets[i])
  {
    hide Next;
    hide NetInv;
    hide VotesAreSingle;
    hide Apply;
    if i == 0 {
      InitHasNetInv(vals, nets[0]);
    } else {
      RunsKeepVotes(vals, nets, actions, i - 1);
      RunsKeepNetInv(vals, nets, actions, i - 1);
      ApplyKeepsVotes(vals, nets[i - 1], actions[i - 1]);
    }
  }

  lemma {:induction false} DecisionsStay(vals: Validators, nets: seq<Network>, actions: seq<Action>, i: nat, j: nat)
    requires IsNetRun(vals, nets, actions) && i <= j < |nets|
    ensures nets[i].decisions <= nets[j].decisions
    decreases j
  {
    hide Next;
    if i < j {
      DecisionsStay(vals, nets, actions, i, j - 1);
    }
  }

  /** Agreement: in every run with at most floor((n-1)/3) arbitrary senders in which no locked replica restarts its
      height and none is asked about an old block after voting for another one of that height, two supported
      decisions of correct replicas at one height, taken at any two moments of the run, are for one digest. */
  lemma Agreement(vals: Validators, faulty: set<Address>, nets: seq<Network>, actions: seq<Action>,
                  i: nat, j: nat, d1: Decision, d2: Decision)
    requires Distinct(vals) && |faulty| <= MaxFaults(|vals|)
    requires IsNetRun(vals, nets, actions) && LockDiscipline(vals, nets, actions)
    requires forall a :: a in vals ==> a in faulty || a in nets[0].nodes
    requires i < |nets| && j < |nets| && d1 in nets[i].decisions && d2 in nets[j].decisions
    requires d1.height == d2.height && Supported(vals, d1) && Supported(vals, d2)
    ensures d1.digest == d2.digest
  {
    hide Next;
    var last := |actions|;
    RunsKeepNetInv(vals, nets, actions, last);
    RunsKeepVotes(vals, nets, actions, last);
    DecisionsStay(vals, nets, actions, i, last);
    DecisionsStay(vals, nets, actions, j, last);
    AgreementIn(vals, faulty, nets[last], d1, d2);
  }

  // ----- ledgers

  /** Ledgers only grow. */
  lemma {:induction false} LedgersGrow(vals: Validators, nets: seq<Network>, actions: seq<Action>, p: Address, i: nat, j: nat)
    requires IsNetRun(vals, nets, actions) && i <= j < |nets| && p in nets[0].nodes
    ensures p in nets[i].nodes && p in nets[j].nodes && nets[i].nodes[p].chain <= nets[j].nodes[p].chain
    decreases j
  {
    hide Next;
    hide NetInv;
    hide Apply;
    hide Enabled;
    RunsKeepNetInv(vals, nets, actions, i);
    RunsKeepNetInv(vals, nets, actions, j);
    if i < j {
      LedgersGrow(vals, nets, actions, p, i, j - 1);
      RunsKeepNetInv(vals, nets, actions, j - 1);
      LedgerGrows(vals, nets[j - 1], actions[j - 1], p);
    }
  }

  lemma LedgerGrows(vals: Validators, net: Network, a: Action, p: Address)
    requires NetInv(vals, net) && Enabled(net, a) && p in net.nodes
    ensures p in Apply(vals, net, a).nodes && net.nodes[p].chain <= Apply(vals, net, a).nodes[p].chain
  {
    hide Next;
    if a.Local? {
      var s := net.nodes[a.node];
      assert NodeFits(vals, net, a.node);
      if LockedReset(s, a.event) {
        ResetSendsNoVote(vals, s, a.event);
      } else {
        NextFacts(vals, s, a.event);
      }
    }
  }

  /** Where two supported decisions at one height are entries of their replicas' ledgers, the ledgers have the same
      entry at that height from then on. `DecisionStoredIff` says when they are. */
  lemma LedgersAgree(vals: Validators, faulty: set<Address>, nets: seq<Network>, actions: seq<Action>,
                     i: nat, j: nat, k: nat, d1: Decision, d2: Decision)
    requires Distinct(vals) && |faulty| <= MaxFaults(|vals|)
    requires IsNetRun(vals, nets, actions) && LockDiscipline(vals, nets, actions)
    requires forall a :: a in vals ==> a in faulty || a in nets[0].nodes
    requires i <= k < |nets| && j <= k && d1 in nets[i].decisions && d2 in nets[j].decisions
    requires d1.height == d2.height && Supported(vals, d1) && Supported(vals, d2)
    requires d1.node in nets[i].nodes && HasEntry(nets[i].nodes[d1.node].chain, d1.height, d1.digest)
    requires d2.node in nets[j].nodes && HasEntry(nets[j].nodes[d2.node].chain, d2.height, d2.digest)
    ensures d1.node in nets[k].nodes && d2.node in nets[k].nodes
    ensures HasEntry(nets[k].nodes[d1.node].chain, d1.height, d1.digest)
    ensures HasEntry(nets[k].nodes[d2.node].chain, d1.height, d1.digest)
  {
    hide Next;
    hide LockDiscipline;
    hide NetInv;
    Agreement(vals, faulty, nets, actions, i, j, d1, d2);
    RunsKeepNetInv(vals, nets, actions, i);
    RunsKeepNetInv(vals, nets, actions, j);
    LedgersGrow(vals, nets, actions, d1.node, i, k);
    LedgersGrow(vals, nets, actions, d2.node, j, k);
    hide IsNetRun;
  }
}
