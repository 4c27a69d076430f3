/** Votes that arrive one by one: what a replica does with the prepares and commits of a list of voters. */
module Ballots {
  import opened Types
  import opened Quorum
  import opened ValidatorSet
  import opened Replica
  import opened ReplicaInvariants

  const ACCEPT := Env(Acceptable, false, [])

  /** The votes of some voters, each under its voter. */
  function Ballot(voters: seq<Address>, vote: Address -> Message): Votes {
    map a | a in voters :: vote(a)
  }

  lemma BallotGrows(voters: seq<Address>, vote: Address -> Message, k: nat)
    requires Distinct(voters) && k < |voters|
    ensures Ballot(voters[..k], vote)[voters[k] := vote(voters[k])] == Ballot(voters[..k + 1], vote)
    ensures |Ballot(voters[..k + 1], vote)| == |Ballot(voters[..k + 1], vote).Keys| == k + 1
  {
    var more := voters[..k + 1];
    assert more == voters[..k] + [voters[k]];
    DistinctSize(more);
    assert Ballot(more, vote).Keys == set a | a in more;
  }

  /** As many different validators as a quorum takes. */
  ghost predicate IsQuorum(vals: Validators, voters: seq<Address>) {
    Distinct(voters) && |voters| == Threshold(|vals|) && forall a :: a in voters ==> a in vals
  }

  /** The first validators of the list are a quorum. */
  lemma FirstQuorum(vals: Validators)
    requires Distinct(vals)
    ensures Threshold(|vals|) <= |vals| && IsQuorum(vals, vals[..Threshold(|vals|)])
  {
  }

  // ----- prepares

  /** Prepares of the view, for whatever digests. */
  ghost predicate ArePrepares(view: View, voters: seq<Address>, vote: Address -> Message) {
    forall a :: a in voters ==> vote(a).Prepare? && vote(a).sender == a && vote(a).subject.view == view
  }

  /** Waiting for prepares on a block, with the first k already in. */
  ghost predicate Waiting(s: Replica, block: Block, voters: seq<Address>, vote: Address -> Message, k: nat)
    requires k <= |voters|
  {
    && s.chain != [] && !s.halted && s.height > 0 && s.phase == PrePrepared && s.preprepare == Some(block) && s.lock.None?
    && s.commits == map[] && s.prepares == Ballot(voters[..k], vote) && ArePrepares(s.CurrentView(), voters, vote)
  }

  /** The next prepare is stored before it is accepted. */
  lemma PrepareIsStored(vals: Validators, s: Replica, block: Block, voters: seq<Address>, vote: Address -> Message, k: nat)
      returns (t: Replica)
    requires IsQuorum(vals, voters) && k < |voters| && Waiting(s, block, voters, vote, k)
    ensures t == s.(prepares := Ballot(voters[..k + 1], vote)) && PrepareOrCommitSize(t) == k + 1
    ensures var m := vote(voters[k]);
            m.Prepare? && Next(vals, s, Deliver(m, ACCEPT)) == AcceptPrepare(vals, t, m)
  {
    BallotGrows(voters, vote, k);
    hide Next;
    hide AcceptPrepare;
    hide Ballot;
    PrepareIsAccepted(vals, s, vote(voters[k]), ACCEPT);
    t := s.(prepares := Ballot(voters[..k + 1], vote));
    assert t.prepares.Keys + t.commits.Keys == t.prepares.Keys;
  }

  /** Below the quorum the next prepare is only stored. */
  lemma PrepareWaits(vals: Validators, s: Replica, block: Block, voters: seq<Address>, vote: Address -> Message, k: nat)
    requires IsQuorum(vals, voters) && k < TwoThirds(|vals|) && Waiting(s, block, voters, vote, k)
    ensures Next(vals, s, Deliver(vote(voters[k]), ACCEPT)) == Quiet(s.(prepares := Ballot(voters[..k + 1], vote)), Ok)
    ensures Waiting(s.(prepares := Ballot(voters[..k + 1], vote)), block, voters, vote, k + 1)
  {
    var _ := PrepareIsStored(vals, s, block, voters, vote, k);
    hide Next;
    hide PrepareOrCommitSize;
    hide Ballot;
    hide IsQuorum;
  }

  /** The prepare that completes the quorum locks the block and brings out the vote, whatever was prepared. */
  lemma PrepareLocks(vals: Validators, s: Replica, block: Block, voters: seq<Address>, vote: Address -> Message)
    requires IsQuorum(vals, voters) && Waiting(s, block, voters, vote, TwoThirds(|vals|))
    ensures Next(vals, s, Deliver(vote(voters[TwoThirds(|vals|)]), ACCEPT))
            == Step(s.(prepares := Ballot(voters, vote), lock := Some(block.hash), phase := Prepared), Ok,
                    [CommitVote(s.id, s.CurrentView(), block.hash)], None)
  {
    var q := TwoThirds(|vals|);
    var t := PrepareIsStored(vals, s, block, voters, vote, q);
    assert voters[..q + 1] == voters;
    assert t.lock.None? && t.preprepare == Some(block) && t.CurrentView() == s.CurrentView();
    QuorumIsAccepted(vals, t, block, vote(voters[q]));
    hide *;
  }

  /** With a quorum in, an accepted prepare locks the block and brings out the vote. */
  lemma QuorumIsAccepted(vals: Validators, t: Replica, block: Block, m: Message)
    requires m.Prepare? && t.lock.None? && t.preprepare == Some(block) && PrepareOrCommitSize(t) > TwoThirds(|vals|)
    ensures AcceptPrepare(vals, t, m) == Step(t.(lock := Some(block.hash), phase := Prepared), Ok,
                                              [CommitVote(t.id, t.CurrentView(), block.hash)], None)
  {
    hide PrepareOrCommitSize;
    LockAndVoteEffect(t);
    hide LockAndVote;
  }

  // ----- commits

  ghost predicate AreCommits(height: nat, voters: seq<Address>, vote: Address -> Message) {
    forall a :: a in voters ==> vote(a).Commit? && vote(a).sender == a && vote(a).subject.view.height == height
                                && Sealed(vote(a))
  }

  /** Locked on a block and waiting for commits, with the first k already in. */
  ghost predicate Collecting(s: Replica, block: Block, voters: seq<Address>, vote: Address -> Message, k: nat)
    requires k <= |voters|
  {
    && s.chain != [] && !s.halted && s.height > 0 && s.phase == Prepared && s.preprepare == Some(block)
    && s.commits == Ballot(voters[..k], vote) && AreCommits(s.height, voters, vote)
  }

  lemma CommitIsStored(vals: Validators, s: Replica, block: Block, voters: seq<Address>, vote: Address -> Message, k: nat)
    requires IsQuorum(vals, voters) && k < |voters| && Collecting(s, block, voters, vote, k)
    ensures Next(vals, s, Deliver(vote(voters[k]), ACCEPT)) == AcceptCommit(vals, s.(commits := Ballot(voters[..k + 1], vote)))
    ensures |Ballot(voters[..k + 1], vote)| == k + 1
  {
    BallotGrows(voters, vote, k);
    hide Next;
    hide AcceptCommit;
    hide Ballot;
    CommitIsAccepted(vals, s, vote(voters[k]), ACCEPT);
  }

  /** Below the quorum the next commit is only stored. */
  lemma CommitWaits(vals: Validators, s: Replica, block: Block, voters: seq<Address>, vote: Address -> Message, k: nat)
    requires IsQuorum(vals, voters) && k < TwoThirds(|vals|) && Collecting(s, block, voters, vote, k)
    ensures Next(vals, s, Deliver(vote(voters[k]), ACCEPT)) == Quiet(s.(commits := Ballot(voters[..k + 1], vote)), Ok)
    ensures Collecting(s.(commits := Ballot(voters[..k + 1], vote)), block, voters, vote, k + 1)
  {
    CommitIsStored(vals, s, block, voters, vote, k);
    hide Next;
    hide Ballot;
    hide IsQuorum;
  }

  /** The commit that completes the quorum decides the block, whatever was committed. */
  lemma CommitDecides(vals: Validators, s: Replica, block: Block, voters: seq<Address>, vote: Address -> Message)
    requires IsQuorum(vals, voters) && Collecting(s, block, voters, vote, TwoThirds(|vals|))
    ensures var step := Next(vals, s, Deliver(vote(voters[TwoThirds(|vals|)]), ACCEPT));
            step.sent == [] && step.decided == Some(Decision(s.id, s.height, block.hash, Ballot(voters, vote)))
  {
    var q := TwoThirds(|vals|);
    CommitIsStored(vals, s, block, voters, vote, q);
    assert voters[..q + 1] == voters;
    hide Next;
    hide Ballot;
    hide IsQuorum;
  }
}
