/** The Kademlia node table (section 2.2 of the Kademlia paper): k-buckets by XOR distance, exact
    nearest-node search, and a clean-up that keeps live nodes. */
module NodeTable {
  import opened Types
  import opened NodeId
  import opened Sorting
  import opened Sequences

  datatype Node = Node(address: string, id: Id)

  type Nodes = seq<Node>

  // ----- one bucket

  predicate Knows(data: Nodes, id: Id) {
    exists i :: 0 <= i < |data| && data[i].id == id
  }

  ghost predicate DistinctIds(data: Nodes) {
    forall i, j :: 0 <= i < j < |data| ==> data[i].id != data[j].id
  }

  function Without(data: Nodes, id: Id): Nodes {
    if data == [] then []
    else Without(data[..|data| - 1], id) + (if data[|data| - 1].id != id then [data[|data| - 1]] else [])
  }

  /** A known node moves to the tail, a new one goes to the tail, a full bucket refuses. */
  function BucketUpdate(data: Nodes, size: nat, node: Node): Nodes {
    if Knows(data, node.id) then Without(data, node.id) + [node]
    else if |data| == size then data
    else data + [node]
  }

  lemma {:induction false} WithoutKeepsOthers(data: Nodes, id: Id)
    requires DistinctIds(data)
    ensures DistinctIds(Without(data, id)) && !Knows(Without(data, id), id)
    ensures forall n :: n in Without(data, id) <==> n in data && n.id != id
    ensures |Without(data, id)| == if Knows(data, id) then |data| - 1 else |data|
  {
    if data != [] {
      var k := |data| - 1;
      var front := data[..k];
      FrontIsDistinct(data);
      WithoutKeepsOthers(front, id);
      FrontKnows(data, id);
      var rest := Without(front, id);
      if data[k].id != id {
        hide Without;
        AppendDistinct(front, rest, data[k]);
      }
    }
  }

  lemma FrontIsDistinct(data: Nodes)
    requires data != [] && DistinctIds(data)
    ensures DistinctIds(data[..|data| - 1]) && !Knows(data[..|data| - 1], data[|data| - 1].id)
  {
  }

  lemma FrontKnows(data: Nodes, id: Id)
    requires data != []
    ensures var k := |data| - 1; Knows(data, id) <==> Knows(data[..k], id) || data[k].id == id
    ensures var k := |data| - 1; forall n :: n in data <==> n in data[..k] || n == data[k]
  {
    var k := |data| - 1;
    assert data == data[..k] + [data[k]];
    assert forall i :: 0 <= i < k ==> data[..k][i] == data[i];
  }

  lemma AppendDistinct(front: Nodes, rest: Nodes, last: Node)
    requires DistinctIds(rest) && !Knows(front, last.id)
    requires forall n :: n in rest ==> n in front
    ensures DistinctIds(rest + [last])
    ensures forall id :: Knows(rest + [last], id) <==> Knows(rest, id) || last.id == id
  {
    var all := rest + [last];
    forall i | 0 <= i < |rest| ensures rest[i].id != last.id {
      assert rest[i] in front;
    }
    forall id ensures Knows(all, id) <==> Knows(rest, id) || last.id == id {
      assert all[|rest|] == last;
      assert forall i :: 0 <= i < |rest| ==> all[i] == rest[i];
    }
  }

  // ----- what an update means

  /** The bucket with the node at its tail and no other entry of its id, all others in their old order. */
  ghost predicate Renewed(before: Nodes, after: Nodes, node: Node) {
    if forall k :: 0 <= k < |before| ==> before[k].id != node.id then after == before + [node]
    else exists k :: 0 <= k < |before| && before[k].id == node.id && after == before[..k] + before[k + 1..] + [node]
  }

  lemma {:induction false} WithoutRemoves(data: Nodes, id: Id, k: nat)
    requires DistinctIds(data) && k < |data| && data[k].id == id
    ensures Without(data, id) == data[..k] + data[k + 1..]
  {
    var n := |data| - 1;
    var front := data[..n];
    if k < n {
      WithoutRemoves(front, id, k);
      assert data[k + 1..] == front[k + 1..] + [data[n]];
      assert front[..k] == data[..k];
    } else {
      WithoutStranger(front, id);
    }
  }

  lemma {:induction false} WithoutStranger(data: Nodes, id: Id)
    requires forall i :: 0 <= i < |data| ==> data[i].id != id
    ensures Without(data, id) == data
  {
    if data != [] {
      WithoutStranger(data[..|data| - 1], id);
      assert data == data[..|data| - 1] + [data[|data| - 1]];
    }
  }

  /** A stored node ends up last, with its new address and alone under its id, the others in their old order; a
      refused one leaves the bucket as it was. */
  lemma UpdateRenews(data: Nodes, size: nat, node: Node)
    requires DistinctIds(data)
    ensures var after := BucketUpdate(data, size, node);
            if |data| == size && forall k :: 0 <= k < |data| ==> data[k].id != node.id then after == data
            else
              && Renewed(data, after, node)
              && after != [] && after[|after| - 1] == node
              && forall i :: 0 <= i < |after| - 1 ==> after[i].id != node.id
  {
    if Knows(data, node.id) {
      var k :| 0 <= k < |data| && data[k].id == node.id;
      WithoutRemoves(data, node.id, k);
      hide Without;
    }
  }

  // ----- recency

  /** What happens to a bucket: a node is seen, or the oldest one of a full bucket is popped. */
  datatype BucketOp = Seen(node: Node) | Pop

  function AfterOps(size: nat, ops: seq<BucketOp>): Nodes {
    if ops == [] then []
    else
      var data := AfterOps(size, ops[..|ops| - 1]);
      match ops[|ops| - 1]
      case Seen(node) => BucketUpdate(data, size, node)
      case Pop => if data != [] && |data| == size then data[1..] else data
  }

  /** Each entry is the last sighting of its id, and entries stand in the order of these sightings. */
  ghost predicate ByRecency(ops: seq<BucketOp>, data: Nodes, last: seq<nat>) {
    && |last| == |data|
    && (forall i :: 0 <= i < |data| ==> last[i] < |ops| && ops[last[i]] == Seen(data[i]))
    && (forall i, k :: 0 <= i < |data| && last[i] < k < |ops| && ops[k].Seen? ==> ops[k].node.id != data[i].id)
    && (forall i, j :: 0 <= i < j < |data| ==> last[i] < last[j])
  }

  lemma RecencyIsDistinct(ops: seq<BucketOp>, data: Nodes, last: seq<nat>)
    requires ByRecency(ops, data, last)
    ensures DistinctIds(data)
  {
    forall i, j | 0 <= i < j < |data| ensures data[i].id != data[j].id {
      assert ops[last[j]].node.id != data[i].id;
    }
  }

  /** In every history of a bucket its entries are ordered by when they were last seen, under the addresses they were
      last seen with; so the head, which is popped, is the one not seen for longest. */
  lemma {:induction false} BucketsKeepRecency(size: nat, ops: seq<BucketOp>) returns (last: seq<nat>)
    ensures ByRecency(ops, AfterOps(size, ops), last)
  {
    if ops == [] {
      last := [];
    } else {
      var n := |ops| - 1;
      var before := ops[..n];
      var data := AfterOps(size, before);
      var stamps := BucketsKeepRecency(size, before);
      RecencyIsDistinct(before, data, stamps);
      match ops[n]
      case Pop =>
        if data != [] && |data| == size {
          last := stamps[1..];
          RecencyWithoutHead(before, ops, data, stamps);
        } else {
          last := stamps;
          RecencyStays(before, ops, data, stamps);
        }
      case Seen(node) =>
        UpdateRenews(data, size, node);
        if |data| == size && forall k :: 0 <= k < |data| ==> data[k].id != node.id {
          last := stamps;
          RecencyStays(before, ops, data, stamps);
        } else {
          last := RecencyRenewed(before, ops, data, AfterOps(size, ops), stamps, node);
        }
    }
  }

  /** An operation that is no sighting of a stored node. */
  lemma RecencyStays(before: seq<BucketOp>, ops: seq<BucketOp>, data: Nodes, last: seq<nat>)
    requires ByRecency(before, data, last) && |ops| == |before| + 1 && before == ops[..|before|]
    requires var op := ops[|before|]; op.Seen? ==> forall i :: 0 <= i < |data| ==> data[i].id != op.node.id
    ensures ByRecency(ops, data, last)
  {
    assert forall k :: 0 <= k < |before| ==> ops[k] == before[k];
  }

  lemma RecencyWithoutHead(before: seq<BucketOp>, ops: seq<BucketOp>, data: Nodes, last: seq<nat>)
    requires ByRecency(before, data, last) && data != [] && ops == before + [Pop]
    ensures ByRecency(ops, data[1..], last[1..])
  {
    RecencyStays(before, ops, data, last);
    assert forall i :: 0 <= i < |data| - 1 ==> data[1..][i] == data[i + 1] && last[1..][i] == last[i + 1];
  }

  lemma RecencyRenewed(before: seq<BucketOp>, ops: seq<BucketOp>, data: Nodes, after: Nodes, last: seq<nat>, node: Node)
      returns (next: seq<nat>)
    requires ByRecency(before, data, last) && ops == before + [Seen(node)] && Renewed(data, after, node)
    ensures ByRecency(ops, after, next)
  {
    RecencyIsDistinct(before, data, last);
    var rest, stamps := data, last;
    if exists k :: 0 <= k < |data| && data[k].id == node.id {
      var k :| 0 <= k < |data| && data[k].id == node.id && after == data[..k] + data[k + 1..] + [node];
      rest, stamps := data[..k] + data[k + 1..], last[..k] + last[k + 1..];
      RestIsFree(data, k);
      RecencyWithout(before, data, last, k);
    }
    hide ByRecency;
    RecencyStays(before, ops, rest, stamps);
    next := stamps + [|before|];
    RecencyWithTail(ops, rest, stamps, node);
  }

  lemma RestIsFree(data: Nodes, k: nat)
    requires DistinctIds(data) && k < |data|
    ensures var rest := data[..k] + data[k + 1..]; forall i :: 0 <= i < |rest| ==> rest[i].id != data[k].id
  {
  }

  lemma RecencyWithout(ops: seq<BucketOp>, data: Nodes, last: seq<nat>, k: nat)
    requires ByRecency(ops, data, last) && k < |data|
    ensures ByRecency(ops, data[..k] + data[k + 1..], last[..k] + last[k + 1..])
  {
    var rest, stamps := data[..k] + data[k + 1..], last[..k] + last[k + 1..];
    assert forall i :: 0 <= i < |rest| ==>
      rest[i] == data[if i < k then i else i + 1] && stamps[i] == last[if i < k then i else i + 1];
  }

  lemma RecencyWithTail(ops: seq<BucketOp>, data: Nodes, last: seq<nat>, node: Node)
    requires ByRecency(ops, data, last) && ops != [] && ops[|ops| - 1] == Seen(node)
    requires forall i :: 0 <= i < |data| ==> data[i].id != node.id
    ensures ByRecency(ops, data + [node], last + [|ops| - 1])
  {
    forall i | 0 <= i < |data| ensures last[i] < |ops| - 1 {
      assert ops[last[i]] == Seen(data[i]);
    }
  }

  // ----- the whole table

  type Table = seq<Nodes>

  /** A bucket holds nodes at distances from 2^i up to 2^(i+1), each id once, within capacity. */
  ghost predicate BucketFits(here: Id, size: nat, i: nat, data: Nodes) {
    && |data| <= size && DistinctIds(data)
    && forall n :: n in data ==> Pow2(i) <= Xor(here, n.id) < Pow2(i + 1)
  }

  ghost predicate TableFits(here: Id, size: nat, t: Table) {
    forall i :: 0 <= i < |t| ==> BucketFits(here, size, i, t[i])
  }

  /** The bucket of an id, or none where the code panics: our own id, or too far. */
  function BucketNumber(here: Id, hashSize: nat, id: Id): Option<nat> {
    if id == here || Bits(Xor(here, id)) > hashSize then None
    else (BitsOfDistance(here, id); Some(Bits(Xor(here, id)) - 1))
  }

  lemma BitsOfDistance(here: Id, id: Id)
    ensures id != here ==> Bits(Xor(here, id)) > 0
  {
    ZeroOnlyAtSelf(here, id);
  }

  /** The bucket number is the only one whose range holds the distance. */
  lemma BucketNumberIsExact(here: Id, hashSize: nat, id: Id, i: nat)
    ensures BucketNumber(here, hashSize, id) == Some(i)
            <==> i < hashSize && Pow2(i) <= Xor(here, id) < Pow2(i + 1)
  {
    var d := Xor(here, id);
    ZeroOnlyAtSelf(here, id);
    BitsBound(d);
    if Pow2(i) <= d < Pow2(i + 1) { BitsUnique(d, i + 1); }
  }

  /** Two nodes put each other into the same bucket. */
  lemma BucketsAreMutual(a: Id, b: Id, hashSize: nat)
    ensures BucketNumber(a, hashSize, b) == BucketNumber(b, hashSize, a)
  {
    XorCommutes(a, b);
  }

  lemma InRangeIsPlaced(here: Id, hashSize: nat, id: Id)
    requires here < Pow2(hashSize) && id < Pow2(hashSize) && id != here
    ensures BucketNumber(here, hashSize, id).Some?
  {
    var d := Xor(here, id);
    XorFits(here, id, hashSize);
    BitsBound(d);
    BitsOfDistance(here, id);
    if Bits(d) > hashSize { PowGrows(hashSize, Bits(d) - 1); }
  }

  /** A handler that ignores messages from `nodeId` is safe from the table's panics, for all ids
      of the hash size, exactly when that is the id the table was made with. */
  lemma HandlerIsSafeIff(here: Id, hashSize: nat, nodeId: Id)
    requires here < Pow2(hashSize)
    ensures (forall id: Id :: id < Pow2(hashSize) && id != nodeId ==> BucketNumber(here, hashSize, id).Some?)
            <==> nodeId == here
  {
    if nodeId == here {
      forall id: Id | id < Pow2(hashSize) && id != nodeId ensures BucketNumber(here, hashSize, id).Some? {
        InRangeIsPlaced(here, hashSize, id);
      }
    } else {
      assert BucketNumber(here, hashSize, here) == None;
    }
  }

  ghost function Placed(t: Table, i: nat, size: nat, node: Node): Table
    requires i < |t|
  {
    t[i := BucketUpdate(t[i], size, node)]
  }

  lemma UpdateFits(here: Id, size: nat, i: nat, data: Nodes, node: Node)
    requires BucketFits(here, size, i, data) && Pow2(i) <= Xor(here, node.id) < Pow2(i + 1)
    ensures BucketFits(here, size, i, BucketUpdate(data, size, node))
  {
    hide Pow2;
    hide Xor;
    WithoutKeepsOthers(data, node.id);
  }

  lemma FitsIsDistinct(here: Id, size: nat, i: nat, data: Nodes)
    requires BucketFits(here, size, i, data)
    ensures DistinctIds(data)
  {
  }

  /** No id is stored twice in the whole table. */
  lemma IdsAreUnique(here: Id, size: nat, t: Table, i: nat, k: nat, j: nat, l: nat)
    requires TableFits(here, size, t) && i < |t| && j < |t| && k < |t[i]| && l < |t[j]|
    requires t[i][k].id == t[j][l].id
    ensures i == j && k == l
  {
    BucketNumberIsExact(here, |t|, t[i][k].id, i);
    BucketNumberIsExact(here, |t|, t[j][l].id, j);
  }

  // ----- search

  lemma {:induction false} FlattenHolds(t: Table, n: Node)
    ensures n in Flatten(t) <==> exists i :: 0 <= i < |t| && n in t[i]
  {
    if t != [] {
      var k := |t| - 1;
      FlattenHolds(t[..k], n);
      assert forall i :: 0 <= i < k ==> t[..k][i] == t[i];
    }
  }

  lemma PrefixFits(here: Id, size: nat, t: Table, k: nat)
    requires TableFits(here, size, t) && k <= |t|
    ensures TableFits(here, size, t[..k])
  {
  }

  lemma {:induction false} FlattenDistinct(here: Id, size: nat, t: Table)
    requires TableFits(here, size, t)
    ensures DistinctIds(Flatten(t))
  {
    if t != [] {
      var k := |t| - 1;
      var front, last := Flatten(t[..k]), t[k];
      PrefixFits(here, size, t, k);
      FlattenDistinct(here, size, t[..k]);
      assert BucketFits(here, size, k, last);
      forall a, b | 0 <= a < |front| && 0 <= b < |last| ensures front[a].id != last[b].id {
        FlattenHolds(t[..k], front[a]);
        var i :| 0 <= i < k && front[a] in t[..k][i];
        var c :| 0 <= c < |t[i]| && t[i][c] == front[a];
        if front[a].id == last[b].id {
          IdsAreUnique(here, size, t, i, c, k, b);
        }
      }
    }
  }

  function Distance(id: Id): Node -> nat {
    (n: Node) => Xor(id, n.id)
  }

  /** `found` lists the nearest nodes of `all`: as many as asked for or as there are, in strictly
      increasing distance, and every other node is farther than all of them. */
  ghost predicate Nearest(id: Id, count: nat, all: Nodes, found: Nodes) {
    && |found| == Min(count, |all|)
    && (forall n :: n in found ==> n in all)
    && (forall i, j :: 0 <= i < j < |found| ==> Xor(id, found[i].id) < Xor(id, found[j].id))
    && (forall n, i :: n in all && n !in found && 0 <= i < |found| ==> Xor(id, found[i].id) < Xor(id, n.id))
  }

  lemma SortedIsStrict(id: Id, all: Nodes, sorted: Nodes, i: nat, j: nat)
    requires DistinctIds(all) && Ordered(Distance(id), sorted) && multiset(sorted) == multiset(all)
    requires i < j < |sorted|
    ensures Xor(id, sorted[i].id) < Xor(id, sorted[j].id)
  {
    OrderedAt(Distance(id), sorted, i, j);
    if Xor(id, sorted[i].id) == Xor(id, sorted[j].id) {
      DistanceIsUnique(id, sorted[i].id, sorted[j].id);
      SameIdSameNode(all, sorted, i, j);
    }
  }

  /** A permutation of a list without repeated ids has none either. */
  lemma SameIdSameNode(all: Nodes, sorted: Nodes, i: nat, j: nat)
    requires DistinctIds(all) && multiset(sorted) == multiset(all)
    requires i < j < |sorted|
    ensures sorted[i].id != sorted[j].id
  {
    var x, y := sorted[i], sorted[j];
    assert x in multiset(all) && y in multiset(all);
    var a :| 0 <= a < |all| && all[a] == x;
    var b :| 0 <= b < |all| && all[b] == y;
    if x.id == y.id {
      assert a == b;
      TwiceCounts(sorted, i, j);
      OnceCounts(all, a);
      assert false;
    }
  }

  lemma TwiceCounts(s: Nodes, i: nat, j: nat)
    requires i < j < |s| && s[i] == s[j]
    ensures multiset(s)[s[i]] >= 2
  {
    assert s == s[..j] + s[j..];
    assert s[i] in s[..j] && s[i] in s[j..];
  }

  lemma OnceCounts(s: Nodes, i: nat)
    requires DistinctIds(s) && i < |s|
    ensures multiset(s)[s[i]] == 1
  {
    assert s == s[..i] + [s[i]] + s[i + 1..];
    assert s[i] !in s[..i] && s[i] !in s[i + 1..];
  }

  lemma PrefixIsNearest(id: Id, count: nat, all: Nodes)
    requires DistinctIds(all)
    ensures |SortBy(Distance(id), all)| == |all|
    ensures Nearest(id, count, all, SortBy(Distance(id), all)[..Min(count, |all|)])
  {
    hide *;
    var sorted := SortBy(Distance(id), all);
    SortIsOrdered(Distance(id), all);
    var m := Min(count, |all|);
    MinIsBoth(count, |all|);
    PrefixIsStored(all, sorted, m);
    PrefixIsStrict(id, all, sorted, m);
    RestIsFarther(id, all, sorted, m);
    NearestByParts(id, count, all, sorted[..m]);
  }

  lemma MinIsBoth(a: nat, b: nat)
    ensures Min(a, b) <= a && Min(a, b) <= b
  {
  }

  lemma PrefixIsStored(all: Nodes, sorted: Nodes, m: nat)
    requires multiset(sorted) == multiset(all) && m <= |sorted|
    ensures forall n :: n in sorted[..m] ==> n in all
  {
    forall n | n in sorted[..m] ensures n in all {
      assert n in multiset(sorted);
    }
  }

  lemma PrefixIsStrict(id: Id, all: Nodes, sorted: Nodes, m: nat)
    requires DistinctIds(all) && Ordered(Distance(id), sorted) && multiset(sorted) == multiset(all) && m <= |sorted|
    ensures forall i, j :: 0 <= i < j < m ==> Xor(id, sorted[..m][i].id) < Xor(id, sorted[..m][j].id)
  {
    hide Xor;
    hide Ordered;
    forall i, j | 0 <= i < j < m ensures Xor(id, sorted[..m][i].id) < Xor(id, sorted[..m][j].id) {
      SortedIsStrict(id, all, sorted, i, j);
    }
  }

  lemma RestIsFarther(id: Id, all: Nodes, sorted: Nodes, m: nat)
    requires DistinctIds(all) && Ordered(Distance(id), sorted) && multiset(sorted) == multiset(all) && m <= |sorted|
    ensures forall n, i :: n in all && n !in sorted[..m] && 0 <= i < m ==> Xor(id, sorted[..m][i].id) < Xor(id, n.id)
  {
    hide Xor;
    hide Ordered;
    hide DistinctIds;
    var found := sorted[..m];
    assert forall q :: 0 <= q < m ==> found[q] == sorted[q];
    forall n, i | n in all && n !in found && 0 <= i < m ensures Xor(id, found[i].id) < Xor(id, n.id) {
      assert n in multiset(sorted);
      var k :| 0 <= k < |sorted| && sorted[k] == n;
      assert k >= m;
      SortedIsStrict(id, all, sorted, i, k);
    }
  }

  lemma NearestByParts(id: Id, count: nat, all: Nodes, found: Nodes)
    requires |found| == Min(count, |all|) && forall n :: n in found ==> n in all
    requires forall i, j :: 0 <= i < j < |found| ==> Xor(id, found[i].id) < Xor(id, found[j].id)
    requires forall n, i :: n in all && n !in found && 0 <= i < |found| ==> Xor(id, found[i].id) < Xor(id, n.id)
    ensures Nearest(id, count, all, found)
  {
  }

  // ----- clean-up

  predicate Full(data: Nodes, size: nat) {
    data != [] && |data| == size
  }

  /** The oldest node of every full bucket, in bucket order. */
  function Oldest(t: Table, size: nat): Nodes {
    if t == [] then []
    else
      var data := t[|t| - 1];
      Oldest(t[..|t| - 1], size) + (if Full(data, size) then [data[0]] else [])
  }

  /** How many nodes are popped before bucket i. */
  ghost function Rank(t: Table, size: nat, i: nat): nat
    requires i <= |t|
  {
    |Oldest(t[..i], size)|
  }

  /** The answers of the check, by number of the call and node. */
  type Check = (nat, Node) -> bool

  /** A bucket after its oldest node was popped and, when the check was passed, put back. */
  function Cleaned(data: Nodes, size: nat, alive: bool): Nodes {
    if !Full(data, size) then data
    else if alive then data[1..] + [data[0]]
    else data[1..]
  }

  /** The table after popping and after the first `done` answers. */
  ghost function CleanedTable(t: Table, size: nat, check: Check, done: nat): (r: Table)
    ensures |r| == |t|
  {
    seq(|t|, i requires 0 <= i < |t| =>
      Cleaned(t[i], size, Full(t[i], size) && Rank(t, size, i) < done && check(Rank(t, size, i), t[i][0])))
  }

  /** A full bucket is rotated by one place, or loses its head; any other bucket stays. */
  lemma CleanedExactly(data: Nodes, size: nat, alive: bool)
    ensures var after := Cleaned(data, size, alive);
            if data == [] || |data| != size then after == data
            else
              && |after| == (if alive then |data| else |data| - 1)
              && (forall i :: 0 <= i < |data| - 1 ==> after[i] == data[i + 1])
              && (alive ==> after[|data| - 1] == data[0])
  {
  }

  lemma RankStep(t: Table, size: nat, i: nat)
    requires i < |t|
    ensures Oldest(t[..i + 1], size) == Oldest(t[..i], size) + (if Full(t[i], size) then [t[i][0]] else [])
  {
    assert t[..i + 1][..i] == t[..i];
  }

  lemma {:induction false} OldestGrows(t: Table, size: nat, i: nat, j: nat)
    requires i <= j <= |t|
    ensures Oldest(t[..i], size) <= Oldest(t[..j], size)
    decreases j
  {
    if i < j {
      OldestGrows(t, size, i, j - 1);
      RankStep(t, size, j - 1);
    }
  }

  /** Popped node number Rank(i) is the head of bucket i, and no other bucket has that number. */
  lemma PoppedAtRank(t: Table, size: nat, i: nat)
    requires i < |t| && Full(t[i], size)
    ensures Rank(t, size, i) < |Oldest(t, size)| && Oldest(t, size)[Rank(t, size, i)] == t[i][0]
  {
    RankStep(t, size, i);
    OldestGrows(t, size, i + 1, |t|);
    assert t[..|t|] == t;
  }

  lemma RanksDiffer(t: Table, size: nat, i: nat, j: nat)
    requires i < j < |t| && Full(t[i], size)
    ensures Rank(t, size, i) < Rank(t, size, j)
  {
    RankStep(t, size, i);
    OldestGrows(t, size, i + 1, j);
  }

  /** Every popped node comes from a full bucket. */
  lemma {:induction false} BucketOfPopped(t: Table, size: nat, k: nat, upTo: nat) returns (i: nat)
    requires upTo <= |t| && k < Rank(t, size, upTo)
    ensures i < upTo && Full(t[i], size) && Rank(t, size, i) == k
    decreases upTo
  {
    assert t[..0] == [];
    RankStep(t, size, upTo - 1);
    if k < Rank(t, size, upTo - 1) {
      i := BucketOfPopped(t, size, k, upTo - 1);
    } else {
      i := upTo - 1;
    }
  }

  lemma CleanedFits(here: Id, size: nat, i: nat, data: Nodes, alive: bool)
    requires BucketFits(here, size, i, data)
    ensures BucketFits(here, size, i, Cleaned(data, size, alive))
  {
    hide Pow2;
    hide Xor;
    assert Full(data, size) ==> forall n :: n in data[1..] ==> n in data;
  }

  /** The table right after popping. */
  ghost function PoppedTable(t: Table, size: nat): Table {
    seq(|t|, i requires 0 <= i < |t| => Cleaned(t[i], size, false))
  }

  lemma NothingAnswered(t: Table, size: nat, check: Check)
    ensures CleanedTable(t, size, check, 0) == PoppedTable(t, size)
  {
    forall i | 0 <= i < |t| ensures CleanedTable(t, size, check, 0)[i] == PoppedTable(t, size)[i] {
      CleanedAt(t, size, check, 0, i);
    }
  }

  lemma PoppedFits(here: Id, size: nat, t: Table)
    requires TableFits(here, size, t)
    ensures TableFits(here, size, PoppedTable(t, size))
  {
    hide BucketFits;
    hide Cleaned;
    forall i | 0 <= i < |t| ensures BucketFits(here, size, i, PoppedTable(t, size)[i]) {
      CleanedFits(here, size, i, t[i], false);
    }
  }

  /** Putting the next checked node back touches its own bucket, and succeeds. */
  lemma PutBack(here: Id, size: nat, t: Table, check: Check, k: nat)
    returns (i: nat)
    requires TableFits(here, size, t) && k < |Oldest(t, size)|
    ensures i < |t| && Full(t[i], size) && Oldest(t, size)[k] == t[i][0]
    ensures BucketNumber(here, |t|, t[i][0].id) == Some(i)
    ensures CleanedTable(t, size, check, k)[i] == t[i][1..]
    ensures BucketUpdate(t[i][1..], size, t[i][0]) == t[i][1..] + [t[i][0]]
    ensures CleanedTable(t, size, check, k + 1)
            == if check(k, t[i][0]) then CleanedTable(t, size, check, k)[i := t[i][1..] + [t[i][0]]]
               else CleanedTable(t, size, check, k)
  {
    assert t[..|t|] == t;
    i := BucketOfPopped(t, size, k, |t|);
    PoppedAtRank(t, size, i);
    BucketNumberIsExact(here, |t|, t[i][0].id, i);
    hide BucketNumber;
    hide Oldest;
    hide Pow2;
    hide Xor;
    forall j | 0 <= j < |t| && j != i && Full(t[j], size) ensures Rank(t, size, j) != k {
      if i < j { RanksDiffer(t, size, i, j); } else { RanksDiffer(t, size, j, i); }
    }
    assert !Knows(t[i][1..], t[i][0].id);
    CleanedAt(t, size, check, k, i);
    var before, after := CleanedTable(t, size, check, k), CleanedTable(t, size, check, k + 1);
    forall j | 0 <= j < |t| && j != i ensures after[j] == before[j] {
      CleanedAt(t, size, check, k, j);
      CleanedAt(t, size, check, k + 1, j);
    }
    CleanedAt(t, size, check, k + 1, i);
    hide CleanedTable;
    assert after == before[i := after[i]];
    assert before == before[i := before[i]];
  }

  lemma CleanedAt(t: Table, size: nat, check: Check, done: nat, i: nat)
    requires i < |t|
    ensures CleanedTable(t, size, check, done)[i]
            == Cleaned(t[i], size, Full(t[i], size) && Rank(t, size, i) < done && check(Rank(t, size, i), t[i][0]))
  {
  }

  lemma CleanedIds(data: Nodes, size: nat, alive: bool, n: Node)
    requires DistinctIds(data)
    ensures n in Cleaned(data, size, alive) <==> n in data && !(Full(data, size) && !alive && n == data[0])
  {
    if Full(data, size) {
      assert data == [data[0]] + data[1..];
    }
  }

  ghost predicate Holds(t: Table, n: Node) {
    exists i :: 0 <= i < |t| && n in t[i]
  }

  ghost predicate WasDropped(t: Table, size: nat, check: Check, n: Node) {
    exists k :: 0 <= k < |Oldest(t, size)| && Oldest(t, size)[k] == n && !check(k, n)
  }

  /** In its own bucket a node survives unless it was popped and failed the check. */
  lemma SurvivesInBucket(here: Id, size: nat, t: Table, check: Check, n: Node, i: nat)
    requires TableFits(here, size, t) && i < |t| && n in t[i]
    ensures n in CleanedTable(t, size, check, |Oldest(t, size)|)[i] <==> !WasDropped(t, size, check, n)
  {
    var all := |Oldest(t, size)|;
    CleanedAt(t, size, check, all, i);
    var alive := Full(t[i], size) && Rank(t, size, i) < all && check(Rank(t, size, i), t[i][0]);
    assert BucketFits(here, size, i, t[i]);
    CleanedIds(t[i], size, alive, n);
    if Full(t[i], size) { PoppedAtRank(t, size, i); }
    if WasDropped(t, size, check, n) {
      var k :| 0 <= k < all && Oldest(t, size)[k] == n && !check(k, n);
      assert t[..|t|] == t;
      var j := BucketOfPopped(t, size, k, |t|);
      PoppedAtRank(t, size, j);
      var at :| 0 <= at < |t[i]| && t[i][at] == n;
      IdsAreUnique(here, size, t, i, at, j, 0);
    }
  }

  lemma NothingAdded(here: Id, size: nat, t: Table, check: Check, n: Node, i: nat)
    requires TableFits(here, size, t) && i < |t|
    requires n in CleanedTable(t, size, check, |Oldest(t, size)|)[i]
    ensures n in t[i]
  {
    var all := |Oldest(t, size)|;
    CleanedAt(t, size, check, all, i);
    assert BucketFits(here, size, i, t[i]);
    CleanedIds(t[i], size, Full(t[i], size) && Rank(t, size, i) < all && check(Rank(t, size, i), t[i][0]), n);
  }

  /** Clean-up conservation: exactly the popped nodes that failed the check are gone. */
  lemma CleanUpConserves(here: Id, size: nat, t: Table, check: Check, n: Node)
    requires TableFits(here, size, t)
    ensures Holds(CleanedTable(t, size, check, |Oldest(t, size)|), n)
            <==> Holds(t, n) && !WasDropped(t, size, check, n)
  {
    var after := CleanedTable(t, size, check, |Oldest(t, size)|);
    if Holds(t, n) {
      var i :| 0 <= i < |t| && n in t[i];
      SurvivesInBucket(here, size, t, check, n, i);
    }
    if Holds(after, n) {
      var i :| 0 <= i < |after| && n in after[i];
      NothingAdded(here, size, t, check, n, i);
      SurvivesInBucket(here, size, t, check, n, i);
    }
  }

  // ----- the objects

  class KBucket {
    var data: Nodes
    const size: nat

    constructor (k: nat)
      requires k > 0
      ensures data == [] && size == k
    {
      data, size := [], k;
    }

    /** True when the node was stored. */
    method Update(node: Node) returns (stored: bool)
      modifies this
      ensures data == BucketUpdate(old(data), size, node)
      ensures stored <==> Knows(old(data), node.id) || |old(data)| != size
      ensures DistinctIds(old(data)) ==> if stored then Renewed(old(data), data, node) else data == old(data)
    {
      if DistinctIds(data) {
        UpdateRenews(data, size, node);
      }
      if exists i :: 0 <= i < |data| && data[i].id == node.id {
        UpdatePosition(node);
        stored := true;
      } else if |data| == size {
        stored := false;
      } else {
        data := data + [node];
        stored := true;
      }
    }

    method PopIfFull() returns (popped: Nodes)
      modifies this
      ensures data == Cleaned(old(data), size, false)
      ensures popped == if Full(old(data), size) then [old(data)[0]] else []
    {
      if data != [] && size == |data| {
        popped := [data[0]];
        data := data[1..];
      } else {
        popped := [];
      }
    }

    method UpdatePosition(node: Node)
      modifies this
      ensures data == Without(old(data), node.id) + [node]
    {
      var newData := Without(data, node.id);
      newData := newData + [node];
      data := newData;
    }
  }

  /** What the table does with a node; `Panics` is its own id or a distance beyond the hash size. */
  datatype Updated = Stored | Refused | Panics

  class KNodeTable {
    const thisId: Id
    const hashSize: nat
    const bucketSize: nat
    const buckets: seq<KBucket>

    /** The nodes by bucket. */
    ghost function Contents(): (t: Table)
      reads buckets
      ensures |t| == |buckets|
    {
      seq(|buckets|, i requires 0 <= i < |buckets| reads buckets => buckets[i].data)
    }

    ghost predicate Shape() {
      && |buckets| == hashSize
      && (forall i :: 0 <= i < |buckets| ==> buckets[i].size == bucketSize)
      && (forall i, j :: 0 <= i < j < |buckets| ==> buckets[i] != buckets[j])
    }

    ghost predicate Valid()
      reads buckets
    {
      Shape() && TableFits(thisId, bucketSize, Contents())
    }

    constructor (id: Id, size: nat, hash: nat)
      requires hash == 0 || size > 0
      ensures Valid() && thisId == id && bucketSize == size && hashSize == hash
      ensures Contents() == seq(hash, _ => [])
      ensures forall b :: b in buckets ==> fresh(b)
    {
      var all: seq<KBucket> := [];
      for i := 0 to hash
        invariant |all| == i
        invariant forall k :: 0 <= k < i ==> fresh(all[k]) && all[k].size == size && all[k].data == []
        invariant forall k, l :: 0 <= k < l < i ==> all[k] != all[l]
      {
        var b := new KBucket(size);
        all := all + [b];
      }
      thisId, hashSize, bucketSize, buckets := id, hash, size, all;
    }

    /** The panic of the code is `None`. */
    method FindBucket(id: Id) returns (i: Option<nat>)
      ensures i == BucketNumber(thisId, hashSize, id)
      ensures i.Some? ==> i.value < hashSize && Pow2(i.value) <= Xor(thisId, id) < Pow2(i.value + 1)
    {
      var diff := Xor(thisId, id);
      ZeroOnlyAtSelf(thisId, id);
      if diff == 0 {
        return None;
      }
      var res := Bits(diff) - 1;
      if res >= hashSize {
        return None;
      }
      BucketNumberIsExact(thisId, hashSize, id, res);
      return Some(res);
    }

    method Update(node: Node) returns (r: Updated)
      requires Valid()
      modifies buckets
      ensures Valid()
      ensures match BucketNumber(thisId, hashSize, node.id)
              case None => r == Panics && Contents() == old(Contents())
              case Some(i) =>
                && i < |buckets| && Contents() == Placed(old(Contents()), i, bucketSize, node)
                && r == (if Knows(old(Contents())[i], node.id) || |old(Contents())[i]| != bucketSize then Stored else Refused)
                && (r == Stored ==> Renewed(old(Contents())[i], Contents()[i], node))
                && (r == Refused ==> Contents() == old(Contents()))
    {
      hide BucketUpdate;
      hide BucketFits;
      ghost var t := Contents();
      var at := FindBucket(node.id);
      if at.None? {
        return Panics;
      }
      var i := at.value;
      UpdateFits(thisId, bucketSize, i, t[i], node);
      FitsIsDistinct(thisId, bucketSize, i, t[i]);
      hide Renewed;
      var stored := buckets[i].Update(node);
      assert Contents() == Placed(t, i, bucketSize, node);
      assert !stored ==> Placed(t, i, bucketSize, node) == t;
      return if stored then Stored else Refused;
    }

    /** None where the code panics: on our own id, and, with debug assertions, on a count of zero. */
    method Find(id: Id, count: nat) returns (found: Option<Nodes>)
      requires Valid()
      ensures found == None <==> id == thisId || count == 0
      ensures found.Some? ==> Nearest(id, count, Flatten(Contents()), found.value)
    {
      if count == 0 {
        return None;
      }
      if id == thisId {
        return None;
      }
      var dataCopy: Nodes := [];
      for i := 0 to |buckets|
        invariant dataCopy == Flatten(Contents()[..i])
      {
        assert Contents()[..i + 1][..i] == Contents()[..i];
        dataCopy := dataCopy + buckets[i].data;
      }
      assert Contents()[..|buckets|] == Contents();
      FlattenDistinct(thisId, bucketSize, Contents());
      PrefixIsNearest(id, count, dataCopy);
      return Some(SortBy(Distance(id), dataCopy)[..Min(count, |dataCopy|)]);
    }

    /** Pops the oldest node of every full bucket. */
    method PopOldest() returns (oldest: Nodes)
      requires Valid()
      modifies buckets
      ensures Valid()
      ensures oldest == Oldest(old(Contents()), bucketSize)
      ensures Contents() == PoppedTable(old(Contents()), bucketSize)
    {
      hide TableFits;
      hide Cleaned;
      ghost var t := Contents();
      oldest := [];
      for i := 0 to |buckets|
        invariant oldest == Oldest(t[..i], bucketSize)
        invariant forall k :: 0 <= k < i ==> buckets[k].data == Cleaned(t[k], bucketSize, false)
        invariant forall k :: i <= k < |buckets| ==> buckets[k].data == t[k]
      {
        RankStep(t, bucketSize, i);
        var popped := buckets[i].PopIfFull();
        oldest := oldest + popped;
      }
      hide Oldest;
      hide Full;
      assert t[..|buckets|] == t;
      assert Contents() == PoppedTable(t, bucketSize);
      PoppedFits(thisId, bucketSize, t);
    }
  }

  /** The service and its handler share the table; `nodeId` is the id the handler compares with. */
  class Service {
    const nodeId: Id
    const table: KNodeTable
    var cleanNeeded: bool

    constructor (nodeTable: KNodeTable, id: Id)
      ensures nodeId == id && table == nodeTable && !cleanNeeded
    {
      nodeId, table, cleanNeeded := id, nodeTable, false;
    }

    /** Remembers a node that contacted us. */
    method Update(node: Node) returns (ok: bool)
      requires table.Valid()
      modifies this, table.buckets
      ensures table.Valid()
      ensures node.id == nodeId ==> ok && table.Contents() == old(table.Contents()) && cleanNeeded == old(cleanNeeded)
      ensures node.id != nodeId ==>
                match BucketNumber(table.thisId, table.hashSize, node.id)
                case None => !ok
                case Some(i) =>
                  var b := old(table.Contents())[i];
                  && ok && table.Contents() == Placed(old(table.Contents()), i, table.bucketSize, node)
                  && (cleanNeeded <==> old(cleanNeeded) || (!Knows(b, node.id) && |b| == table.bucketSize))
                  && if Knows(b, node.id) || |b| != table.bucketSize then Renewed(b, table.Contents()[i], node)
                     else table.Contents() == old(table.Contents())
    {
      if node.id == nodeId {
        return true;
      }
      var r := table.Update(node);
      if r == Panics {
        return false;
      }
      if r == Refused {
        cleanNeeded := true;
      }
      return true;
    }

    /** Every full bucket is rotated by one or, when its oldest node failed the check, shortened
        by one; every other bucket is as it was. */
    method CleanUp(check: Check)
      requires table.Valid()
      modifies this, table.buckets
      ensures table.Valid() && !cleanNeeded
      ensures var t, size := old(table.Contents()), table.bucketSize;
              table.Contents() == CleanedTable(t, size, check, |Oldest(t, size)|)
    {
      hide CleanedTable;
      ghost var t := table.Contents();
      var oldest := table.PopOldest();
      NothingAnswered(t, table.bucketSize, check);
      for k := 0 to |oldest|
        invariant table.Valid() && table.Contents() == CleanedTable(t, table.bucketSize, check, k)
      {
        ghost var i := PutBack(table.thisId, table.bucketSize, t, check, k);
        if check(k, oldest[k]) {
          var r := table.Update(oldest[k]);
          assert r == Stored;
        }
      }
      cleanNeeded := false;
    }
  }
}
