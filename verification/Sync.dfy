/** Block synchronisation: the batches one node posts and their replay on another. */
module Sync {
  import opened Ledger
  import opened Sequences

  /** The size of a full batch: the first one holds 22 blocks, every other 21. */
  function FullBatch(i: nat): nat {
    if i == 0 then 22 else 21
  }

  /** All batches but the last are full, and the last is not empty. */
  ghost predicate BatchesFit(posts: seq<seq<FullBlock>>) {
    forall i :: 0 <= i < |posts| ==>
      0 < |posts[i]| <= FullBatch(i) && (i < |posts| - 1 ==> |posts[i]| == FullBatch(i))
  }

  ghost predicate AllFull(posts: seq<seq<FullBlock>>) {
    forall i :: 0 <= i < |posts| ==> |posts[i]| == FullBatch(i)
  }

  lemma PostAppends(posts: seq<seq<FullBlock>>, blocks: seq<FullBlock>)
    requires AllFull(posts) && 0 < |blocks| <= FullBatch(|posts|)
    ensures Flatten(posts + [blocks]) == Flatten(posts) + blocks && Flatten(posts + [blocks]) + [] == Flatten(posts) + blocks
    ensures BatchesFit(posts + [blocks]) && (|blocks| == FullBatch(|posts|) ==> AllFull(posts + [blocks]))
  {
    hide *;
    FlattenAppends(posts, blocks);
    BatchesAppend(posts, blocks, posts + [blocks]);
  }

  lemma BatchesAppend(posts: seq<seq<FullBlock>>, blocks: seq<FullBlock>, more: seq<seq<FullBlock>>)
    requires AllFull(posts) && 0 < |blocks| <= FullBatch(|posts|) && more == posts + [blocks]
    ensures BatchesFit(more) && (|blocks| == FullBatch(|posts|) ==> AllFull(more))
  {
    hide FullBatch;
    forall i | 0 <= i < |more|
      ensures 0 < |more[i]| <= FullBatch(i) && (i < |posts| || |blocks| == FullBatch(|posts|) ==> |more[i]| == FullBatch(i))
    {
      if i < |posts| {
        assert |posts[i]| == FullBatch(i);
        FullBatchIsPositive(i);
      }
    }
  }

  lemma FullBatchIsPositive(i: nat)
    ensures FullBatch(i) > 0
  {
  }

  lemma FlattenAppends(posts: seq<seq<FullBlock>>, blocks: seq<FullBlock>)
    ensures Flatten(posts + [blocks]) == Flatten(posts) + blocks && Flatten(posts + [blocks]) + [] == Flatten(posts) + blocks
  {
    assert (posts + [blocks])[..|posts|] == posts;
  }

  lemma FullBatchesFit(posts: seq<seq<FullBlock>>)
    requires AllFull(posts)
    ensures BatchesFit(posts)
  {
  }

  /** The blocks of heights a to b - 1, none when the chain does not reach there. */
  function Slice(chain: seq<FullBlock>, a: nat, b: nat): seq<FullBlock> {
    if a <= b <= |chain| then chain[a..b] else []
  }

  lemma SliceNext(chain: seq<FullBlock>, a: nat, b: nat)
    requires a <= b < |chain|
    ensures Slice(chain, a, b + 1) == Slice(chain, a, b) + [chain[b]]
  {
  }

  /** Answer a sync request from a height: the posted batches hold, in order and without loss or repeat,
      the blocks from that height on, at most 102 of them. */
  method AnswerSync(ledger: Ledger, height: nat) returns (posts: seq<seq<FullBlock>>)
    requires ledger.Valid() && ledger.Chain() != []
    modifies ledger`headerCache, ledger`blockCache
    ensures ledger.Valid() && ledger.Chain() == old(ledger.Chain())
    ensures var chain := ledger.Chain();
            Flatten(posts) == Slice(chain, height, Min(|chain|, height + 102))
    ensures BatchesFit(posts)
  {
    hide Ledger.Valid;
    hide Ledger.Chain;
    hide Flatten;
    hide AllFull;
    hide BatchesFit;
    ghost var chain := ledger.Chain();
    var last := ledger.LastHeight();
    var total, batch := 0, 0;
    var blocks: seq<FullBlock> := [];
    posts := [];
    NothingYet(chain, height);
    hide Slice;
    var at := height;
    ghost var end := height;
    while at < last + 1
      invariant ledger.Valid() && ledger.Chain() == chain
      invariant at == end == height + total && total <= 101 && (end <= |chain| || total == 0)
      invariant batch == |blocks| + (if posts == [] then 0 else 1) && batch <= 21
      invariant Flatten(posts) + blocks == Slice(chain, height, end)
      invariant AllFull(posts)
    {
      var block := ledger.ChainBlockByHeight(at);
      if block.Some? {
        blocks := blocks + [block.value];
      }
      SliceNext(chain, height, at);
      end := at + 1;
      if batch > 20 {
        PostAppends(posts, blocks);
        posts := posts + [blocks];
        batch := 0;
        blocks := [];
      }
      if total > 100 {
        break;
      }
      batch := batch + 1;
      total := total + 1;
      at := at + 1;
    }
    FullBatchesFit(posts);
    if |blocks| > 0 {
      PostAppends(posts, blocks);
      posts := posts + [blocks];
    }
    SliceEnd(chain, height, end);
  }

  lemma NothingYet(chain: seq<FullBlock>, height: nat)
    ensures Flatten([]) + [] == Slice(chain, height, height) && AllFull([])
  {
  }

  /** The loop ends at the chain's end, after 102 blocks, or without a step. */
  lemma SliceEnd(chain: seq<FullBlock>, height: nat, end: nat)
    requires end == Min(|chain|, height + 102) || end == height >= |chain|
    ensures Slice(chain, height, end) == Slice(chain, height, Min(|chain|, height + 102))
  {
  }

  /** Insert received batches one after the other. */
  method Receive(ledger: Ledger, posts: seq<seq<FullBlock>>)
    requires ledger.Valid() && ledger.Chain() != []
    modifies ledger, ledger.heights
    ensures ledger.Valid() && ledger.Chain() == InsertAll(old(ledger.Chain()), Flatten(posts))
  {
    hide Ledger.Valid;
    hide Ledger.Chain;
    for i := 0 to |posts|
      invariant ledger.Valid() && ledger.Chain() != []
      invariant ledger.Chain() == InsertAll(old(ledger.Chain()), Flatten(posts[..i]))
    {
      InsertionsGrow(ledger.Chain(), posts[i]);
      ledger.InsertBatch(posts[i]);
      assert posts[..i + 1][..i] == posts[..i];
      InsertInTwo(old(ledger.Chain()), Flatten(posts[..i]), posts[i]);
    }
    assert posts[..|posts|] == posts;
  }

  lemma {:induction false} InsertInTwo(chain: seq<FullBlock>, a: seq<FullBlock>, b: seq<FullBlock>)
    ensures InsertAll(chain, a + b) == InsertAll(InsertAll(chain, a), b)
  {
    if b == [] {
      assert a + b == a;
    } else {
      InsertInTwo(chain, a, b[..|b| - 1]);
      assert (a + b)[..|a + b| - 1] == a + b[..|b| - 1];
    }
  }

  /** Replaying blocks h..e of a chain on its prefix of length k rebuilds the prefix up to e when nothing is
      missing below h, changes nothing otherwise, and never shortens what is there. */
  lemma {:induction false} ReplayRebuilds(chain: seq<FullBlock>, k: nat, h: nat, e: nat)
    requires Contiguous(chain) && k <= |chain| && h <= e <= |chain|
    ensures InsertAll(chain[..k], chain[h..e]) == if k < h || e <= k then chain[..k] else chain[..e]
  {
    if h < e {
      ReplayRebuilds(chain, k, h, e - 1);
      InsertLast(chain[..k], chain, h, e);
      hide InsertAll;
      assert chain[e - 1].header.height == e - 1;
      assert chain[..e - 1] + [chain[e - 1]] == chain[..e];
    }
  }

  lemma InsertLast(start: seq<FullBlock>, chain: seq<FullBlock>, h: nat, e: nat)
    requires h < e <= |chain|
    ensures InsertAll(start, chain[h..e]) == Insert(InsertAll(start, chain[h..e - 1]), chain[e - 1])
  {
    assert chain[h..e][..e - h - 1] == chain[h..e - 1];
  }

  /** A whole exchange: a receiver that holds the sender's first `k` blocks asks from height k and ends up
      with the sender's chain up to the block the answer reaches. */
  method Exchange(sender: Ledger, receiver: Ledger)
    requires sender.Valid() && receiver.Valid()
    requires sender != receiver && sender.heights != receiver.heights
    requires receiver.Chain() != [] && receiver.Chain() <= sender.Chain()
    modifies sender`headerCache, sender`blockCache, receiver, receiver.heights
    ensures sender.Valid() && receiver.Valid() && sender.Chain() == old(sender.Chain())
    ensures receiver.Chain() == sender.Chain()[..Min(|sender.Chain()|, |old(receiver.Chain())| + 102)]
  {
    hide Ledger.Valid;
    hide Ledger.Chain;
    hide Slice;
    hide Flatten;
    hide BatchesFit;
    ghost var k := |receiver.Chain()|;
    SenderIsContiguous(sender);
    var last := receiver.LastHeight();
    var posts := AnswerSync(sender, last + 1);
    ReplayOfSlice(sender.Chain(), receiver.Chain(), k);
    Receive(receiver, posts);
  }

  lemma ReplayOfSlice(chain: seq<FullBlock>, prefix: seq<FullBlock>, k: nat)
    requires Contiguous(chain) && prefix <= chain && k == |prefix|
    ensures var e := Min(|chain|, k + 102); InsertAll(prefix, Slice(chain, k, e)) == chain[..e]
  {
    assert prefix == chain[..k];
    ReplayRebuilds(chain, k, k, Min(|chain|, k + 102));
  }

  lemma SenderIsContiguous(ledger: Ledger)
    requires ledger.Valid()
    ensures Contiguous(ledger.Chain())
  {
    ChainIsContiguous(ledger.hashing, ledger.Stored());
  }
}
