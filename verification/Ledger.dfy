/** The ledger: an append-only chain spread over four stores, with two caches in front. */
module Ledger {
  import opened Types
  import opened ListIndex

  /** A header; `body` stands for the fields that only the hash looks at. */
  datatype Header = Header(height: nat, body: seq<Byte>, votes: Option<seq<Byte>>)

  datatype Transaction = Transaction(bytes: seq<Byte>)

  datatype FullBlock = FullBlock(header: Header, transactions: seq<Transaction>)

  /** The hash functions. The block hash leaves out the votes. */
  datatype Hashing = Hashing(header: Header -> Hash, tx: Transaction -> Hash) {
    ghost predicate CollisionFree() {
      && (forall a, b :: header(a) == header(b) <==> a.(votes := None) == b.(votes := None))
      && (forall a, b :: tx(a) == tx(b) ==> a == b)
    }

    function Block(block: FullBlock): Hash {
      header(block.header)
    }

    function Txs(txs: seq<Transaction>): seq<Hash> {
      seq<Hash>(|txs|, i requires 0 <= i < |txs| => tx(txs[i]))
    }
  }

  function Pad(bytes: seq<Byte>): Hash {
    seq<Byte>(32, _ => 0) + bytes
  }

  function Ones(n: nat): seq<Byte> {
    seq<Byte>(n, _ => 1)
  }

  /** Collision-free hashing is possible at unbounded hash length. */
  lemma CollisionFreeExists() returns (hashing: Hashing)
    ensures hashing.CollisionFree()
  {
    hashing := Hashing((h: Header) => Pad(Ones(h.height) + [0] + h.body), (t: Transaction) => Pad(t.bytes));
    forall a: Header, b: Header | hashing.header(a) == hashing.header(b) ensures a.(votes := None) == b.(votes := None) {
      var x, y := Ones(a.height) + [0] + a.body, Ones(b.height) + [0] + b.body;
      assert x == Pad(x)[32..] == Pad(y)[32..] == y;
      assert x[a.height] == 0 && y[b.height] == 0;
      assert a.height == b.height;
      assert a.body == x[a.height + 1..] == y[b.height + 1..] == b.body;
    }
    forall a: Transaction, b: Transaction | hashing.tx(a) == hashing.tx(b) ensures a == b {
      assert a.bytes == Pad(a.bytes)[32..] == Pad(b.bytes)[32..] == b.bytes;
    }
  }

  datatype Meta = Meta(height: nat, hash: Hash, block: FullBlock)

  /** The answers of `insert_block`. */
  datatype Insertion = Inserted | Exists | NotFoundAncestor(syncFrom: nat)

  // ----- the chain as a sequence

  /** Only the block right above the chain is taken. */
  function Insert(chain: seq<FullBlock>, block: FullBlock): seq<FullBlock> {
    if block.header.height == |chain| then chain + [block] else chain
  }

  function InsertAll(chain: seq<FullBlock>, blocks: seq<FullBlock>): seq<FullBlock> {
    if blocks == [] then chain else Insert(InsertAll(chain, blocks[..|blocks| - 1]), blocks[|blocks| - 1])
  }

  /** Block i has height i. */
  ghost predicate Contiguous(chain: seq<FullBlock>) {
    forall i :: 0 <= i < |chain| ==> chain[i].header.height == i
  }

  /** After any insertions the chain is contiguous and what was there has not changed. */
  lemma {:induction false} InsertionsOnlyAppend(chain: seq<FullBlock>, blocks: seq<FullBlock>)
    requires Contiguous(chain)
    ensures Contiguous(InsertAll(chain, blocks)) && chain <= InsertAll(chain, blocks)
  {
    if blocks != [] {
      InsertionsOnlyAppend(chain, blocks[..|blocks| - 1]);
    }
  }

  lemma {:induction false} InsertionsGrow(chain: seq<FullBlock>, blocks: seq<FullBlock>)
    ensures |InsertAll(chain, blocks)| >= |chain|
  {
    if blocks != [] {
      InsertionsGrow(chain, blocks[..|blocks| - 1]);
    }
  }

  // ----- the stores

  ghost function Lookup(list: seq<Hash>, txs: map<Hash, Transaction>): seq<Transaction>
    requires forall t :: t in list ==> t in txs
  {
    seq(|list|, i requires 0 <= i < |list| => txs[list[i]])
  }

  /** What the four stores hold: block hashes by height, headers by block hash, transaction hashes by
      block hash, transactions by hash. */
  datatype Stores = Stores(
    hashes: seq<Hash>,
    headers: map<Hash, Header>,
    txHashes: map<Hash, seq<Hash>>,
    txs: map<Hash, Transaction>
  ) {

    ghost predicate TxsFit(hashing: Hashing) {
      && (forall t :: t in txs ==> hashing.tx(txs[t]) == t)
      && (forall h, t :: h in txHashes && t in txHashes[h] ==> t in txs)
    }

    /** Entry i of the height list names a stored header of height i, under its own hash. */
    ghost predicate HeadersFit(hashing: Hashing) {
      && (forall i :: 0 <= i < |hashes| ==>
            hashes[i] in headers && headers[hashes[i]].height == i && hashing.header(headers[hashes[i]]) == hashes[i])
      && (forall h :: h in headers ==> h in hashes)
      && headers.Keys == txHashes.Keys
    }

    ghost predicate Valid(hashing: Hashing) {
      hashing.CollisionFree() && TxsFit(hashing) && HeadersFit(hashing)
    }

    /** A block read back from the stores. */
    ghost function BlockAt(hashing: Hashing, h: Hash): Option<FullBlock>
      requires Valid(hashing)
    {
      if h in headers then Some(FullBlock(headers[h], Lookup(txHashes[h], txs))) else None
    }

    /** The chain the stores hold. */
    ghost function Chain(hashing: Hashing): seq<FullBlock>
      requires Valid(hashing)
    {
      seq(|hashes|, i requires 0 <= i < |hashes| => BlockAt(hashing, hashes[i]).value)
    }
  }

  /** The stores after a block has been written. */
  function Write(hashing: Hashing, st: Stores, block: FullBlock): Stores {
    var h := hashing.Block(block);
    Stores(st.hashes + [h], st.headers[h := block.header], st.txHashes[h := hashing.Txs(block.transactions)],
           PutTxs(hashing, st.txs, block.transactions))
  }

  function PutTxs(hashing: Hashing, txs: map<Hash, Transaction>, list: seq<Transaction>): map<Hash, Transaction> {
    if list == [] then txs
    else
      var tx := list[|list| - 1];
      PutTxs(hashing, txs, list[..|list| - 1])[hashing.tx(tx) := tx]
  }

  /** Writing transactions adds them under their hashes and changes no stored one. */
  lemma {:induction false} PutTxsOnlyAdds(hashing: Hashing, txs: map<Hash, Transaction>, list: seq<Transaction>)
    requires hashing.CollisionFree() && forall t :: t in txs ==> hashing.tx(txs[t]) == t
    ensures var r := PutTxs(hashing, txs, list);
            && (forall t :: t in r ==> hashing.tx(r[t]) == t)
            && (forall t :: t in txs ==> t in r && r[t] == txs[t])
            && (forall i :: 0 <= i < |list| ==> hashing.tx(list[i]) in r && r[hashing.tx(list[i])] == list[i])
  {
    if list != [] {
      PutTxsOnlyAdds(hashing, txs, list[..|list| - 1]);
    }
  }

  /** The hash of a block above the chain is not in use: it fixes the height. */
  lemma NewHashIsFree(hashing: Hashing, st: Stores, block: FullBlock)
    requires st.Valid(hashing) && block.header.height == |st.hashes|
    ensures hashing.Block(block) !in st.headers
  {
    forall i | 0 <= i < |st.hashes| ensures st.hashes[i] != hashing.Block(block) {
      var other := st.headers[st.hashes[i]];
      assert other.(votes := None).height != block.header.(votes := None).height;
    }
  }

  /** Writing the block above the chain leaves every stored block readable as it was. */
  lemma WriteKeepsBlocks(hashing: Hashing, st: Stores, block: FullBlock)
    requires st.Valid(hashing) && block.header.height == |st.hashes|
    ensures var after := Write(hashing, st, block);
            && after.Valid(hashing) && after.BlockAt(hashing, hashing.Block(block)) == Some(block)
            && (forall h :: h in st.headers ==> h in after.headers && after.headers[h] == st.headers[h]
                                                && after.BlockAt(hashing, h) == st.BlockAt(hashing, h))
  {
    hide Hashing.CollisionFree;
    var after := Write(hashing, st, block);
    var h := hashing.Block(block);
    WriteKeepsValid(hashing, st, block);
    NewHashIsFree(hashing, st, block);
    PutTxsOnlyAdds(hashing, st.txs, block.transactions);
    assert Lookup(hashing.Txs(block.transactions), after.txs) == block.transactions;
    forall k | k in st.headers ensures k in after.headers && after.headers[k] == st.headers[k]
                                       && after.BlockAt(hashing, k) == st.BlockAt(hashing, k) {
      assert Lookup(st.txHashes[k], after.txs) == Lookup(st.txHashes[k], st.txs);
    }
  }

  lemma ChainExtends(hashing: Hashing, st: Stores, after: Stores, block: FullBlock)
    requires st.Valid(hashing) && after.Valid(hashing) && after.hashes == st.hashes + [hashing.Block(block)]
    requires after.BlockAt(hashing, hashing.Block(block)) == Some(block)
    requires forall h :: h in st.headers ==> h in after.headers && after.BlockAt(hashing, h) == st.BlockAt(hashing, h)
    ensures after.Chain(hashing) == st.Chain(hashing) + [block]
  {
    hide *;
    var chain := st.Chain(hashing) + [block];
    ChainAt(hashing, st, 0);
    ChainAt(hashing, after, 0);
    forall i | 0 <= i < |chain| ensures after.Chain(hashing)[i] == chain[i] {
      ChainAt(hashing, st, i);
      ChainAt(hashing, after, i);
    }
  }

  /** Writing the block above the chain keeps the stores consistent and appends it to the chain. */
  lemma WriteAppends(hashing: Hashing, st: Stores, block: FullBlock)
    requires st.Valid(hashing) && block.header.height == |st.hashes|
    ensures Write(hashing, st, block).Valid(hashing)
    ensures Write(hashing, st, block).Chain(hashing) == st.Chain(hashing) + [block]
  {
    var after := Write(hashing, st, block);
    assert after.hashes == st.hashes + [hashing.Block(block)];
    hide *;
    WriteKeepsBlocks(hashing, st, block);
    ChainExtends(hashing, st, after, block);
  }

  lemma WriteKeepsValid(hashing: Hashing, st: Stores, block: FullBlock)
    requires st.Valid(hashing) && block.header.height == |st.hashes|
    ensures Write(hashing, st, block).Valid(hashing)
  {
    hide Hashing.CollisionFree;
    var after := Write(hashing, st, block);
    var h := hashing.Block(block);
    NewHashIsFree(hashing, st, block);
    PutTxsOnlyAdds(hashing, st.txs, block.transactions);
    assert after.TxsFit(hashing) by {
      forall k, t | k in after.txHashes && t in after.txHashes[k] ensures t in after.txs {
        if k == h {
          var i :| 0 <= i < |block.transactions| && hashing.Txs(block.transactions)[i] == t;
          assert hashing.tx(block.transactions[i]) in after.txs;
        }
      }
    }
    assert after.HeadersFit(hashing) by {
      forall i | 0 <= i < |after.hashes|
        ensures after.hashes[i] in after.headers && after.headers[after.hashes[i]].height == i
                && hashing.header(after.headers[after.hashes[i]]) == after.hashes[i]
      {
        if i < |st.hashes| {
          assert after.hashes[i] == st.hashes[i];
        }
      }
      forall k | k in after.headers ensures k in after.hashes {
        if k != h {
          assert k in st.hashes;
        } else {
          assert after.hashes[|st.hashes|] == h;
        }
      }
    }
  }

  /** The height list has one entry per block of the chain, and entry i is the hash of a block of height i. */
  lemma ChainIsContiguous(hashing: Hashing, st: Stores)
    requires st.Valid(hashing)
    ensures Contiguous(st.Chain(hashing)) && |st.Chain(hashing)| == |st.hashes|
    ensures forall i :: 0 <= i < |st.hashes| ==> hashing.Block(st.Chain(hashing)[i]) == st.hashes[i]
  {
  }

  lemma ChainAt(hashing: Hashing, st: Stores, i: nat)
    requires st.Valid(hashing)
    ensures |st.Chain(hashing)| == |st.hashes|
    ensures i < |st.hashes| ==>
              && st.hashes[i] in st.headers && st.BlockAt(hashing, st.hashes[i]) == Some(st.Chain(hashing)[i])
              && st.Chain(hashing)[i].header == st.headers[st.hashes[i]] && st.Chain(hashing)[i].header.height == i
  {
  }

  /** A cache may hold anything, as long as it is what the stores hold. */
  ghost predicate CachesFit(hashing: Hashing, st: Stores, headerCache: map<Hash, Header>, blockCache: map<Hash, FullBlock>)
    requires st.Valid(hashing)
  {
    && (forall h :: h in headerCache ==> h in st.headers && headerCache[h] == st.headers[h])
    && (forall h :: h in blockCache ==> st.BlockAt(hashing, h) == Some(blockCache[h]))
  }

  lemma WriteKeepsCaches(hashing: Hashing, st: Stores, block: FullBlock,
                         headerCache: map<Hash, Header>, blockCache: map<Hash, FullBlock>)
    requires st.Valid(hashing) && block.header.height == |st.hashes|
    requires CachesFit(hashing, st, headerCache, blockCache)
    ensures var h := hashing.Block(block);
            && Write(hashing, st, block).Valid(hashing)
            && CachesFit(hashing, Write(hashing, st, block), headerCache[h := block.header], blockCache[h := block])
  {
    hide Write;
    hide Stores.Valid;
    WriteKeepsBlocks(hashing, st, block);
  }

  lemma BlockHasHeader(hashing: Hashing, st: Stores, h: Hash)
    requires st.Valid(hashing)
    ensures st.BlockAt(hashing, h).Some? <==> h in st.headers
    ensures h in st.headers ==> st.BlockAt(hashing, h).value.header == st.headers[h]
  {
  }

  lemma CacheHits(hashing: Hashing, st: Stores, headerCache: map<Hash, Header>, blockCache: map<Hash, FullBlock>, h: Hash)
    requires st.Valid(hashing) && CachesFit(hashing, st, headerCache, blockCache)
    ensures h in headerCache ==> h in st.headers && headerCache[h] == st.headers[h]
    ensures h in blockCache ==> st.BlockAt(hashing, h) == Some(blockCache[h])
    ensures h in st.headers ==> CachesFit(hashing, st, headerCache[h := st.headers[h]], blockCache)
    ensures h in st.headers ==>
              CachesFit(hashing, st, headerCache[h := st.headers[h]], blockCache[h := st.BlockAt(hashing, h).value])
  {
    hide Hashing.CollisionFree;
    hide Hashing.Txs;
  }

  // ----- the ledger object

  class Ledger {
    const hashing: Hashing
    const heights: Store<Hash>
    var headers: map<Hash, Header>
    var txHashes: map<Hash, seq<Hash>>
    var txs: map<Hash, Transaction>
    var headerCache: map<Hash, Header>
    var blockCache: map<Hash, FullBlock>
    var meta: Meta

    ghost function Stored(): Stores
      requires heights.Valid()
      reads this, heights
    {
      Stores(heights.Contents(), headers, txHashes, txs)
    }

    ghost predicate StoresValid()
      reads this, heights
    {
      heights.Valid() && Stored().Valid(hashing)
    }

    /** Stores and caches agree; enough to read blocks. */
    ghost predicate Readable()
      reads this, heights
    {
      StoresValid() && CachesFit(hashing, Stored(), headerCache, blockCache)
    }

    /** Once there is a block, the last-block record describes the last block of the chain. */
    ghost predicate Valid()
      reads this, heights
    {
      && Readable()
      && (heights.Contents() != [] ==>
            var n := |heights.Contents()| - 1;
            meta == Meta(n, heights.Contents()[n], Stored().Chain(hashing)[n]))
    }

    ghost function Chain(): seq<FullBlock>
      requires Valid()
      reads this, heights
    {
      Stored().Chain(hashing)
    }

    method LastHeight() returns (height: nat)
      requires Valid() && Chain() != []
      ensures height == |Chain()| - 1
    {
      return meta.height;
    }

    /** An empty ledger; `zero` is the placeholder of the last-block record. */
    constructor (hashing: Hashing, zero: FullBlock)
      requires hashing.CollisionFree() && zero.header.height == 0
      ensures Valid() && Chain() == [] && fresh(heights) && this.hashing == hashing && meta.height == 0
    {
      this.hashing := hashing;
      heights := new Store<Hash>();
      headers, txHashes, txs := map[], map[], map[];
      headerCache, blockCache := map[], map[];
      meta := Meta(0, hashing.header(zero.header), zero);
    }

    /** Eviction, by capacity or by time: any entries may go at any moment. */
    method Evict(staleHeaders: set<Hash>, staleBlocks: set<Hash>)
      requires Valid()
      modifies this`headerCache, this`blockCache
      ensures Valid() && Stored() == old(Stored()) && meta == old(meta)
    {
      hide Stores.Valid;
      hide Stores.BlockAt;
      hide Stores.Chain;
      headerCache := headerCache - staleHeaders;
      blockCache := blockCache - staleBlocks;
    }

    method WriteTransactions(list: seq<Transaction>) returns (hashes: seq<Hash>)
      modifies this`txs
      ensures txs == PutTxs(hashing, old(txs), list) && hashes == hashing.Txs(list)
    {
      hashes := [];
      for i := 0 to |list|
        invariant txs == PutTxs(hashing, old(txs), list[..i])
        invariant hashes == hashing.Txs(list[..i])
      {
        var h := hashing.tx(list[i]);
        txs := txs[h := list[i]];
        hashes := hashes + [h];
        assert list[..i + 1][..i] == list[..i];
      }
      assert list[..|list|] == list;
    }

    /** Write a block to the four stores. False where one of the two assertions on the height list fails: that it then
        ends in the new hash and has one entry more than the block's height. */
    method Persist(block: FullBlock, hash: Hash) returns (ok: bool)
      requires heights.Valid() && hash == hashing.Block(block)
      modifies this`headers, this`txHashes, this`txs, heights
      ensures heights.Valid() && Stored() == Write(hashing, old(Stored()), block)
      ensures ok <==> block.header.height == |old(heights.Contents())|
    {
      hide Store.Contents;
      hide Store.Valid;
      hide PutTxs;
      headers := headers[hash := block.header];
      var list := WriteTransactions(block.transactions);
      txHashes := txHashes[hash := list];
      var index := new ListIndex<Hash>(heights);
      index.Push(hash);
      var last := index.Last();
      var n := index.Len();
      return last == Some(hash) && n == block.header.height + 1;
    }

    /** Append a block, unless its height is already covered. False where an assertion fails, with the block already in
        the stores: on a block above a gap, and on a second block of height 0. */
    method AddBlock(block: FullBlock) returns (ok: bool)
      requires Valid()
      modifies this, heights
      ensures var covered := 0 < block.header.height <= old(meta).height;
              && (ok <==> covered || block.header.height == |old(Chain())|)
              && (ok ==> Valid() && Chain() == if covered then old(Chain()) else old(Chain()) + [block])
              && (!ok ==> heights.Valid() && Stored() == Write(hashing, old(Stored()), block))
    {
      hide Store.Contents;
      hide Store.Valid;
      hide CachesFit;
      hide Stores.Valid;
      hide Stores.Chain;
      hide Stores.BlockAt;
      hide PutTxs;
      ChainAt(hashing, Stored(), 0);
      var hash := hashing.Block(block);
      if meta.height >= block.header.height && block.header.height != 0 {
        return true;
      }
      if block.header.height == |heights.Contents()| {
        WriteKeepsCaches(hashing, Stored(), block, headerCache, blockCache);
        WriteAppends(hashing, Stored(), block);
      }
      ok := Persist(block, hash);
      if !ok {
        return;
      }
      headerCache := headerCache[hash := block.header];
      blockCache := blockCache[hash := block];
      meta := Meta(block.header.height, hash, block);
    }

    /** The header under a hash, through the header cache. */
    method GetBlockHeader(h: Hash) returns (header: Option<Header>)
      requires Valid()
      ensures header == if h in headers then Some(headers[h]) else None
    {
      if h in headerCache {
        return Some(headerCache[h]);
      }
      if h in headers {
        return Some(headers[h]);
      }
      return None;
    }

    /** Read a block back from the stores. */
    method ReadBlock(h: Hash) returns (block: Option<FullBlock>)
      requires StoresValid()
      ensures block == Stored().BlockAt(hashing, h)
    {
      if h !in headers {
        return None;
      }
      var list := txHashes[h];
      var transactions: seq<Transaction> := [];
      for i := 0 to |list|
        invariant |transactions| == i && forall k :: 0 <= k < i ==> transactions[k] == txs[list[k]]
      {
        transactions := transactions + [txs[list[i]]];
      }
      assert transactions == Lookup(list, txs);
      return Some(FullBlock(headers[h], transactions));
    }

    /** The block under a hash: the caches never show, whatever they hold or have lost. */
    method GetBlock(h: Hash) returns (block: Option<FullBlock>)
      requires Readable()
      modifies this`headerCache, this`blockCache
      ensures Readable() && (old(Valid()) ==> Valid()) && Stored() == old(Stored())
      ensures block == Stored().BlockAt(hashing, h)
    {
      hide Store.Contents;
      hide Store.Valid;
      hide Stores.Valid;
      hide Stores.Chain;
      hide Stores.BlockAt;
      hide CachesFit;
      CacheHits(hashing, Stored(), headerCache, blockCache, h);
      BlockHasHeader(hashing, Stored(), h);
      if h in blockCache {
        return Some(blockCache[h]);
      }
      block := ReadBlock(h);
      if block.Some? {
        blockCache := blockCache[h := block.value];
        headerCache := headerCache[h := block.value.header];
      }
    }

    method HashByHeight(height: nat) returns (h: Option<Hash>)
      requires StoresValid()
      ensures h == if height < |heights.Contents()| then Some(heights.Contents()[height]) else None
    {
      var index := new ListIndex<Hash>(heights);
      h := index.Get(height);
    }

    /** The block at a height; hits of the block cache are not distinguishable from misses. */
    method GetBlockByHeight(height: nat) returns (block: Option<FullBlock>)
      requires Valid()
      ensures block == if height < |Chain()| then Some(Chain()[height]) else None
    {
      var h := HashByHeight(height);
      if h.None? {
        return None;
      }
      if h.value in blockCache {
        return Some(blockCache[h.value]);
      }
      block := ReadBlock(h.value);
    }

    /** The chain's own lookup: the hash at the height, then the block under it, which fills the caches. */
    method ChainBlockByHeight(height: nat) returns (block: Option<FullBlock>)
      requires Valid()
      modifies this`headerCache, this`blockCache
      ensures Valid() && Chain() == old(Chain())
      ensures block == if height < |Chain()| then Some(Chain()[height]) else None
    {
      hide Stores.Valid;
      hide Stores.Chain;
      hide Stores.BlockAt;
      hide CachesFit;
      ChainAt(hashing, Stored(), height);
      var h := HashByHeight(height);
      if h.None? {
        return None;
      }
      block := GetBlock(h.value);
    }

    method GetHeaderByHeight(height: nat) returns (header: Option<Header>)
      requires Valid()
      modifies this`headerCache
      ensures Valid() && Stored() == old(Stored())
      ensures header == if height < |Chain()| then Some(Chain()[height].header) else None
    {
      hide Store.Contents;
      hide Store.Valid;
      hide CachesFit;
      hide Stores.Valid;
      hide Stores.Chain;
      hide Stores.BlockAt;
      ChainAt(hashing, Stored(), height);
      var h := HashByHeight(height);
      if h.None? {
        return None;
      }
      CacheHits(hashing, Stored(), headerCache, blockCache, h.value);
      if h.value in headerCache {
        return Some(headerCache[h.value]);
      }
      headerCache := headerCache[h.value := headers[h.value]];
      return Some(headers[h.value]);
    }

    /** After a restart on old stores the last-block record is rebuilt from them. */
    method ReloadMeta()
      requires Readable() && heights.Contents() != []
      modifies this
      ensures Valid() && Stored() == old(Stored())
    {
      hide Store.Contents;
      hide Store.Valid;
      hide CachesFit;
      hide Stores.Valid;
      hide Stores.Chain;
      hide Stores.BlockAt;
      ChainAt(hashing, Stored(), if |heights.Contents()| == 0 then 0 else |heights.Contents()| - 1);
      var index := new ListIndex<Hash>(heights);
      var last := index.Last();
      var block := GetBlock(last.value);
      meta := Meta(block.value.header.height, last.value, block.value);
    }

    /** `insert_block` on any block whatever: duplicates and gaps are refused, and the assertions of
        `AddBlock` always hold. */
    method InsertBlock(block: FullBlock) returns (r: Insertion)
      requires Valid() && Chain() != []
      modifies this, heights
      ensures Valid() && Chain() == Insert(old(Chain()), block)
      ensures r == if block.header.height < |old(Chain())| then Exists
                   else if block.header.height > |old(Chain())| then NotFoundAncestor(|old(Chain())|)
                   else Inserted
    {
      hide Store.Contents;
      hide Store.Valid;
      var present := GetBlockByHeight(block.header.height);
      if present.Some? {
        return Exists;
      }
      if meta.height + 1 < block.header.height {
        return NotFoundAncestor(meta.height + 1);
      }
      var ok := AddBlock(block);
      assert ok;
      return Inserted;
    }

    /** A batch of blocks from the network: each is inserted, the answers are ignored. */
    method InsertBatch(blocks: seq<FullBlock>)
      requires Valid() && Chain() != []
      modifies this, heights
      ensures Valid() && Chain() == InsertAll(old(Chain()), blocks)
    {
      hide Ledger.StoresValid;
      hide CachesFit;
      hide Stores.Chain;
      for i := 0 to |blocks|
        invariant Valid() && Chain() != []
        invariant Chain() == InsertAll(old(Chain()), blocks[..i])
      {
        var _ := InsertBlock(blocks[i]);
        assert blocks[..i + 1][..i] == blocks[..i];
      }
      assert blocks[..|blocks|] == blocks;
    }
  }
}
