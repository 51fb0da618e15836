/** The committed chain: a node's books and its snapshot with the transaction index, the commit
of one block, and the state a chain of commits leads to. */
module Chain {
  import opened Base
  import opened Events
  import opened Ledgers
  import opened Apply
  import opened Blocks

  datatype Snapshot = Snapshot(
    height: u64,
    tipHash: Hash,
    byHeight: map<u64, Block>,
    byHash: map<Hash, Block>,
    txIndex: map<Hash, (Hash, u64)>)

  const NO_SNAPSHOT: Snapshot := Snapshot(0, ZERO_HASH, map[], map[], map[])

  /** A node's committed state. */
  datatype Store = Store(books: Books, snap: Snapshot)

  const NO_STORE: Store := Store(NO_BOOKS, NO_SNAPSHOT)

  function IndexTxs(index: map<Hash, (Hash, u64)>, txs: seq<seq<byte>>, at: (Hash, u64)): map<Hash, (Hash, u64)>
    decreases |txs|
  {
    if txs == [] then index else IndexTxs(index[TxHash(txs[0]) := at], txs[1..], at)
  }

  function Record(snap: Snapshot, block: Block): Snapshot {
    var h, bh := block.header.height, BlockHash(block.header);
    Snapshot(h, bh, snap.byHeight[h := block], snap.byHash[bh := block], IndexTxs(snap.txIndex, block.txs, (bh, h)))
  }

  function Commit(st: Store, block: Block, skew: u64): Result<Store, ApplyError> {
    var r := ApplyTxs(st.books, block.txs, skew);
    if r.Ok? then Ok(Store(r.value, Record(st.snap, block))) else Err(r.error)
  }

  function Then(r: Result<Store, ApplyError>, block: Block, skew: u64): Result<Store, ApplyError> {
    if r.Ok? then Commit(r.value, block, skew) else r
  }

  /** The state after committing a chain from nothing. */
  function Replay(chain: seq<Block>, skew: u64): Result<Store, ApplyError>
    decreases |chain|
  {
    if chain == [] then Ok(NO_STORE)
    else Then(Replay(chain[..|chain| - 1], skew), chain[|chain| - 1], skew)
  }

  function TipOf(chain: seq<Block>): Hash {
    if chain == [] then ZERO_HASH else BlockHash(chain[|chain| - 1].header)
  }

  /** Heights run from 1 and each block names its predecessor. */
  ghost predicate Linked(chain: seq<Block>) {
    forall k :: 0 <= k < |chain| ==> LinkedAt(chain, k)
  }

  ghost predicate LinkedAt(chain: seq<Block>, k: nat)
    requires k < |chain|
  {
    && chain[k].header.height == k + 1
    && chain[k].header.prevBlockHash == if k == 0 then ZERO_HASH else BlockHash(chain[k - 1].header)
  }

  lemma ReplayExtend(chain: seq<Block>, block: Block, skew: u64)
    ensures Replay(chain + [block], skew) == Then(Replay(chain, skew), block, skew)
  {
    assert (chain + [block])[..|chain|] == chain;
  }

  lemma LinkedExtend(chain: seq<Block>, block: Block)
    requires Linked(chain) && block.header.height == |chain| + 1 && block.header.prevBlockHash == TipOf(chain)
    ensures Linked(chain + [block])
  {
    forall k | 0 <= k < |chain| + 1 ensures LinkedAt(chain + [block], k) {
      if k < |chain| { assert LinkedAt(chain, k); }
    }
  }

  lemma LinkedPrefix(chain: seq<Block>, n: nat)
    requires Linked(chain) && n <= |chain|
    ensures Linked(chain[..n])
  {
    forall k | 0 <= k < n ensures LinkedAt(chain[..n], k) {
      assert LinkedAt(chain, k);
    }
  }

  // ---- The index agrees with the chain and the ledger ----

  ghost predicate Holds(block: Block, th: Hash) {
    exists i :: 0 <= i < |block.txs| && TxHash(block.txs[i]) == th
  }

  ghost predicate Locates(chain: seq<Block>, th: Hash, at: (Hash, u64)) {
    1 <= at.1 <= |chain| && at.0 == BlockHash(chain[at.1 - 1].header) && Holds(chain[at.1 - 1], th)
  }

  ghost predicate HeightsAgree(chain: seq<Block>, snap: Snapshot) {
    && snap.height == |chain| && snap.tipHash == TipOf(chain)
    && (forall h: u64 :: h in snap.byHeight <==> 1 <= h <= |chain|)
    && (forall h: u64 :: 1 <= h <= |chain| ==> snap.byHeight[h] == chain[h - 1])
  }

  ghost predicate IndexAgrees(chain: seq<Block>, st: Store) {
    && HeightsAgree(chain, st.snap)
    && WellFormed(st.books.ledger)
    && st.snap.txIndex.Keys == Known(st.books)
    && (forall th :: th in st.snap.txIndex ==> Locates(chain, th, st.snap.txIndex[th]))
  }

  lemma {:induction false} IndexTxsExact(index: map<Hash, (Hash, u64)>, txs: seq<seq<byte>>, at: (Hash, u64), th: Hash)
    ensures var r := IndexTxs(index, txs, at);
            var listed := exists i :: 0 <= i < |txs| && TxHash(txs[i]) == th;
            && (th in r <==> th in index || listed)
            && (th in r ==> r[th] == if listed then at else index[th])
    decreases |txs|
  {
    if txs != [] {
      var rest := txs[1..];
      IndexTxsExact(index[TxHash(txs[0]) := at], rest, at, th);
      if i :| 0 <= i < |txs| && TxHash(txs[i]) == th {
        if i > 0 { assert rest[i - 1] == txs[i]; }
      }
      if i :| 0 <= i < |rest| && TxHash(rest[i]) == th {
        assert txs[i + 1] == rest[i];
      }
    }
  }

  /** Applying a block adds exactly the hashes of its transactions to the ledger. */
  lemma {:induction false} ApplyKnown(b: Books, txs: seq<seq<byte>>, skew: u64, th: Hash)
    requires ApplyTxs(b, txs, skew).Ok?
    ensures th in Known(ApplyTxs(b, txs, skew).value) <==>
            th in Known(b) || exists i :: 0 <= i < |txs| && TxHash(txs[i]) == th
    decreases |txs|
  {
    if txs != [] {
      var rest := txs[1..];
      MaterialDecode(txs[0]);
      ApplyKnown(Enter(b, DecodeEvent(txs[0]).value), rest, skew, th);
      if i :| 0 <= i < |txs| && TxHash(txs[i]) == th {
        if i > 0 { assert rest[i - 1] == txs[i]; }
      }
      if i :| 0 <= i < |rest| && TxHash(rest[i]) == th {
        assert txs[i + 1] == rest[i];
      }
    }
  }

  lemma RecordHeights(chain: seq<Block>, snap: Snapshot, block: Block)
    requires HeightsAgree(chain, snap) && block.header.height == |chain| + 1
    ensures HeightsAgree(chain + [block], Record(snap, block))
  {
    var more := chain + [block];
    assert forall k :: 0 <= k < |chain| ==> more[k] == chain[k];
  }

  lemma CommitKeepsEntry(chain: seq<Block>, st: Store, block: Block, skew: u64, th: Hash)
    requires IndexAgrees(chain, st) && block.header.height == |chain| + 1
    requires Commit(st, block, skew).Ok?
    ensures var st' := Commit(st, block, skew).value;
            && (th in st'.snap.txIndex <==> th in Known(st'.books))
            && (th in st'.snap.txIndex ==> Locates(chain + [block], th, st'.snap.txIndex[th]))
  {
    var more := chain + [block];
    IndexTxsExact(st.snap.txIndex, block.txs, (BlockHash(block.header), block.header.height), th);
    ApplyKnown(st.books, block.txs, skew, th);
    assert more[|chain|] == block;
    if th in st.snap.txIndex {
      assert Locates(chain, th, st.snap.txIndex[th]);
    }
  }

  lemma CommitKeepsIndex(chain: seq<Block>, st: Store, block: Block, skew: u64)
    requires IndexAgrees(chain, st) && block.header.height == |chain| + 1
    requires Commit(st, block, skew).Ok?
    ensures IndexAgrees(chain + [block], Commit(st, block, skew).value)
  {
    var st' := Commit(st, block, skew).value;
    RecordHeights(chain, st.snap, block);
    ApplyKeeps(st.books, block.txs, skew);
    forall th
      ensures th in st'.snap.txIndex <==> th in Known(st'.books)
      ensures th in st'.snap.txIndex ==> Locates(chain + [block], th, st'.snap.txIndex[th])
    {
      CommitKeepsEntry(chain, st, block, skew, th);
    }
  }

  lemma EmptyIndexed()
    ensures IndexAgrees([], NO_STORE)
  {
    EmptyWellFormed();
  }

  /** In every committed state: heights 1..H, the tip of block H, and an index whose keys are
  the ledger's events, each pointing to the block that holds it. */
  lemma {:induction false} ReplayIndexed(chain: seq<Block>, skew: u64)
    requires Linked(chain) && Replay(chain, skew).Ok?
    ensures IndexAgrees(chain, Replay(chain, skew).value)
    decreases |chain|
  {
    if chain == [] {
      EmptyIndexed();
    } else {
      var n := |chain| - 1;
      assert LinkedAt(chain, n);
      LinkedPrefix(chain, n);
      ReplayIndexed(chain[..n], skew);
      ReplayIndexedStep(chain[..n], chain[n], skew);
      assert chain == chain[..n] + [chain[n]];
    }
  }

  lemma ReplayIndexedStep(chain: seq<Block>, block: Block, skew: u64)
    requires Replay(chain, skew).Ok? && IndexAgrees(chain, Replay(chain, skew).value)
    requires block.header.height == |chain| + 1 && Replay(chain + [block], skew).Ok?
    ensures IndexAgrees(chain + [block], Replay(chain + [block], skew).value)
  {
    ReplayExtend(chain, block, skew);
    CommitKeepsIndex(chain, Replay(chain, skew).value, block, skew);
  }

  ghost predicate HeadersApart(chain: seq<Block>) {
    forall i, j :: 0 <= i < j < |chain| ==> BlockHash(chain[i].header) != BlockHash(chain[j].header)
  }

  /** Look-up by hash finds the same blocks as look-up by height. */
  lemma {:induction false} ReplayByHash(chain: seq<Block>, skew: u64, k: nat)
    requires HeadersApart(chain) && Replay(chain, skew).Ok? && k < |chain|
    ensures var m := Replay(chain, skew).value.snap.byHash;
            BlockHash(chain[k].header) in m && m[BlockHash(chain[k].header)] == chain[k]
    decreases |chain|
  {
    var init, last := chain[..|chain| - 1], chain[|chain| - 1];
    var st := Replay(init, skew).value;
    assert Replay(chain, skew).value.snap.byHash == st.snap.byHash[BlockHash(last.header) := last];
    if k < |init| {
      assert init[k] == chain[k];
      assert HeadersApart(init);
      ReplayByHash(init, skew, k);
    }
  }

  lemma {:induction false} ReplayApplied(chain: seq<Block>, skew: u64, k: nat)
    requires Replay(chain, skew).Ok? && k < |chain|
    ensures Applied(chain[k].txs)
    decreases |chain|
  {
    var n := |chain| - 1;
    if k < n {
      assert chain[..n][k] == chain[k];
      ReplayApplied(chain[..n], skew, k);
    } else {
      ApplyImpliesApplied(Replay(chain[..n], skew).value.books, chain[n].txs, skew);
    }
  }
}
