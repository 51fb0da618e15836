/** Blocks, votes and proposals, the byte strings that are hashed and signed, and what
a block hash commits to. */
module Blocks {
  import opened Base
  import opened Events
  import opened Merkle
  import opened Ledgers
  import opened Apply

  datatype BlockHeader = BlockHeader(
    height: u64,
    round: u64,
    prevBlockHash: Hash,
    txRoot: Hash,
    proposerId: NodeId,
    timestampMs: u64)

  datatype Block = Block(header: BlockHeader, txs: seq<seq<byte>>)

  datatype VoteType = Prevote | Precommit

  datatype Vote = Vote(height: u64, round: u64, kind: VoteType, blockHash: Hash, validator: NodeId)

  datatype SignedVote = SignedVote(vote: Vote, signature: Signature)

  datatype Proposal = Proposal(height: u64, round: u64, block: Block, proposerId: NodeId, signature: Signature)

  function HeaderBytes(h: BlockHeader): (s: seq<byte>)
    ensures |s| == 120
  {
    U64Bytes(h.height) + U64Bytes(h.round) + h.prevBlockHash + h.txRoot + h.proposerId + U64Bytes(h.timestampMs)
  }

  function BlockHash(h: BlockHeader): Hash {
    Sha(HeaderBytes(h))
  }

  function VoteBytes(v: Vote): (s: seq<byte>)
    ensures |s| == 81
  {
    U64Bytes(v.height) + U64Bytes(v.round) + [if v.kind == Prevote then 1 else 2] + v.blockHash + v.validator
  }

  /** The signature of a proposal covers the header's hash, not the transactions. */
  function ProposalBytes(p: Proposal): (s: seq<byte>)
    ensures |s| == 80
  {
    U64Bytes(p.height) + U64Bytes(p.round) + BlockHash(p.block.header) + p.proposerId
  }

  lemma HeaderBytesInjective(a: BlockHeader, b: BlockHeader)
    requires HeaderBytes(a) == HeaderBytes(b)
    ensures a == b
  {
    var s, t := HeaderBytes(a), HeaderBytes(b);
    assert s[..8] == U64Bytes(a.height) && t[..8] == U64Bytes(b.height);
    assert s[8..16] == U64Bytes(a.round) && t[8..16] == U64Bytes(b.round);
    assert s[16..48] == a.prevBlockHash && t[16..48] == b.prevBlockHash;
    assert s[48..80] == a.txRoot && t[48..80] == b.txRoot;
    assert s[80..112] == a.proposerId && t[80..112] == b.proposerId;
    assert s[112..] == U64Bytes(a.timestampMs) && t[112..] == U64Bytes(b.timestampMs);
    U64BytesInjective(a.height, b.height);
    U64BytesInjective(a.round, b.round);
    U64BytesInjective(a.timestampMs, b.timestampMs);
  }

  /** A signature on a vote's bytes is a signature on that vote and no other. */
  lemma VoteBytesInjective(a: Vote, b: Vote)
    requires VoteBytes(a) == VoteBytes(b)
    ensures a == b
  {
    var s, t := VoteBytes(a), VoteBytes(b);
    assert s[..8] == U64Bytes(a.height) && t[..8] == U64Bytes(b.height);
    assert s[8..16] == U64Bytes(a.round) && t[8..16] == U64Bytes(b.round);
    assert s[16] == (if a.kind == Prevote then 1 else 2) && t[16] == (if b.kind == Prevote then 1 else 2);
    assert s[17..49] == a.blockHash && t[17..49] == b.blockHash;
    assert s[49..] == a.validator && t[49..] == b.validator;
    U64BytesInjective(a.height, b.height);
    U64BytesInjective(a.round, b.round);
  }

  /** A signature on a proposal's bytes fixes height, round, proposer and header hash. */
  lemma ProposalBytesBind(a: Proposal, b: Proposal)
    requires ProposalBytes(a) == ProposalBytes(b)
    ensures a.height == b.height && a.round == b.round && a.proposerId == b.proposerId
    ensures BlockHash(a.block.header) == BlockHash(b.block.header)
  {
    var s, t := ProposalBytes(a), ProposalBytes(b);
    assert s[..8] == U64Bytes(a.height) && t[..8] == U64Bytes(b.height);
    assert s[8..16] == U64Bytes(a.round) && t[8..16] == U64Bytes(b.round);
    assert s[16..48] == BlockHash(a.block.header) && t[16..48] == BlockHash(b.block.header);
    assert s[48..] == a.proposerId && t[48..] == b.proposerId;
    U64BytesInjective(a.height, b.height);
    U64BytesInjective(a.round, b.round);
  }

  /** Where each field stands, integers in little-endian order. */
  lemma HeaderLayout(h: BlockHeader)
    ensures var s := HeaderBytes(h);
            && FromLe(s[..8]) == h.height && FromLe(s[8..16]) == h.round && s[16..48] == h.prevBlockHash
            && s[48..80] == h.txRoot && s[80..112] == h.proposerId && FromLe(s[112..]) == h.timestampMs
  {
    var s := HeaderBytes(h);
    assert s[..8] == U64Bytes(h.height) && s[8..16] == U64Bytes(h.round) && s[112..] == U64Bytes(h.timestampMs);
    U64BytesBack(h.height);
    U64BytesBack(h.round);
    U64BytesBack(h.timestampMs);
  }

  lemma VoteLayout(v: Vote)
    ensures var s := VoteBytes(v);
            && FromLe(s[..8]) == v.height && FromLe(s[8..16]) == v.round && s[16] == (if v.kind.Prevote? then 1 else 2)
            && s[17..49] == v.blockHash && s[49..] == v.validator
  {
    var s := VoteBytes(v);
    assert s[..8] == U64Bytes(v.height) && s[8..16] == U64Bytes(v.round);
    U64BytesBack(v.height);
    U64BytesBack(v.round);
  }

  lemma ProposalLayout(p: Proposal)
    ensures var s := ProposalBytes(p);
            && FromLe(s[..8]) == p.height && FromLe(s[8..16]) == p.round
            && s[16..48] == BlockHash(p.block.header) && s[48..] == p.proposerId
  {
    var s := ProposalBytes(p);
    assert s[..8] == U64Bytes(p.height) && s[8..16] == U64Bytes(p.round);
    U64BytesBack(p.height);
    U64BytesBack(p.round);
  }

  // ---- What a block hash commits to ----

  function TxHashes(txs: seq<seq<byte>>): (hs: seq<Hash>)
    ensures |hs| == |txs|
  {
    seq(|txs|, i requires 0 <= i < |txs| => TxHash(txs[i]))
  }

  function TxRoot(txs: seq<seq<byte>>): Hash {
    RootOrZero(TxHashes(txs))
  }

  ghost function TxInputs(txs: seq<seq<byte>>): set<seq<byte>> {
    (set tx | tx in txs) + Inputs(TxHashes(txs))
  }

  /** Every string hashed on the way from a block to its hash. */
  ghost function BlockInputs(b: Block): set<seq<byte>> {
    {HeaderBytes(b.header)} + TxInputs(b.txs)
  }

  ghost predicate NeverZero(inputs: set<seq<byte>>) {
    forall x :: x in inputs ==> Sha(x) != ZERO_HASH
  }

  lemma HeaderBinds(a: BlockHeader, b: BlockHeader, inputs: set<seq<byte>>)
    requires HeaderBytes(a) in inputs && HeaderBytes(b) in inputs && CollisionFree(inputs)
    requires BlockHash(a) == BlockHash(b)
    ensures a == b
  {
    HeaderBytesInjective(a, b);
  }

  /** A list the ledger would apply: 169-byte transactions, none twice. */
  ghost predicate Applied(txs: seq<seq<byte>>) {
    AllDecode(txs) && Distinct(TxHashes(txs))
  }

  lemma ApplyImpliesApplied(b: Books, txs: seq<seq<byte>>, skew: u64)
    requires ApplyTxs(b, txs, skew).Ok?
    ensures Applied(txs)
  {
    ApplyExact(b, txs, skew);
    forall i, j | 0 <= i < j < |txs| ensures TxHashes(txs)[i] != TxHashes(txs)[j] {
      assert Applicable(Known(b), b.ctx, txs, j, skew);
    }
  }

  lemma TxApart(txs: seq<seq<byte>>, level: seq<Hash>, inputs: set<seq<byte>>)
    requires AllDecode(txs) && TxInputs(txs) <= inputs && Inputs(level) <= inputs && CollisionFree(inputs)
    ensures Apart(TxHashes(txs), level)
  {
    InputsLength(level);
    forall x | x in TxHashes(txs) ensures x !in Upper(level) {
      var i :| 0 <= i < |txs| && TxHashes(txs)[i] == x;
      assert txs[i] in TxInputs(txs);
      if x in Upper(level) {
        var left, right := UpperIsPair(level, x);
      }
    }
  }

  lemma {:induction false} RootIsDigest(level: seq<Hash>, inputs: set<seq<byte>>)
    requires level != [] && Inputs(level) <= inputs && NeverZero(inputs)
    requires forall h :: h in level ==> h != ZERO_HASH
    ensures Root(level) != ZERO_HASH
    decreases |level|
  {
    assert level[0] in level;
    if |level| > 1 {
      forall k | 0 <= k < |Fold(level)| ensures Fold(level)[k] != ZERO_HASH {
        assert PairInput(level, k) in Inputs(level);
      }
      RootIsDigest(Fold(level), inputs);
    }
  }

  lemma TxRootZero(txs: seq<seq<byte>>, inputs: set<seq<byte>>)
    requires TxInputs(txs) <= inputs && NeverZero(inputs)
    ensures TxRoot(txs) == ZERO_HASH <==> txs == []
  {
    if txs != [] {
      forall i | 0 <= i < |txs| ensures TxHashes(txs)[i] != ZERO_HASH {
        assert txs[i] in TxInputs(txs);
      }
      RootIsDigest(TxHashes(txs), inputs);
    }
  }

  /** Among lists the ledger would apply, the transaction root fixes the transactions. */
  lemma TxRootBinds(a: seq<seq<byte>>, b: seq<seq<byte>>, inputs: set<seq<byte>>)
    requires Applied(a) && Applied(b) && TxRoot(a) == TxRoot(b)
    requires TxInputs(a) <= inputs && TxInputs(b) <= inputs && CollisionFree(inputs) && NeverZero(inputs)
    ensures a == b
  {
    TxRootZero(a, inputs);
    TxRootZero(b, inputs);
    if a != [] && b != [] {
      TxApart(a, TxHashes(b), inputs);
      TxApart(b, TxHashes(a), inputs);
      RootBindsDistinct(TxHashes(a), TxHashes(b), inputs);
      forall i | 0 <= i < |a| ensures a[i] == b[i] {
        assert TxHashes(a)[i] == TxHashes(b)[i];
        assert a[i] in TxInputs(a) && b[i] in TxInputs(b);
      }
    }
  }

  /** The root alone fixes less: a block and the block with its third transaction repeated share it,
  and only the second is refused by the ledger. */
  lemma TxRootRepeats(x: seq<byte>, y: seq<byte>, z: seq<byte>)
    ensures TxRoot([x, y, z]) == TxRoot([x, y, z, z])
    ensures forall b, skew :: ApplyTxs(b, [x, y, z, z], skew).Err?
  {
    assert TxHashes([x, y, z]) == [TxHash(x), TxHash(y), TxHash(z)];
    assert TxHashes([x, y, z, z]) == [TxHash(x), TxHash(y), TxHash(z), TxHash(z)];
    OddLevelCollides(TxHash(x), TxHash(y), TxHash(z));
    forall b, skew ensures ApplyTxs(b, [x, y, z, z], skew).Err? {
      if ApplyTxs(b, [x, y, z, z], skew).Ok? {
        assert TxHashes([x, y, z, z])[2] == TxHashes([x, y, z, z])[3];
        ApplyImpliesApplied(b, [x, y, z, z], skew);
      }
    }
  }
}
