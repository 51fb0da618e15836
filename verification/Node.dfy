/** The BFT node as an object: its methods update the fields in place, each is proved to do
what the corresponding function of `Consensus` says. */
module BftNode {
  import opened Base
  import opened Events
  import opened Merkle
  import opened Ledgers
  import opened Apply
  import opened Parallel
  import opened Blocks
  import opened Chain
  import opened Slashing
  import opened Snapshots
  import opened Validators
  import opened Consensus
  import opened Restart

  class Node {
    const cfg: Config
    const nodeId: NodeId
    const validators: ValidatorSet
    const ledger: LedgerStore
    const slashing: SlashingState
    var vctx: Contexts
    var snapshot: Snapshot
    var savedSlashes: Option<Slashes>
    var disk: Option<Persisted>
    var mempool: seq<seq<byte>>
    var height: u64
    var round: u64
    var phase: Phase
    var locked: Option<Hash>
    var rs: RoundState
    var outbox: seq<Message>
    var halted: bool
    ghost var signed: set<Vote>
    ghost var chain: seq<Block>

    ghost predicate Valid() {
      validators.Valid() && validators.validators == cfg.validators && cfg.validators != []
    }

    ghost function Books(): Apply.Books
      reads this, ledger
    {
      Apply.Books(ledger.State(), vctx)
    }

    ghost function CommittedState(): Store
      reads this, ledger
    {
      Store(Books(), snapshot)
    }

    ghost function State(): NodeState
      reads this, ledger, slashing
    {
      NodeState(nodeId, CommittedState(), slashing.State(), savedSlashes, disk, mempool, height, round, phase,
                locked, rs, outbox, halted, signed, chain)
    }

    constructor (cfg: Config, id: NodeId)
      requires 0 < |cfg.validators| <= U64_MAX
      ensures Valid() && this.cfg == cfg && fresh(ledger) && fresh(slashing)
      ensures State() == Init(cfg, id)
    {
      this.cfg, nodeId := cfg, id;
      validators := new ValidatorSet(cfg.validators);
      ledger := new LedgerStore();
      var stakes := InitialStakes(cfg.validators);
      slashing := new SlashingState(stakes);
      vctx, snapshot, savedSlashes, disk, mempool := map[], NO_SNAPSHOT, Some(Fresh(stakes)), None, [];
      height, round, phase, locked, rs := 1, 0, Proposing, None, NEW_ROUND;
      outbox, halted, signed, chain := [], false, {}, [];
    }

    // ---- Applying a block ----

    /** Dry run on copies, then the real run. The second loop never fails, so a block is applied
    as a whole or not at all. */
    method ApplyBlock(block: Block) returns (r: Option<ApplyError>)
      modifies ledger, `vctx
      ensures r == match ApplyTxs(old(Books()), block.txs, cfg.skew) case Ok(_) => None case Err(err) => Some(err)
      ensures r.None? ==> Ok(Books()) == ApplyTxs(old(Books()), block.txs, cfg.skew)
      ensures r.Some? ==> Books() == old(Books())
    {
      var txs := block.txs;
      var ctx, known := vctx, ledger.events.Keys;
      DryRunExact(Books(), txs, cfg.skew);
      for i := 0 to |txs|
        invariant DryRun(Known(Books()), vctx, txs, cfg.skew) == DryRun(known, ctx, txs[i..], cfg.skew)
        invariant Books() == old(Books())
      {
        assert txs[i..][0] == txs[i] && txs[i..][1..] == txs[i + 1..];
        var d := DecodeEvent(txs[i]);
        if d.None? {
          return Some(BadLength);
        }
        var v := Validate(d.value, LastSeen(ctx, d.value.author), cfg.skew);
        if v.Some? {
          return Some(Rejected(v.value));
        }
        ctx := Touch(ctx, d.value);
        var h := HashEvent(d.value);
        if h in known {
          return Some(Unlinked(Duplicate));
        }
        if d.value.prevHash != ZERO_HASH && d.value.prevHash !in known {
          return Some(Unlinked(MissingParent));
        }
        known := known + {h};
      }
      ghost var start := Books();
      for i := 0 to |txs|
        invariant ApplyTxs(start, txs, cfg.skew) == ApplyTxs(Books(), txs[i..], cfg.skew)
        invariant ApplyTxs(start, txs, cfg.skew).Ok?
      {
        assert txs[i..][0] == txs[i] && txs[i..][1..] == txs[i + 1..];
        var d := DecodeEvent(txs[i]);
        if d.None? {
          assert false;
        }
        var v := Validate(d.value, LastSeen(vctx, d.value.author), cfg.skew);
        if v.Some? {
          assert false;
        }
        vctx := Touch(vctx, d.value);
        var added := ledger.TryAddEvent(d.value);
        if added.Err? {
          assert false;
        }
      }
      return None;
    }

    /** The parallel build: all checks against the state before the block, then all entries. */
    method ApplyBlockParallel(block: Block) returns (ok: bool)
      modifies ledger, `vctx
      ensures (Books(), ok) == ApplyParallel(old(Books()), block.txs, cfg.skew)
    {
      var txs, known := block.txs, ledger.events.Keys;
      for i := 0 to |txs|
        invariant forall j :: 0 <= j < i ==> Check(known, vctx, txs[j], cfg.skew).None?
      {
        if Check(known, vctx, txs[i], cfg.skew).Some? {
          return false;
        }
      }
      CheckedDecode(Books(), txs, cfg.skew);
      ok := EnterBlock(txs);
    }

    method EnterBlock(txs: seq<seq<byte>>) returns (ok: bool)
      requires AllDecode(txs)
      modifies ledger, `vctx
      ensures (Books(), ok) == EnterLinked(old(Books()), txs)
    {
      for i := 0 to |txs|
        invariant EnterLinked(old(Books()), txs) == EnterLinked(Books(), txs[i..])
      {
        assert txs[i..][0] == txs[i] && txs[i..][1..] == txs[i + 1..];
        var e := DecodeEvent(txs[i]).value;
        vctx := Touch(vctx, e);
        var added := ledger.TryAddEvent(e);
        if added.Err? {
          return false;
        }
      }
      return true;
    }

    method IndexBlock(block: Block)
      modifies `snapshot
      ensures snapshot == Record(old(snapshot), block)
    {
      var h, bh := block.header.height, BlockHash(block.header);
      var byHeight, byHash := snapshot.byHeight[h := block], snapshot.byHash[bh := block];
      var index: map<Hash, (Hash, u64)> := snapshot.txIndex;
      for i := 0 to |block.txs|
        invariant IndexTxs(snapshot.txIndex, block.txs, (bh, h)) == IndexTxs(index, block.txs[i..], (bh, h))
      {
        assert block.txs[i..][0] == block.txs[i] && block.txs[i..][1..] == block.txs[i + 1..];
        index := index[TxHash(block.txs[i]) := (bh, h)];
      }
      snapshot := Snapshot(h, bh, byHeight, byHash, index);
    }

    method PruneMempool(committed: seq<seq<byte>>)
      modifies `mempool
      ensures mempool == Pruned(old(mempool), HashSet(committed))
    {
      var hashes := HashSet(committed);
      var pool: seq<seq<byte>> := [];
      var before := mempool;
      for i := 0 to |before|
        invariant pool == Pruned(before[..i], hashes)
      {
        assert before[..i + 1][..i] == before[..i];
        if TxHash(before[i]) !in hashes {
          pool := pool + [before[i]];
        }
      }
      assert before[..|before|] == before;
      mempool := pool;
    }

    method ApplyAndIndex(block: Block) returns (ok: bool)
      modifies ledger, `vctx, `snapshot
      ensures ok <==> Commit(old(CommittedState()), block, cfg.skew).Ok?
      ensures ok ==> Ok(CommittedState()) == Commit(old(CommittedState()), block, cfg.skew)
      ensures !ok ==> CommittedState() == old(CommittedState())
    {
      var r := ApplyBlock(block);
      if r.Some? {
        return false;
      }
      IndexBlock(block);
      return true;
    }

    method NewHeight(h: u64)
      modifies `height, `round, `phase, `locked, `rs
      ensures State() == old(State()).(height := h, round := 0, phase := Proposing, locked := None, rs := NEW_ROUND)
    {
      height := h;
      round := 0;
      phase := Proposing;
      locked := None;
      rs := NEW_ROUND;
    }

    method CommitChecked(block: Block) returns (ok: bool)
      modifies this, ledger
      ensures ok <==> Commit(old(CommittedState()), block, cfg.skew).Ok?
      ensures State() == if ok then CommitBlock(cfg, old(State()), block) else old(State())
    {
      ok := ApplyAndIndex(block);
      if !ok {
        return;
      }
      var persisted := SnapshotToPersisted(snapshot, savedSlashes);
      NewHeight(SatAdd(block.header.height, 1));
      PruneMempool(block.txs);
      disk := Some(persisted);
      chain := chain + [block];
    }

    // ---- Votes ----

    method Send(m: Message)
      modifies `outbox
      ensures outbox == old(outbox) + [m]
    {
      outbox := outbox + [m];
    }

    /** Recording a vote, and slashing for it; the snapshot's copy follows a slash. */
    method RecordVote(sv: SignedVote)
      modifies `savedSlashes, slashing
      requires !IsJailed(slashing.jailed, sv.vote.validator, height)
      ensures slashing.State() == Observe(old(slashing.State()), cfg.slashing, height, sv)
      ensures savedSlashes == if slashing.slashed != old(slashing.slashed) then Some(slashing.State()) else old(savedSlashes)
    {
      var evidence := slashing.RecordVote(sv, cfg.slashing);
      if evidence.Some? {
        var r := slashing.ApplySlash(evidence.value, cfg.slashing, height);
        if r.Ok? {
          assert |slashing.slashed| == |old(slashing.slashed)| + 1;
          savedSlashes := Some(slashing.State());
        }
      }
    }

    method CountVote(sv: SignedVote)
      modifies `savedSlashes, `rs, slashing
      requires !IsJailed(slashing.jailed, sv.vote.validator, height)
      ensures State() == Count(cfg, old(State()), sv)
    {
      RecordVote(sv);
      var votes := VotesFor(rs, sv.vote.kind, sv.vote.blockHash) + {sv.vote.validator};
      if sv.vote.kind.Prevote? {
        rs := rs.(prevotes := rs.prevotes[sv.vote.blockHash := votes]);
      } else {
        rs := rs.(precommits := rs.precommits[sv.vote.blockHash := votes]);
      }
    }

    /** A vote is checked, recorded and counted; a quorum of prevotes locks and precommits, a
    quorum of precommits commits the block held, and a commit that fails ends the process. */
    method HandleVote(sv: SignedVote)
      requires Valid() && !halted
      modifies this, ledger, slashing
      ensures State() == Consensus.HandleVote(cfg, old(State()), sv)
      decreases if sv.vote.kind.Prevote? then 2 else 0, 1
    {
      var v := sv.vote;
      if !VerifyVote(cfg, sv) || v.height != height || v.round != round {
        return;
      }
      if IsJailed(slashing.jailed, v.validator, height) {
        return;
      }
      CountVote(sv);
      var quorum := validators.Met(VotesFor(rs, v.kind, v.blockHash));
      if quorum && v.blockHash != ZERO_HASH {
        if v.kind.Prevote? {
          LockAndPrecommit(v.blockHash);
        } else {
          CommitHeld(v.blockHash);
        }
      }
    }

    method LockAndPrecommit(bh: Hash)
      requires Valid() && !halted
      modifies this, ledger, slashing
      ensures State() == SetPhase(CastPrecommit(cfg, old(State()).(locked := Some(bh)), bh), Precommitting)
      decreases 2, 0
    {
      locked := Some(bh);
      BroadcastVote(Precommit, bh);
      if !halted {
        phase := Precommitting;
      }
    }

    /** Commit the block held for this round, if it is the one with this hash. */
    method CommitHeld(bh: Hash)
      modifies this, ledger
      ensures State() ==
              if old(rs).proposal.Some? && BlockHash(old(rs).proposal.value.block.header) == bh
              then CommitBlock(cfg, old(State()), old(rs).proposal.value.block)
              else old(State())
    {
      if rs.proposal.Some? && BlockHash(rs.proposal.value.block.header) == bh {
        var ok := CommitChecked(rs.proposal.value.block);
        if !ok {
          halted := true;
        }
      }
    }

    /** A node handles its own vote before sending it. */
    method BroadcastVote(kind: VoteType, bh: Hash)
      requires Valid() && !halted
      modifies this, ledger, slashing
      ensures State() == CastVote(cfg, old(State()), kind, bh)
      decreases if kind.Prevote? then 3 else 1, 0
    {
      var v := Vote(height, round, kind, bh, nodeId);
      var sv := SignedVote(v, Ed25519Sign(nodeId, VoteBytes(v)));
      signed := signed + {v};
      HandleVote(sv);
      if !halted {
        Send(VoteMessage(sv));
      }
    }

    // ---- Proposals and timers ----

    method ValidateBlock(block: Block) returns (ok: bool)
      ensures ok <==> Fits(cfg, State(), block)
    {
      if block.header.height != height || block.header.round != round {
        return false;
      }
      if block.header.prevBlockHash != snapshot.tipHash {
        return false;
      }
      var root := MerkleRootHashes(TxHashes(block.txs));
      if root != block.header.txRoot {
        return false;
      }
      var bytes := 0;
      for i := 0 to |block.txs|
        invariant bytes == TotalBytes(block.txs[..i])
      {
        assert block.txs[..i + 1][..i] == block.txs[..i];
        bytes := bytes + |block.txs[i]|;
      }
      assert block.txs[..|block.txs|] == block.txs;
      return bytes <= cfg.maxBlockBytes && |block.txs| <= cfg.maxEvents;
    }

    method HandleProposal(p: Proposal)
      requires Valid() && !halted
      modifies this, ledger, slashing
      ensures State() == Consensus.HandleProposal(cfg, old(State()), p)
    {
      if p.height != height || p.round != round {
        return;
      }
      if !VerifyProposal(cfg, p) {
        return;
      }
      var valid := ValidateBlock(p.block);
      if !valid {
        BroadcastVote(Prevote, ZERO_HASH);
        if !halted {
          phase := Prevoting;
        }
        return;
      }
      rs := rs.(proposal := Some(p));
      var bh := BlockHash(p.block.header);
      if locked.Some? && locked.value != bh {
        BroadcastVote(Prevote, ZERO_HASH);
      } else {
        BroadcastVote(Prevote, bh);
      }
      if !halted {
        phase := Prevoting;
      }
    }

    method BuildBlock(now: u64) returns (block: Block)
      ensures block == Consensus.BuildBlock(cfg, State(), now)
    {
      var total, n := 0, 0;
      while n < |mempool| && n < cfg.maxEvents && total + |mempool[n]| <= cfg.maxBlockBytes
        invariant n <= |mempool| && total == TotalBytes(mempool[..n])
        invariant Taken(mempool, 0, cfg.maxBlockBytes, cfg.maxEvents) == Taken(mempool, n, cfg.maxBlockBytes, cfg.maxEvents)
        decreases |mempool| - n
      {
        assert mempool[..n + 1][..n] == mempool[..n];
        total := total + |mempool[n]|;
        n := n + 1;
      }
      var txs := mempool[..n];
      var root := MerkleRootHashes(TxHashes(txs));
      return Block(BlockHeader(height, round, snapshot.tipHash, root, nodeId, now), txs);
    }

    method MaybePropose(now: u64)
      requires Valid() && !halted
      modifies this, ledger, slashing
      ensures State() == Consensus.MaybePropose(cfg, old(State()), now)
    {
      if !phase.Proposing? || rs.proposed {
        return;
      }
      if ProposerFor(cfg, height, round).nodeId != nodeId {
        return;
      }
      var block := BuildBlock(now);
      var p := Proposal(height, round, block, nodeId, seq(64, _ => 0));
      p := p.(signature := Ed25519Sign(nodeId, ProposalBytes(p)));
      rs := rs.(proposed := true, proposal := Some(p));
      Send(ProposalMessage(p));
      HandleProposal(p);
    }

    /** The timer of the current phase has run out. */
    method CheckTimeouts()
      requires Valid() && !halted
      modifies this, ledger, slashing
      ensures State() == Expire(cfg, old(State()))
    {
      match phase {
        case Proposing =>
          if rs.proposal.None? {
            BroadcastVote(Prevote, ZERO_HASH);
          }
          if !halted {
            phase := Prevoting;
          }
        case Prevoting =>
          BroadcastVote(Precommit, ZERO_HASH);
          if !halted {
            phase := Precommitting;
          }
        case Precommitting =>
          round := SatAdd(round, 1);
          phase := Proposing;
          rs := NEW_ROUND;
      }
    }

    method SubmitTx(tx: seq<byte>, broadcast: bool)
      requires !halted
      modifies `mempool, `outbox
      ensures State() == Consensus.SubmitTx(old(State()), tx, broadcast)
    {
      if tx == [] {
        return;
      }
      mempool := mempool + [tx];
      if broadcast {
        Send(TxMessage(tx));
      }
    }

    // ---- Restart ----

    /** Nothing stored leaves a fresh node; otherwise sort, check heights and links, apply, index.
    A refused snapshot leaves no node. */
    method RestoreFromStore() returns (ok: bool)
      requires State() == Init(cfg, nodeId).(disk := disk)
      modifies this, ledger, slashing
      ensures ok <==> Booted(cfg, nodeId, old(disk)).Some?
      ensures ok ==> State() == Booted(cfg, nodeId, old(disk)).value
    {
      if disk.None? {
        return true;
      }
      var p := disk.value;
      ok := LoadBlocks(p);
      if ok {
        LoadSlashing(p.slashing);
        NewHeight(SatAdd(snapshot.height, 1));
      }
    }

    method LoadBlocks(p: Persisted) returns (ok: bool)
      requires CommittedState() == NO_STORE
      modifies ledger, `vctx, `snapshot
      ensures ok <==> Restore(p, cfg.skew).Some?
      ensures ok ==> CommittedState() == Restore(p, cfg.skew).value
    {
      SortLength(p.blocks);
      var blocks := SortBlocks(p.blocks);
      if blocks == [] && p.height > 0 {
        return false;
      }
      var snap := ReplayBlocks(blocks);
      if snap.None? {
        return false;
      }
      snapshot := if blocks != [] then snap.value else snap.value.(height := p.height, tipHash := p.tipHash);
      return true;
    }

    method LoadSlashing(saved: Option<Slashes>)
      modifies `savedSlashes, slashing
      ensures savedSlashes == saved
      ensures slashing.State() == if saved.Some? then saved.value else old(slashing.State())
    {
      savedSlashes := saved;
      if saved.Some? {
        var st := saved.value;
        slashing.stakes, slashing.original, slashing.slashed := st.stakes, st.original, st.slashed;
        slashing.jailed, slashing.votes := st.jailed, st.votes;
      }
    }

    method ReplayBlocks(blocks: seq<Block>) returns (snap: Option<Snapshot>)
      requires Books() == NO_BOOKS
      modifies ledger, `vctx
      ensures ReplayChecked(NO_STORE, blocks, ZERO_HASH, 1, cfg.skew) ==
              match snap case None => None case Some(sn) => Some(Store(Books(), sn))
    {
      var sn := NO_SNAPSHOT;
      var prev, expected := ZERO_HASH, 1;
      for i := 0 to |blocks|
        invariant 0 <= expected <= U64_MAX
        invariant ReplayChecked(NO_STORE, blocks, ZERO_HASH, 1, cfg.skew) ==
                  ReplayChecked(Store(Books(), sn), blocks[i..], prev, expected, cfg.skew)
      {
        var block := blocks[i];
        assert blocks[i..][0] == block && blocks[i..][1..] == blocks[i + 1..];
        if block.header.height != expected || block.header.prevBlockHash != prev {
          return None;
        }
        var r := ApplyBlock(block);
        if r.Some? {
          return None;
        }
        sn := Record(sn, block);
        prev := BlockHash(block.header);
        expected := SatAdd(expected, 1);
      }
      return Some(sn);
    }
  }
}
