/** A run that commits: one validator, one proposal. Its own votes make the quorums, so proposing,
locking, precommitting and committing happen inside one call. The premises of agreement hold of
this run, so they are not empty. */
module Solo {
  import opened Base
  import opened Blocks
  import opened Chain
  import opened Slashing
  import opened Validators
  import opened Consensus
  import opened Network
  import opened Handlers
  import opened Agreement

  /** What the validator signs verifies. */
  ghost predicate Signs(v: ValidatorInfo) {
    forall m :: Ed25519Verify(v.pubkey, m, Ed25519Sign(v.nodeId, m))
  }

  ghost predicate Alone(cfg: Config, v: ValidatorInfo) {
    cfg.validators == [v] && v.power == 1 && Signs(v)
  }

  lemma SoloQuorum(cfg: Config, v: ValidatorInfo, ids: set<NodeId>)
    requires Alone(cfg, v) && v.nodeId in ids
    ensures QuorumMet(cfg.validators, ids)
  {
    assert ById(cfg.validators) == map[v.nodeId := v] by {
      assert cfg.validators[..0] == [];
    }
    PowerRemove(ById(cfg.validators), ids, v.nodeId);
  }

  lemma SoloVerifies(cfg: Config, v: ValidatorInfo, s: NodeState, kind: VoteType, bh: Hash)
    requires Alone(cfg, v) && s.id == v.nodeId
    ensures VerifyVote(cfg, Ballot(s, kind, bh))
  {
    assert ById(cfg.validators) == map[v.nodeId := v] by {
      assert cfg.validators[..0] == [];
    }
  }

  /** Not halted, not jailed, and no vote of this kind recorded or counted yet. */
  ghost predicate Untried(s: NodeState, kind: VoteType) {
    && !s.halted && s.slashes.jailed == map[]
    && Seen(s.slashes.votes, (s.height, s.round, kind), s.id).None?
  }

  /** Counting one's own first vote: it is recorded and no one is slashed. */
  lemma OwnCount(cfg: Config, s: NodeState, kind: VoteType, bh: Hash)
    requires Untried(s, kind)
    ensures var s1 := Count(cfg, s, Ballot(s, kind, bh));
            && s1.slashes.jailed == map[] && s1.store == s.store && s1.chain == s.chain && s1.height == s.height
            && s1.round == s.round && s1.id == s.id && !s1.halted && s1.rs.proposal == s.rs.proposal
            && s.id in VotesFor(s1.rs, kind, bh)
            && (forall other :: other != kind && Untried(s, other) ==> Untried(s1, other))
  {
  }

  lemma OwnPrecommitCommits(cfg: Config, v: ValidatorInfo, s: NodeState, block: Block)
    requires Alone(cfg, v) && s.id == v.nodeId && Untried(s, Precommit) && BlockHash(block.header) != ZERO_HASH
    requires s.rs.proposal.Some? && s.rs.proposal.value.block == block && Commit(s.store, block, cfg.skew).Ok?
    ensures var s' := CastPrecommit(cfg, s, BlockHash(block.header));
            !s'.halted && s'.chain == s.chain + [block] && s'.height == SatAdd(block.header.height, 1) && s'.round == 0
  {
    var bh := BlockHash(block.header);
    var s0, sv := Sign(s, Ballot(s, Precommit, bh).vote), Ballot(s, Precommit, bh);
    SoloVerifies(cfg, v, s, Precommit, bh);
    OwnCount(cfg, s0, Precommit, bh);
    SoloQuorum(cfg, v, VotesFor(Count(cfg, s0, sv).rs, Precommit, bh));
    assert Ballot(s0, Precommit, bh) == sv;
  }

  lemma OwnPrevoteCommits(cfg: Config, v: ValidatorInfo, s: NodeState, block: Block)
    requires Alone(cfg, v) && s.id == v.nodeId && Untried(s, Prevote) && Untried(s, Precommit)
    requires s.rs.proposal.Some? && s.rs.proposal.value.block == block && BlockHash(block.header) != ZERO_HASH
    requires Commit(s.store, block, cfg.skew).Ok?
    ensures var s' := CastPrevote(cfg, s, BlockHash(block.header));
            !s'.halted && s'.chain == s.chain + [block] && s'.height == SatAdd(block.header.height, 1) && s'.round == 0
  {
    var bh := BlockHash(block.header);
    var s0, sv := Sign(s, Ballot(s, Prevote, bh).vote), Ballot(s, Prevote, bh);
    SoloVerifies(cfg, v, s, Prevote, bh);
    OwnCount(cfg, s0, Prevote, bh);
    assert Ballot(s0, Prevote, bh) == sv;
    var s1 := Count(cfg, s0, sv);
    SoloQuorum(cfg, v, VotesFor(s1.rs, Prevote, bh));
    var s2 := s1.(locked := Some(bh));
    assert Untried(s2, Precommit);
    OwnPrecommitCommits(cfg, v, s2, block);
  }

  /** The only validator of a new network proposes: its block is committed before the call returns,
  and the step, set after the inner call, is not that of a new height. */
  lemma SoloCommits(cfg: Config, v: ValidatorInfo, now: u64)
    requires Alone(cfg, v)
    requires var s := Init(cfg, v.nodeId); BlockHash(BuildBlock(cfg, s, now).header) != ZERO_HASH
    ensures var s := Init(cfg, v.nodeId);
            var s' := MaybePropose(cfg, s, now);
            !s'.halted && s'.chain == [BuildBlock(cfg, s, now)] && s'.height == 2 && s'.round == 0 && s'.phase == Prevoting
  {
    var s := Init(cfg, v.nodeId);
    var block := BuildBlock(cfg, s, now);
    var p := SignProposal(s, block);
    var s1 := Send(s.(rs := s.rs.(proposed := true, proposal := Some(p))), ProposalMessage(p));
    assert VerifyProposal(cfg, p);
    BuildFits(cfg, s, now);
    assert Fits(cfg, s1, block);
    var s2 := s1.(rs := s1.rs.(proposal := Some(p)));
    EmptyPool(cfg, s, now);
    OwnPrevoteCommits(cfg, v, s2, block);
  }

  lemma EmptyPool(cfg: Config, s: NodeState, now: u64)
    requires s.mempool == []
    ensures Commit(s.store, BuildBlock(cfg, s, now), cfg.skew).Ok?
  {
    BuildMaximal(cfg, s, now);
  }

  ghost function AfterProposal(cfg: Config, v: ValidatorInfo, now: u64): Net
    requires cfg.validators != []
  {
    Next(cfg, Start(cfg, {v.nodeId}), Propose(v.nodeId, now))
  }

  lemma SoloNet(cfg: Config, v: ValidatorInfo, now: u64)
    requires Alone(cfg, v)
    requires var s := Init(cfg, v.nodeId); BlockHash(BuildBlock(cfg, s, now).header) != ZERO_HASH
    ensures var n, block := AfterProposal(cfg, v, now), BuildBlock(cfg, Init(cfg, v.nodeId), now);
            && Bounded(n) && n.nodes.Keys == {v.nodeId} && n.nodes[v.nodeId].chain == [block]
            && n.proposals == {(1, 0, BlockHash(block.header))} && n.blocks == {block}
  {
    SoloCommits(cfg, v, now);
    var n := AfterProposal(cfg, v, now);
    assert n.nodes[v.nodeId] == MaybePropose(cfg, Init(cfg, v.nodeId), now);
  }

  lemma SoloRun(cfg: Config, v: ValidatorInfo, now: u64)
    requires Alone(cfg, v) && Bounded(AfterProposal(cfg, v, now))
    ensures var acts, start := [Propose(v.nodeId, now)], Start(cfg, {v.nodeId});
            Runs(cfg, start, acts) && After(cfg, start, acts) == AfterProposal(cfg, v, now)
  {
    assert [Propose(v.nodeId, now)][1..] == [];
  }

  lemma SoloUnit(cfg: Config, v: ValidatorInfo)
    requires Alone(cfg, v)
    ensures UnitPower(cfg.validators) && |cfg.validators| % 3 == 1
    ensures |Ids(cfg.validators) - {v.nodeId}| <= Tolerated(|cfg.validators|)
  {
    assert Ids(cfg.validators) == {v.nodeId} by {
      assert cfg.validators[0] == v;
    }
  }

  /** All premises of `AgreementAcrossRounds` hold of a run at whose end a block is committed. */
  lemma AgreementApplies(cfg: Config, v: ValidatorInfo, now: u64)
    requires Alone(cfg, v)
    requires var s := Init(cfg, v.nodeId); BlockHash(BuildBlock(cfg, s, now).header) != ZERO_HASH
    ensures UnitPower(cfg.validators) && |cfg.validators| % 3 == 1
    ensures |Ids(cfg.validators) - {v.nodeId}| <= Tolerated(|cfg.validators|)
    ensures var acts, start := [Propose(v.nodeId, now)], Start(cfg, {v.nodeId});
            && Runs(cfg, start, acts)
            && (var n := After(cfg, start, acts);
                && DeviantsProposeOnce(cfg, n) && CollisionFree(HeaderStrings(n))
                && v.nodeId in n.nodes && |n.nodes[v.nodeId].chain| == 1)
  {
    SoloUnit(cfg, v);
    SoloNet(cfg, v, now);
    SoloRun(cfg, v, now);
  }
}
