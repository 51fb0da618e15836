/** Every step of the network keeps its invariant: first the elementary moves of one node
(count, prevote, lock and precommit, commit), then the handlers built from them. */
module Steps {
  import opened Base
  import opened Blocks
  import opened Chain
  import opened Consensus
  import opened Network

  lemma EnvironmentGrows(cfg: Config, qs: Quorums, n: Net, n': Net)
    requires Inv(cfg, qs, n) && n'.nodes == n.nodes
    requires n.deviant <= n'.deviant && n.proposals <= n'.proposals && n.blocks <= n'.blocks
    ensures Inv(cfg, qs, n')
  {
    assert Grows(n, n');
    AllPastHolds(cfg, qs, n);
    forall j | j in n'.nodes ensures Sound(cfg, qs, n', j) {
      assert Sound(cfg, qs, n, j);
      SoundGrows(cfg, qs, n, n', j);
    }
    if Trusted(qs, n') {
      TrustedBefore(qs, n, n');
      forall j | j in n'.nodes ensures Locks(qs, n', j) {
        assert Locks(qs, n, j);
        RulesMove(qs, n, n', n.nodes[j], n'.nodes[j]);
      }
    }
  }

  lemma UpdateGrows(n: Net, i: NodeId, s': NodeState)
    requires i in n.nodes && Evolves(n.nodes[i], s')
    ensures Grows(n, Update(n, i, s'))
  {
  }

  // ---- Elementary moves ----

  /** Nothing signed, nothing committed, no change of lock or height. */
  ghost predicate Quiet(s: NodeState, s': NodeState) {
    && s'.id == s.id && s'.signed == s.signed && s'.locked == s.locked && s'.store == s.store && s'.chain == s.chain
    && s'.height == s.height && s.round <= s'.round
  }

  lemma QuietSound(cfg: Config, qs: Quorums, n: Net, i: NodeId, s': NodeState)
    requires i in n.nodes && Sound(cfg, qs, n, i) && Quiet(n.nodes[i], s')
    requires Tallied(n, s') && Held(cfg, n, s')
    ensures Sound(cfg, qs, Update(n, i, s'), i)
  {
    var n', s := Update(n, i, s'), n.nodes[i];
    UpdateGrows(n, i, s');
    assert AllBacked(n, s');
    BackedMoves(n, n', s');
    TalliedMoves(n, n', s', s');
    HeldMoves(cfg, n, n', s', s');
    CommittedMoves(cfg, qs, n, n', s, s');
  }

  lemma QuietKeeps(cfg: Config, qs: Quorums, n: Net, i: NodeId, s': NodeState)
    requires Inv(cfg, qs, n) && i in n.nodes && Quiet(n.nodes[i], s')
    requires Tallied(n, s') && Held(cfg, n, s')
    ensures Inv(cfg, qs, Update(n, i, s'))
  {
    var n' := Update(n, i, s');
    UpdateGrows(n, i, s');
    assert Sound(cfg, qs, n, i);
    QuietSound(cfg, qs, n, i, s');
    AllPastHolds(cfg, qs, n);
    if Trusted(qs, n') {
      TrustedBefore(qs, n, n');
      assert Locks(qs, n, i);
      RulesMove(qs, n, n', n.nodes[i], s');
    }
    Rebuild(cfg, qs, n, n', i);
  }

  /** Steps that touch nothing the invariant reads. */
  lemma IdleKeeps(cfg: Config, qs: Quorums, n: Net, i: NodeId, s': NodeState)
    requires Inv(cfg, qs, n) && i in n.nodes && Quiet(n.nodes[i], s')
    requires s'.rs == n.nodes[i].rs && s'.round == n.nodes[i].round
    ensures Inv(cfg, qs, Update(n, i, s'))
  {
    assert Sound(cfg, qs, n, i);
    assert Tallied(n, s') && Held(cfg, n, s');
    QuietKeeps(cfg, qs, n, i, s');
  }

  lemma TallyAdds(rs: RoundState, v: Vote, kind: VoteType, bh: Hash)
    ensures VotesFor(Tally(rs, v), kind, bh) ==
            if kind == v.kind && bh == v.blockHash then VotesFor(rs, kind, bh) + {v.validator} else VotesFor(rs, kind, bh)
  {
  }

  lemma TalliedMore(n: Net, s: NodeState, s': NodeState, v: Vote)
    requires Tallied(n, s) && Cast(n, v) && v.height == s.height && v.round == s.round
    requires s'.rs == Tally(s.rs, v) && s'.height == s.height && s'.round == s.round
    ensures Tallied(n, s')
  {
    forall kind, bh, id | id in VotesFor(s'.rs, kind, bh) ensures Cast(n, Vote(s.height, s.round, kind, bh, id)) {
      TallyAdds(s.rs, v, kind, bh);
      if id !in VotesFor(s.rs, kind, bh) {
        assert v == Vote(s.height, s.round, kind, bh, id);
      }
    }
  }

  lemma CountKeeps(cfg: Config, qs: Quorums, n: Net, i: NodeId, sv: SignedVote)
    requires Inv(cfg, qs, n) && i in n.nodes && Accepts(cfg, n.nodes[i], sv) && Cast(n, sv.vote)
    ensures Inv(cfg, qs, Update(n, i, Count(cfg, n.nodes[i], sv)))
  {
    var s := n.nodes[i];
    var s' := Count(cfg, s, sv);
    assert Sound(cfg, qs, n, i);
    TalliedMore(n, s, s', sv.vote);
    assert Held(cfg, n, s');
    QuietKeeps(cfg, qs, n, i, s');
  }

  /** A vote signed at the current height and round. */
  ghost predicate Current(s: NodeState, v: Vote) {
    v.height == s.height && v.round == s.round && v.validator == s.id
  }

  lemma SignBacked(n: Net, n': Net, s: NodeState, s': NodeState, v: Vote)
    requires Grows(n, n') && AllBacked(n, s) && s'.signed == s.signed + {v}
    requires v.kind.Prevote? && NonNil(v) ==> Backed(n, v)
    ensures AllBacked(n', s')
  {
    forall w | w in s'.signed && w.kind.Prevote? && NonNil(w) ensures Backed(n', w) {
      BackedGrows(n, n', w);
    }
  }

  lemma SignSound(cfg: Config, qs: Quorums, n: Net, i: NodeId, s': NodeState, v: Vote)
    requires i in n.nodes && Sound(cfg, qs, n, i) && Current(n.nodes[i], v)
    requires s' == Sign(n.nodes[i], v).(locked := s'.locked)
    requires v.kind.Prevote? && NonNil(v) ==> Backed(n, v)
    ensures Grows(n, Update(n, i, s')) && Sound(cfg, qs, Update(n, i, s'), i)
  {
    var n', s := Update(n, i, s'), n.nodes[i];
    UpdateGrows(n, i, s');
    SignBacked(n, n', s, s', v);
    TalliedMoves(n, n', s, s');
    HeldMoves(cfg, n, n', s, s');
    CommittedMoves(cfg, qs, n, n', s, s');
    assert Past(s');
  }

  ghost predicate EveryBacked(n: Net) {
    forall i :: i in n.nodes ==> AllBacked(n, n.nodes[i])
  }

  lemma EveryBackedHolds(cfg: Config, qs: Quorums, n: Net)
    requires Inv(cfg, qs, n)
    ensures EveryBacked(n)
  {
    forall i | i in n.nodes ensures AllBacked(n, n.nodes[i]) {
      assert Sound(cfg, qs, n, i);
    }
  }

  /** A quorum that prevoted a block contains a correct node, so the block's header has its round. */
  lemma FreshQuorumHeader(qs: Quorums, n: Net, h: u64, r: u64, bh: Hash)
    requires EveryBacked(n) && Meet(qs, n.nodes.Keys) && FreshQuorum(qs, n, h, r, bh) && bh != ZERO_HASH
    ensures (h, r, bh) in n.proposals && HeaderAt(n, h, r, bh)
  {
    var q :| q in qs && AllFresh(n, q, h, r, bh);
    assert Share(q, q, n.nodes.Keys);
    var c :| c in q && c in q && c in n.nodes.Keys;
    assert FreshVoter(n, c, h, r, bh);
    assert AllBacked(n, n.nodes[c]);
    var v := Vote(h, r, Prevote, bh, c);
    assert v in n.nodes[c].signed && NonNil(v);
    assert Backed(n, v);
  }

  lemma HeadersAtOneRound(n: Net, h: u64, r: u64, r': u64, bh: Hash)
    requires HeadersBind(n.blocks) && HeaderAt(n, h, r, bh) && HeaderAt(n, h, r', bh)
    ensures r == r'
  {
    var a :| a in n.blocks && BlockHash(a.header) == bh && a.header.height == h && a.header.round == r;
    var b :| b in n.blocks && BlockHash(b.header) == bh && b.header.height == h && b.header.round == r';
  }

  /** A new prevote is fresh when unlocked, and follows a fresh quorum when locked on its block. */
  lemma PrevoteFresh(cfg: Config, qs: Quorums, n: Net, i: NodeId, v: Vote)
    requires Inv(cfg, qs, n) && Trusted(qs, n) && i in n.nodes && Current(n.nodes[i], v)
    requires NonNil(v) && Backed(n, v)
    requires n.nodes[i].locked.Some? ==> n.nodes[i].locked.value == v.blockHash
    ensures NoEarlier(n.nodes[i].signed, v.height, v.round) || FreshQuorum(qs, n, v.height, v.round, v.blockHash)
  {
    var s := n.nodes[i];
    assert Locks(qs, n, i);
    if s.locked.Some? {
      var r :| LockedAt(qs, n, s, r);
      EveryBackedHolds(cfg, qs, n);
      FreshQuorumHeader(qs, n, s.height, r, v.blockHash);
      HeadersAtOneRound(n, s.height, r, v.round, v.blockHash);
    }
  }

  lemma PrevoteRules(qs: Quorums, n: Net, n': Net, s: NodeState, v: Vote)
    requires Grows(n, n') && AllPast(n) && Rules(qs, n, s) && v.kind.Prevote?
    requires NonNil(v) ==> NoEarlier(s.signed, v.height, v.round) || FreshQuorum(qs, n, v.height, v.round, v.blockHash)
    ensures Rules(qs, n', Sign(s, v))
  {
    var s' := Sign(s, v);
    LockMoves(qs, n, n', s, s');
    PrecommitsMove(qs, n, n', s, s');
    PrevotesMove(qs, n, n', s, s');
  }

  lemma PrevoteKeeps(cfg: Config, qs: Quorums, n: Net, i: NodeId, v: Vote)
    requires Inv(cfg, qs, n) && i in n.nodes && Current(n.nodes[i], v) && v.kind.Prevote?
    requires NonNil(v) ==> Backed(n, v) && (n.nodes[i].locked.Some? ==> n.nodes[i].locked.value == v.blockHash)
    ensures Inv(cfg, qs, Update(n, i, Sign(n.nodes[i], v)))
  {
    var s' := Sign(n.nodes[i], v);
    var n' := Update(n, i, s');
    assert Sound(cfg, qs, n, i);
    SignSound(cfg, qs, n, i, s', v);
    AllPastHolds(cfg, qs, n);
    if Trusted(qs, n') {
      TrustedBefore(qs, n, n');
      assert Locks(qs, n, i);
      if NonNil(v) { PrevoteFresh(cfg, qs, n, i, v); }
      PrevoteRules(qs, n, n', n.nodes[i], v);
    }
    Rebuild(cfg, qs, n, n', i);
  }

  /** A quorum counted by a node is fresh, or one of its members saw a fresh one. */
  lemma CountedQuorumFresh(cfg: Config, qs: Quorums, n: Net, i: NodeId, bh: Hash)
    requires Inv(cfg, qs, n) && Trusted(qs, n) && i in n.nodes && bh != ZERO_HASH
    requires VotesFor(n.nodes[i].rs, Prevote, bh) in qs
    ensures FreshQuorum(qs, n, n.nodes[i].height, n.nodes[i].round, bh)
  {
    var s := n.nodes[i];
    var q := VotesFor(s.rs, Prevote, bh);
    assert Sound(cfg, qs, n, i);
    if !FreshQuorum(qs, n, s.height, s.round, bh) {
      forall id | id in q ensures FreshVoter(n, id, s.height, s.round, bh) {
        var v := Vote(s.height, s.round, Prevote, bh, id);
        assert Cast(n, v);
        if id in n.nodes {
          assert Locks(qs, n, id);
          assert v in n.nodes[id].signed && NonNil(v);
        }
      }
      assert AllFresh(n, q, s.height, s.round, bh);
    }
  }

  /** Locking and precommitting are one move; a nil precommit leaves the lock. */
  ghost function Precommitted(s: NodeState, v: Vote): NodeState {
    Sign(s, v).(locked := if NonNil(v) then Some(v.blockHash) else s.locked)
  }

  lemma NoEarlierKept(signed: set<Vote>, v: Vote, h: u64, r: u64)
    requires NoEarlier(signed, h, r)
    requires h < v.height || (h == v.height && r <= v.round)
    ensures NoEarlier(signed + {v}, h, r)
  {
  }

  lemma PrecommitPrevotes(qs: Quorums, n: Net, n': Net, s: NodeState, v: Vote)
    requires Grows(n, n') && AllPast(n) && PrevoteRule(qs, n, s) && Past(s) && Current(s, v) && v.kind.Precommit?
    ensures PrevoteRule(qs, n', Precommitted(s, v))
  {
    var s' := Precommitted(s, v);
    forall w | w in s'.signed && w.kind.Prevote? && NonNil(w)
      ensures NoEarlier(s'.signed, w.height, w.round) || FreshQuorum(qs, n, w.height, w.round, w.blockHash)
    {
      assert w in s.signed && AtOrBefore(w, s);
      if NoEarlier(s.signed, w.height, w.round) {
        NoEarlierKept(s.signed, v, w.height, w.round);
      }
    }
    PrevotesMove(qs, n, n', s, s');
  }

  lemma PrecommitRules(qs: Quorums, n: Net, n': Net, s: NodeState, v: Vote)
    requires Grows(n, n') && AllPast(n) && Rules(qs, n, s) && Past(s) && Current(s, v) && v.kind.Precommit?
    requires NonNil(v) ==> FreshQuorum(qs, n, v.height, v.round, v.blockHash)
    ensures Rules(qs, n', Precommitted(s, v))
  {
    var s' := Precommitted(s, v);
    PrecommitPrevotes(qs, n, n', s, v);
    PrecommitsMove(qs, n, n', s, s');
    if NonNil(v) {
      FreshQuorumGrows(qs, n, n', v.height, v.round, v.blockHash);
      assert LockedAt(qs, n', s', v.round);
    } else {
      LockMoves(qs, n, n', s, s');
    }
  }

  lemma PrecommitKeeps(cfg: Config, qs: Quorums, n: Net, i: NodeId, v: Vote)
    requires Inv(cfg, qs, n) && i in n.nodes && Current(n.nodes[i], v) && v.kind.Precommit?
    requires NonNil(v) ==> VotesFor(n.nodes[i].rs, Prevote, v.blockHash) in qs
    ensures Inv(cfg, qs, Update(n, i, Precommitted(n.nodes[i], v)))
  {
    var s' := Precommitted(n.nodes[i], v);
    var n' := Update(n, i, s');
    assert Sound(cfg, qs, n, i);
    SignSound(cfg, qs, n, i, s', v);
    AllPastHolds(cfg, qs, n);
    if Trusted(qs, n') {
      TrustedBefore(qs, n, n');
      assert Locks(qs, n, i);
      if NonNil(v) { CountedQuorumFresh(cfg, qs, n, i, v.blockHash); }
      PrecommitRules(qs, n, n', n.nodes[i], v);
    }
    Rebuild(cfg, qs, n, n', i);
  }

  // ---- Committing ----

  ghost predicate Ready(qs: Quorums, s: NodeState, block: Block) {
    && s.rs.proposal.Some? && s.rs.proposal.value.block == block
    && BlockHash(block.header) != ZERO_HASH
    && VotesFor(s.rs, Precommit, BlockHash(block.header)) in qs
  }

  lemma CommitDecides(cfg: Config, qs: Quorums, n: Net, s: NodeState, block: Block)
    requires Tallied(n, s) && Held(cfg, n, s) && Ready(qs, s, block)
    ensures Decided(qs, n, block)
  {
    var q := VotesFor(s.rs, Precommit, BlockHash(block.header));
    assert AllCast(n, q, s.height, s.round, Precommit, BlockHash(block.header));
  }

  lemma CommitChain(cfg: Config, qs: Quorums, n: Net, s: NodeState, block: Block)
    requires Committed(cfg, qs, n, s) && Fits(cfg, s, block) && Decided(qs, n, block)
    requires Commit(s.store, block, cfg.skew).Ok? && |s.chain| + 1 < U64_MAX
    ensures Committed(cfg, qs, n, CommitBlock(cfg, s, block))
  {
    ReplayIndexed(s.chain, cfg.skew);
    LinkedExtend(s.chain, block);
    ReplayExtend(s.chain, block, cfg.skew);
    var chain := s.chain + [block];
    forall k | 0 <= k < |chain| ensures Decided(qs, n, chain[k]) {
      if k < |s.chain| { assert Decided(qs, n, s.chain[k]); }
    }
  }

  /** A new height starts without a lock and without votes. */
  lemma CommitRules(qs: Quorums, n: Net, n': Net, s: NodeState, s': NodeState)
    requires Grows(n, n') && AllPast(n) && Rules(qs, n, s) && Past(s)
    requires s'.signed == s.signed && s'.locked.None? && s'.height == s.height + 1
    ensures Rules(qs, n', s')
  {
    PrevotesMove(qs, n, n', s, s');
    PrecommitsMove(qs, n, n', s, s');
    forall v | v in s'.signed ensures v.height < s'.height {
      assert AtOrBefore(v, s);
    }
  }

  lemma CommitSound(cfg: Config, qs: Quorums, n: Net, i: NodeId, s': NodeState)
    requires i in n.nodes && Sound(cfg, qs, n, i) && Committed(cfg, qs, n, s')
    requires s'.id == i && s'.signed == n.nodes[i].signed && s'.height == n.nodes[i].height + 1 && s'.rs == NEW_ROUND
    ensures Grows(n, Update(n, i, s')) && Sound(cfg, qs, Update(n, i, s'), i)
  {
    var n', s := Update(n, i, s'), n.nodes[i];
    UpdateGrows(n, i, s');
    assert AllBacked(n, s');
    BackedMoves(n, n', s');
    CommittedMoves(cfg, qs, n, n', s', s');
    forall v | v in s'.signed ensures v.validator == i && AtOrBefore(v, s') {
      assert AtOrBefore(v, s);
    }
    assert Tallied(n', s') && Held(cfg, n', s');
  }

  lemma CommitOkKeeps(cfg: Config, qs: Quorums, n: Net, i: NodeId, s': NodeState)
    requires Inv(cfg, qs, n) && i in n.nodes && Committed(cfg, qs, n, s')
    requires s'.id == i && s'.signed == n.nodes[i].signed && s'.locked.None?
    requires s'.height == n.nodes[i].height + 1 && s'.rs == NEW_ROUND
    ensures Inv(cfg, qs, Update(n, i, s'))
  {
    var n' := Update(n, i, s');
    assert Sound(cfg, qs, n, i);
    CommitSound(cfg, qs, n, i, s');
    AllPastHolds(cfg, qs, n);
    if Trusted(qs, n') {
      TrustedBefore(qs, n, n');
      assert Locks(qs, n, i);
      CommitRules(qs, n, n', n.nodes[i], s');
    }
    Rebuild(cfg, qs, n, n', i);
  }

  lemma CommitKeeps(cfg: Config, qs: Quorums, n: Net, i: NodeId, block: Block)
    requires Inv(cfg, qs, n) && i in n.nodes && Ready(qs, n.nodes[i], block)
    requires |CommitBlock(cfg, n.nodes[i], block).chain| < U64_MAX
    ensures Inv(cfg, qs, Update(n, i, CommitBlock(cfg, n.nodes[i], block)))
  {
    var s := n.nodes[i];
    var s' := CommitBlock(cfg, s, block);
    assert Sound(cfg, qs, n, i);
    if Commit(s.store, block, cfg.skew).Err? {
      IdleKeeps(cfg, qs, n, i, s');
    } else {
      CommitDecides(cfg, qs, n, s, block);
      CommitChain(cfg, qs, n, s, block);
      CommitOkKeeps(cfg, qs, n, i, s');
    }
  }
}
