/** What a call does to the pool of transactions and to the chain: a commit takes its own
transactions out of the pool and no others, a block that breaks a rule is not voted for, and what
was submitted waits until it is committed. */
module Mempools {
  import opened Base
  import opened Events
  import opened Merkle
  import opened Blocks
  import opened Consensus
  import opened Network
  import opened Handlers
  import opened Conflicts

  // ---- The two limits ----

  /** All the bytes of a list of transactions. */
  function Flat(txs: seq<seq<byte>>): seq<byte> {
    if txs == [] then [] else Flat(txs[..|txs| - 1]) + txs[|txs| - 1]
  }

  lemma {:induction false} TotalIsFlat(txs: seq<seq<byte>>)
    ensures TotalBytes(txs) == |Flat(txs)|
  {
    if txs != [] {
      TotalIsFlat(txs[..|txs| - 1]);
    }
  }

  ghost predicate Small(cfg: Config, b: Block) {
    |Flat(b.txs)| <= cfg.maxBlockBytes && |b.txs| <= cfg.maxEvents
  }

  // ---- What a commit leaves in the pool ----

  /** `after` picks elements of `before` from left to right. */
  ghost predicate Picks<T>(after: seq<T>, before: seq<T>, at: seq<nat>) {
    && |at| == |after| && (forall k :: 0 <= k < |at| ==> at[k] < |before| && after[k] == before[at[k]])
    && (forall j, k :: 0 <= j < k < |at| ==> at[j] < at[k])
  }

  ghost predicate Listed(tx: seq<byte>, txs: seq<seq<byte>>) {
    exists k :: 0 <= k < |txs| && TxHash(txs[k]) == TxHash(tx)
  }

  /** The pool without the transactions of a block: every copy of those is gone, every copy of any
  other is there, in the old order. */
  ghost predicate Without(before: seq<seq<byte>>, txs: seq<seq<byte>>, after: seq<seq<byte>>) {
    && (forall tx :: multiset(after)[tx] == if Listed(tx, txs) then 0 else multiset(before)[tx])
    && (exists at :: Picks(after, before, at))
  }

  lemma {:induction false} PrunedPicks(mempool: seq<seq<byte>>, committed: set<Hash>) returns (at: seq<nat>)
    ensures Picks(Pruned(mempool, committed), mempool, at)
  {
    if mempool == [] {
      at := [];
    } else {
      var n := |mempool| - 1;
      at := PrunedPicks(mempool[..n], committed);
      if TxHash(mempool[n]) !in committed {
        at := at + [n];
      }
    }
  }

  lemma PrunedWithout(mempool: seq<seq<byte>>, txs: seq<seq<byte>>)
    ensures Without(mempool, txs, Pruned(mempool, HashSet(txs)))
  {
    forall tx ensures multiset(Pruned(mempool, HashSet(txs)))[tx] == if Listed(tx, txs) then 0 else multiset(mempool)[tx] {
      PrunedExact(mempool, HashSet(txs), tx);
    }
    var at := PrunedPicks(mempool, HashSet(txs));
  }

  // ---- One call ----

  ghost predicate HoldsSmall(cfg: Config, s: NodeState) {
    s.rs.proposal.Some? ==> Small(cfg, s.rs.proposal.value.block)
  }

  /** Nothing is committed and the pool is as before, or one small block is committed and the pool
  is without its transactions. */
  ghost predicate Settles(cfg: Config, s: NodeState, s': NodeState) {
    || (s'.chain == s.chain && s'.mempool == s.mempool && (HoldsSmall(cfg, s) ==> HoldsSmall(cfg, s')))
    || (exists b :: s'.chain == s.chain + [b] && Without(s.mempool, b.txs, s'.mempool)
                    && (HoldsSmall(cfg, s) ==> Small(cfg, b)) && s'.rs.proposal.None?)
  }

  lemma SettlesQuietly(cfg: Config, s: NodeState, t: NodeState, t': NodeState, s': NodeState)
    requires t.chain == s.chain && t.mempool == s.mempool && (HoldsSmall(cfg, s) ==> HoldsSmall(cfg, t)) && Settles(cfg, t, t')
    requires s'.chain == t'.chain && s'.mempool == t'.mempool && s'.rs == t'.rs
    ensures Settles(cfg, s, s')
  {
    if t'.chain != t.chain {
      var b :| t'.chain == t.chain + [b] && Without(t.mempool, b.txs, t'.mempool)
               && (HoldsSmall(cfg, t) ==> Small(cfg, b)) && t'.rs.proposal.None?;
      assert s'.chain == s.chain + [b];
    }
  }

  lemma CommitSettles(cfg: Config, s: NodeState, b: Block)
    requires s.rs.proposal.Some? && s.rs.proposal.value.block == b
    ensures Settles(cfg, s, CommitBlock(cfg, s, b))
  {
    PrunedWithout(s.mempool, b.txs);
  }

  lemma PrecommitSettles(cfg: Config, s: NodeState, sv: SignedVote)
    ensures Settles(cfg, s, OnPrecommit(cfg, s, sv))
  {
    if Accepts(cfg, s, sv) {
      var s1 := Count(cfg, s, sv);
      if s1.rs.proposal.Some? {
        CommitSettles(cfg, s1, s1.rs.proposal.value.block);
        var s2 := CommitBlock(cfg, s1, s1.rs.proposal.value.block);
        SettlesQuietly(cfg, s, s1, s2, s2);
      }
    }
  }

  lemma CastPrecommitSettles(cfg: Config, s: NodeState, h: Hash)
    ensures Settles(cfg, s, CastPrecommit(cfg, s, h))
  {
    var sv := Ballot(s, Precommit, h);
    var s0 := Sign(s, sv.vote);
    PrecommitSettles(cfg, s0, sv);
    SettlesQuietly(cfg, s, s0, OnPrecommit(cfg, s0, sv), CastPrecommit(cfg, s, h));
  }

  lemma PrevoteSettles(cfg: Config, s: NodeState, sv: SignedVote)
    ensures Settles(cfg, s, OnPrevote(cfg, s, sv))
  {
    if Accepts(cfg, s, sv) {
      var s1 := Count(cfg, s, sv);
      if HasQuorum(cfg, s1, sv.vote) {
        var s2 := s1.(locked := Some(sv.vote.blockHash));
        CastPrecommitSettles(cfg, s2, sv.vote.blockHash);
        SettlesQuietly(cfg, s, s2, CastPrecommit(cfg, s2, sv.vote.blockHash), OnPrevote(cfg, s, sv));
      }
    }
  }

  lemma CastPrevoteSettles(cfg: Config, s: NodeState, h: Hash)
    ensures Settles(cfg, s, CastPrevote(cfg, s, h))
  {
    var sv := Ballot(s, Prevote, h);
    var s0 := Sign(s, sv.vote);
    PrevoteSettles(cfg, s0, sv);
    SettlesQuietly(cfg, s, s0, OnPrevote(cfg, s0, sv), CastPrevote(cfg, s, h));
  }

  lemma ProposalSettles(cfg: Config, s: NodeState, p: Proposal)
    requires cfg.validators != []
    ensures Settles(cfg, s, HandleProposal(cfg, s, p))
  {
    if Considers(cfg, s, p) {
      if Fits(cfg, s, p.block) {
        TotalIsFlat(p.block.txs);
        var s1 := s.(rs := s.rs.(proposal := Some(p)));
        var h := Choice(s1, BlockHash(p.block.header));
        CastPrevoteSettles(cfg, s1, h);
        SettlesQuietly(cfg, s, s1, CastPrevote(cfg, s1, h), HandleProposal(cfg, s, p));
      } else {
        CastPrevoteSettles(cfg, s, ZERO_HASH);
        SettlesQuietly(cfg, s, s, CastPrevote(cfg, s, ZERO_HASH), HandleProposal(cfg, s, p));
      }
    }
  }

  lemma ProposeSettles(cfg: Config, s: NodeState, now: u64)
    requires cfg.validators != []
    ensures Settles(cfg, s, MaybePropose(cfg, s, now))
  {
    if Proposes(cfg, s) {
      var p := SignProposal(s, BuildBlock(cfg, s, now));
      var s1 := Send(s.(rs := s.rs.(proposed := true, proposal := Some(p))), ProposalMessage(p));
      BuildFits(cfg, s, now);
      TotalIsFlat(p.block.txs);
      ProposalSettles(cfg, s1, p);
      SettlesQuietly(cfg, s, s1, HandleProposal(cfg, s1, p), MaybePropose(cfg, s, now));
    }
  }

  lemma TimerSettles(cfg: Config, s: NodeState)
    ensures Settles(cfg, s, Expire(cfg, s))
  {
    if !s.halted && s.phase.Proposing? && s.rs.proposal.None? {
      CastPrevoteSettles(cfg, s, ZERO_HASH);
      SettlesQuietly(cfg, s, s, CastPrevote(cfg, s, ZERO_HASH), Expire(cfg, s));
    } else if !s.halted && s.phase.Prevoting? {
      CastPrecommitSettles(cfg, s, ZERO_HASH);
      SettlesQuietly(cfg, s, s, CastPrecommit(cfg, s, ZERO_HASH), Expire(cfg, s));
    }
  }

  /** Every call but a submission: the pool changes by a commit, and by that alone. */
  lemma PoolExact(cfg: Config, s: NodeState, sv: SignedVote, p: Proposal, now: u64)
    requires cfg.validators != []
    ensures Settles(cfg, s, HandleVote(cfg, s, sv)) && Settles(cfg, s, HandleProposal(cfg, s, p))
    ensures Settles(cfg, s, MaybePropose(cfg, s, now)) && Settles(cfg, s, Expire(cfg, s))
  {
    PrevoteSettles(cfg, s, sv);
    PrecommitSettles(cfg, s, sv);
    ProposalSettles(cfg, s, p);
    ProposeSettles(cfg, s, now);
    TimerSettles(cfg, s);
  }

  // ---- What draws a vote ----

  /** A block for this height, round and tip, with the root of its transactions and within both limits. */
  ghost predicate Acceptable(cfg: Config, s: NodeState, b: Block) {
    && b.header.height == s.height && b.header.round == s.round && b.header.prevBlockHash == s.store.snap.tipHash
    && b.header.txRoot == RootOrZero(TxHashes(b.txs)) && Small(cfg, b)
  }

  lemma AcceptableFits(cfg: Config, s: NodeState, b: Block)
    ensures Fits(cfg, s, b) <==> Acceptable(cfg, s, b)
  {
    TotalIsFlat(b.txs);
  }

  /** A verified proposal for this height and round: a block that breaks any rule draws the nil
  prevote, nothing else, and is not held; one that breaks none draws a prevote for it, unless the
  node is locked on another. */
  lemma ProposalVerdict(cfg: Config, s: NodeState, p: Proposal)
    requires cfg.validators != [] && Considers(cfg, s, p)
    ensures var s', h := HandleProposal(cfg, s, p), BlockHash(p.block.header);
            if !Acceptable(cfg, s, p.block)
            then s'.signed == s.signed + {Own(s, Prevote, ZERO_HASH)} && s'.rs.proposal == s.rs.proposal
            else if s.locked.Some? && s.locked.value != h
            then s'.signed == s.signed + {Own(s, Prevote, ZERO_HASH)} && s'.rs.proposal == Some(p)
            else Own(s, Prevote, h) in s'.signed && (s'.chain == s.chain ==> s'.rs.proposal == Some(p))
  {
    AcceptableFits(cfg, s, p.block);
    ProposalSigns(cfg, s, p);
    NilKeepsProposal(cfg, s);
    var s1 := s.(rs := s.rs.(proposal := Some(p)));
    NilKeepsProposal(cfg, s1);
    if Fits(cfg, s, p.block) && Choice(s1, BlockHash(p.block.header)) != ZERO_HASH {
      PrevoteKeepsProposal(cfg, s1, Choice(s1, BlockHash(p.block.header)));
    }
  }

  lemma NilKeepsProposal(cfg: Config, s: NodeState)
    ensures CastPrevote(cfg, s, ZERO_HASH).rs.proposal == s.rs.proposal
  {
  }

  lemma PrecommitKeepsProposal(cfg: Config, s: NodeState, h: Hash)
    ensures CastPrecommit(cfg, s, h).chain == s.chain ==> CastPrecommit(cfg, s, h).rs.proposal == s.rs.proposal
  {
  }

  lemma PrevoteKeepsProposal(cfg: Config, s: NodeState, h: Hash)
    ensures CastPrevote(cfg, s, h).chain == s.chain ==> CastPrevote(cfg, s, h).rs.proposal == s.rs.proposal
  {
    var sv := Ballot(s, Prevote, h);
    var s0 := Sign(s, sv.vote);
    if Accepts(cfg, s0, sv) {
      PrecommitKeepsProposal(cfg, Count(cfg, s0, sv).(locked := Some(h)), h);
    }
  }

  // ---- Over every run ----

  /** What a submission does: it is not the empty transaction, and it waits behind all others. */
  lemma SubmitQueues(cfg: Config, s: NodeState, tx: seq<byte>, broadcast: bool)
    ensures var s' := SubmitTx(s, tx, broadcast);
            && s'.chain == s.chain && s'.rs == s.rs
            && (s.halted || tx == [] ==> s' == s)
            && (!s.halted && tx != [] ==>
                && s'.mempool == s.mempool + [tx]
                && s'.outbox == s.outbox + if broadcast then [TxMessage(tx)] else [])
  {
  }

  ghost predicate AllSmall(cfg: Config, s: NodeState) {
    HoldsSmall(cfg, s) && forall k :: 0 <= k < |s.chain| ==> Small(cfg, s.chain[k])
  }

  lemma SettlesSmall(cfg: Config, s: NodeState, s': NodeState)
    requires AllSmall(cfg, s) && Settles(cfg, s, s')
    ensures AllSmall(cfg, s')
  {
  }

  /** In the pool, or committed. */
  ghost predicate Tracked(s: NodeState, tx: seq<byte>) {
    tx in s.mempool || exists k :: 0 <= k < |s.chain| && Listed(tx, s.chain[k].txs)
  }

  lemma SettlesTracked(cfg: Config, s: NodeState, s': NodeState, tx: seq<byte>)
    requires Settles(cfg, s, s') && Tracked(s, tx)
    ensures Tracked(s', tx)
  {
    if s'.chain != s.chain {
      var b :| s'.chain == s.chain + [b] && Without(s.mempool, b.txs, s'.mempool);
      if k :| 0 <= k < |s.chain| && Listed(tx, s.chain[k].txs) {
        assert s'.chain[k] == s.chain[k];
      } else if Listed(tx, b.txs) {
        assert s'.chain[|s.chain|] == b;
      } else {
        assert multiset(s'.mempool)[tx] == multiset(s.mempool)[tx];
        assert tx in multiset(s'.mempool);
      }
    }
  }

  lemma StepSettles(cfg: Config, n: Net, a: Action, i: NodeId)
    requires cfg.validators != [] && Enabled(cfg, n, a) && i in n.nodes && !(a.Submit? && a.node == i)
    ensures i in Next(cfg, n, a).nodes && Settles(cfg, n.nodes[i], Next(cfg, n, a).nodes[i])
  {
    var s := n.nodes[i];
    if At(a, i) {
      match a {
        case Deliver(_, sv) =>
          if sv.vote.kind.Prevote? { PrevoteSettles(cfg, s, sv); } else { PrecommitSettles(cfg, s, sv); }
        case Offer(_, p) => ProposalSettles(cfg, s, p);
        case Propose(_, now) => ProposeSettles(cfg, s, now);
        case Timer(_) => TimerSettles(cfg, s);
      }
    }
  }

  lemma NextSmall(cfg: Config, n: Net, a: Action, i: NodeId)
    requires cfg.validators != [] && Enabled(cfg, n, a) && i in n.nodes && AllSmall(cfg, n.nodes[i])
    ensures i in Next(cfg, n, a).nodes && AllSmall(cfg, Next(cfg, n, a).nodes[i])
  {
    if a.Submit? && a.node == i {
      SubmitQueues(cfg, n.nodes[i], a.tx, a.broadcast);
    } else {
      StepSettles(cfg, n, a, i);
      SettlesSmall(cfg, n.nodes[i], Next(cfg, n, a).nodes[i]);
    }
  }

  lemma NextTracked(cfg: Config, n: Net, a: Action, i: NodeId, tx: seq<byte>)
    requires cfg.validators != [] && Enabled(cfg, n, a) && i in n.nodes && Tracked(n.nodes[i], tx)
    ensures i in Next(cfg, n, a).nodes && Tracked(Next(cfg, n, a).nodes[i], tx)
  {
    if a.Submit? && a.node == i {
      SubmitQueues(cfg, n.nodes[i], a.tx, a.broadcast);
    } else {
      StepSettles(cfg, n, a, i);
      SettlesTracked(cfg, n.nodes[i], Next(cfg, n, a).nodes[i], tx);
    }
  }

  lemma {:induction false} RunSmall(cfg: Config, n: Net, acts: seq<Action>, i: NodeId)
    requires cfg.validators != [] && Runs(cfg, n, acts) && i in n.nodes && AllSmall(cfg, n.nodes[i])
    ensures i in After(cfg, n, acts).nodes && AllSmall(cfg, After(cfg, n, acts).nodes[i])
    decreases |acts|
  {
    if acts != [] {
      NextSmall(cfg, n, acts[0], i);
      RunSmall(cfg, Next(cfg, n, acts[0]), acts[1..], i);
    }
  }

  /** In every reachable state, every block a correct node has committed is within both limits. */
  lemma ChainWithinLimits(cfg: Config, correct: set<NodeId>, acts: seq<Action>, i: NodeId, k: nat)
    requires cfg.validators != [] && Runs(cfg, Start(cfg, correct), acts) && i in correct
    ensures i in After(cfg, Start(cfg, correct), acts).nodes
    ensures var chain := After(cfg, Start(cfg, correct), acts).nodes[i].chain;
            k < |chain| ==> |chain[k].txs| <= cfg.maxEvents && |Flat(chain[k].txs)| <= cfg.maxBlockBytes
  {
    RunSmall(cfg, Start(cfg, correct), acts, i);
  }

  /** A transaction given to a node that has not halted is in its pool or in its chain after every
  continuation of the run. */
  lemma {:induction false} NothingIsLost(cfg: Config, n: Net, acts: seq<Action>, i: NodeId, tx: seq<byte>)
    requires cfg.validators != [] && Runs(cfg, n, acts) && i in n.nodes
    requires Tracked(n.nodes[i], tx) ||
             (acts != [] && acts[0].Submit? && acts[0].node == i && acts[0].tx == tx && tx != [] && !n.nodes[i].halted)
    ensures i in After(cfg, n, acts).nodes && Tracked(After(cfg, n, acts).nodes[i], tx)
    decreases |acts|
  {
    if acts != [] {
      if Tracked(n.nodes[i], tx) {
        NextTracked(cfg, n, acts[0], i, tx);
      } else {
        SubmitQueues(cfg, n.nodes[i], tx, acts[0].broadcast);
      }
      NothingIsLost(cfg, Next(cfg, n, acts[0]), acts[1..], i, tx);
    }
  }
}
