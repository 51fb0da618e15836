/** A network of nodes that follow the protocol, among validators that may not, and the
invariant every step of it keeps. */
module Network {
  import opened Base
  import opened Blocks
  import opened Chain
  import opened Validators
  import opened Consensus

  /** The nodes that follow the protocol; the votes other validators have signed; every signed
  proposal, as height, round and header hash; every block that has appeared. Votes and proposals
  only accumulate, and nothing is delivered that was not signed. */
  datatype Net = Net(
    nodes: map<NodeId, NodeState>,
    deviant: set<Vote>,
    proposals: set<(u64, u64, Hash)>,
    blocks: set<Block>)

  datatype Action =
    | Deliver(node: NodeId, sv: SignedVote)
    | Offer(node: NodeId, p: Proposal)
    | Propose(node: NodeId, now: u64)
    | Timer(node: NodeId)
    | Submit(node: NodeId, tx: seq<byte>, broadcast: bool)
    | DeviantVote(v: Vote)
    | DeviantProposal(height: u64, round: u64, bh: Hash)

  ghost predicate Cast(n: Net, v: Vote) {
    if v.validator in n.nodes then v in n.nodes[v.validator].signed else v in n.deviant
  }

  /** Signatures cannot be forged: what verifies was signed. */
  ghost predicate Enabled(cfg: Config, n: Net, a: Action)
    requires cfg.validators != []
  {
    match a
    case Deliver(i, sv) => i in n.nodes && (VerifyVote(cfg, sv) ==> Cast(n, sv.vote))
    case Offer(i, p) =>
      i in n.nodes && (VerifyProposal(cfg, p) ==> (p.height, p.round, BlockHash(p.block.header)) in n.proposals)
    case Propose(i, _) => i in n.nodes
    case Timer(i) => i in n.nodes
    case Submit(i, _, _) => i in n.nodes
    case DeviantVote(v) => v.validator !in n.nodes
    case DeviantProposal(h, r, _) => ProposerFor(cfg, h, r).nodeId !in n.nodes
  }

  function Update(n: Net, i: NodeId, s: NodeState): Net {
    n.(nodes := n.nodes[i := s])
  }

  ghost function Next(cfg: Config, n: Net, a: Action): Net
    requires cfg.validators != [] && Enabled(cfg, n, a)
  {
    match a
    case Deliver(i, sv) => Update(n, i, HandleVote(cfg, n.nodes[i], sv))
    case Offer(i, p) => Update(n.(blocks := n.blocks + {p.block}), i, HandleProposal(cfg, n.nodes[i], p))
    case Propose(i, now) => Update(Announce(cfg, n, n.nodes[i], now), i, MaybePropose(cfg, n.nodes[i], now))
    case Timer(i) => Update(n, i, Expire(cfg, n.nodes[i]))
    case Submit(i, tx, broadcast) => Update(n, i, SubmitTx(n.nodes[i], tx, broadcast))
    case DeviantVote(v) => n.(deviant := n.deviant + {v})
    case DeviantProposal(h, r, bh) => n.(proposals := n.proposals + {(h, r, bh)})
  }

  /** A node about to propose signs its block's header. */
  ghost function Announce(cfg: Config, n: Net, s: NodeState, now: u64): Net
    requires cfg.validators != []
  {
    if !Proposes(cfg, s) then n
    else
      var block := BuildBlock(cfg, s, now);
      n.(proposals := n.proposals + {(s.height, s.round, BlockHash(block.header))}, blocks := n.blocks + {block})
  }

  // ---- Quorums of votes ----

  /** The sets of validators that make a quorum. */
  type Quorums = iset<set<NodeId>>

  ghost function QuorumsOf(cfg: Config): Quorums {
    iset q | QuorumMet(cfg.validators, q)
  }

  ghost predicate Share(a: set<NodeId>, b: set<NodeId>, correct: set<NodeId>) {
    exists c :: c in a && c in b && c in correct
  }

  ghost predicate Meet(qs: Quorums, correct: set<NodeId>) {
    forall a, b {:trigger Share(a, b, correct)} :: a in qs && b in qs ==> Share(a, b, correct)
  }

  ghost predicate NonNil(v: Vote) {
    v.blockHash != ZERO_HASH
  }

  /** Every member of `q` signed this vote. */
  ghost predicate AllCast(n: Net, q: set<NodeId>, h: u64, r: u64, kind: VoteType, bh: Hash) {
    forall id :: id in q ==> Cast(n, Vote(h, r, kind, bh, id))
  }

  ghost predicate VoteQuorum(qs: Quorums, n: Net, h: u64, r: u64, kind: VoteType, bh: Hash) {
    exists q :: q in qs && AllCast(n, q, h, r, kind, bh)
  }

  /** No precommit for a block in an earlier round of this height. */
  ghost predicate NoEarlier(signed: set<Vote>, h: u64, r: u64) {
    forall v :: v in signed && v.kind.Precommit? && NonNil(v) && v.height == h ==> v.round >= r
  }

  /** Prevoted, and without having precommitted a block earlier at this height. */
  ghost predicate FreshVoter(n: Net, id: NodeId, h: u64, r: u64, bh: Hash) {
    Cast(n, Vote(h, r, Prevote, bh, id)) && (id in n.nodes ==> NoEarlier(n.nodes[id].signed, h, r))
  }

  ghost predicate AllFresh(n: Net, q: set<NodeId>, h: u64, r: u64, bh: Hash) {
    forall id :: id in q ==> FreshVoter(n, id, h, r, bh)
  }

  /** The first prevote quorum for a block in a round is of fresh voters: a node locked on
  another block prevotes it only after seeing such a quorum. */
  ghost predicate FreshQuorum(qs: Quorums, n: Net, h: u64, r: u64, bh: Hash) {
    exists q :: q in qs && AllFresh(n, q, h, r, bh)
  }

  // ---- What holds of every node ----

  ghost predicate AtOrBefore(v: Vote, s: NodeState) {
    v.height < s.height || (v.height == s.height && v.round <= s.round)
  }

  ghost predicate Past(s: NodeState) {
    forall v :: v in s.signed ==> v.validator == s.id && AtOrBefore(v, s)
  }

  ghost predicate HeaderAt(n: Net, h: u64, r: u64, bh: Hash) {
    exists b :: b in n.blocks && BlockHash(b.header) == bh && b.header.height == h && b.header.round == r
  }

  /** A prevote for a block answers a signed proposal of that round. */
  ghost predicate Backed(n: Net, v: Vote) {
    (v.height, v.round, v.blockHash) in n.proposals && HeaderAt(n, v.height, v.round, v.blockHash)
  }

  ghost predicate AllBacked(n: Net, s: NodeState) {
    forall v :: v in s.signed && v.kind.Prevote? && NonNil(v) ==> Backed(n, v)
  }

  ghost predicate Tallied(n: Net, s: NodeState) {
    forall kind, bh, id :: id in VotesFor(s.rs, kind, bh) ==> Cast(n, Vote(s.height, s.round, kind, bh, id))
  }

  ghost predicate Held(cfg: Config, n: Net, s: NodeState) {
    s.rs.proposal.Some? ==> Fits(cfg, s, s.rs.proposal.value.block) && s.rs.proposal.value.block in n.blocks
  }

  ghost predicate Decided(qs: Quorums, n: Net, b: Block) {
    && b in n.blocks && TxRoot(b.txs) == b.header.txRoot
    && BlockHash(b.header) != ZERO_HASH
    && VoteQuorum(qs, n, b.header.height, b.header.round, Precommit, BlockHash(b.header))
  }

  ghost predicate Committed(cfg: Config, qs: Quorums, n: Net, s: NodeState) {
    && Linked(s.chain) && Replay(s.chain, cfg.skew) == Ok(s.store) && s.height == |s.chain| + 1
    && (forall k :: 0 <= k < |s.chain| ==> Decided(qs, n, s.chain[k]))
  }

  ghost predicate Sound(cfg: Config, qs: Quorums, n: Net, i: NodeId)
    requires i in n.nodes
  {
    var s := n.nodes[i];
    s.id == i && Past(s) && AllBacked(n, s) && Tallied(n, s) && Held(cfg, n, s) && Committed(cfg, qs, n, s)
  }

  /** A prevote for a block is fresh, or follows a fresh quorum for the same block. */
  ghost predicate PrevoteRule(qs: Quorums, n: Net, s: NodeState) {
    forall v :: v in s.signed && v.kind.Prevote? && NonNil(v) ==>
      NoEarlier(s.signed, v.height, v.round) || FreshQuorum(qs, n, v.height, v.round, v.blockHash)
  }

  ghost predicate PrecommitRule(qs: Quorums, n: Net, s: NodeState) {
    forall v :: v in s.signed && v.kind.Precommit? && NonNil(v) ==>
      FreshQuorum(qs, n, v.height, v.round, v.blockHash)
  }

  ghost predicate LockedAt(qs: Quorums, n: Net, s: NodeState, r: u64)
    requires s.locked.Some?
  {
    r <= s.round && FreshQuorum(qs, n, s.height, r, s.locked.value)
  }

  /** The lock stands on a fresh quorum of this height, and is there once a block was precommitted. */
  ghost predicate LockRule(qs: Quorums, n: Net, s: NodeState) {
    && (s.locked.Some? ==> exists r :: LockedAt(qs, n, s, r))
    && (forall v :: v in s.signed && v.kind.Precommit? && NonNil(v) && v.height == s.height ==> s.locked.Some?)
  }

  ghost predicate Rules(qs: Quorums, n: Net, s: NodeState) {
    PrevoteRule(qs, n, s) && PrecommitRule(qs, n, s) && LockRule(qs, n, s)
  }

  ghost predicate Locks(qs: Quorums, n: Net, i: NodeId)
    requires i in n.nodes
  {
    Rules(qs, n, n.nodes[i])
  }

  ghost predicate HeadersBind(blocks: set<Block>) {
    forall a, b :: a in blocks && b in blocks && BlockHash(a.header) == BlockHash(b.header) ==> a.header == b.header
  }

  /** Enough correct validators, and no two headers with one hash. */
  ghost predicate Trusted(qs: Quorums, n: Net) {
    Meet(qs, n.nodes.Keys) && HeadersBind(n.blocks)
  }

  ghost predicate Inv(cfg: Config, qs: Quorums, n: Net) {
    && (forall i {:trigger Sound(cfg, qs, n, i)} :: i in n.nodes ==> Sound(cfg, qs, n, i))
    && (Trusted(qs, n) ==> forall i {:trigger Locks(qs, n, i)} :: i in n.nodes ==> Locks(qs, n, i))
  }

  // ---- Votes and proposals only accumulate ----

  ghost predicate Evolves(s: NodeState, s': NodeState) {
    && s.signed <= s'.signed
    && forall v :: v in s'.signed && v !in s.signed ==>
         v.height > s.height || (v.height == s.height && v.round >= s.round)
  }

  ghost predicate Grows(n: Net, n': Net) {
    && n.nodes.Keys == n'.nodes.Keys
    && (forall i :: i in n.nodes ==> Evolves(n.nodes[i], n'.nodes[i]))
    && n.deviant <= n'.deviant && n.proposals <= n'.proposals && n.blocks <= n'.blocks
  }

  lemma CastGrows(n: Net, n': Net, v: Vote)
    requires Grows(n, n') && Cast(n, v)
    ensures Cast(n', v)
  {
    if v.validator in n.nodes {
      assert Evolves(n.nodes[v.validator], n'.nodes[v.validator]);
    }
  }

  lemma QuorumGrows(qs: Quorums, n: Net, n': Net, h: u64, r: u64, kind: VoteType, bh: Hash)
    requires Grows(n, n') && VoteQuorum(qs, n, h, r, kind, bh)
    ensures VoteQuorum(qs, n', h, r, kind, bh)
  {
    var q :| q in qs && AllCast(n, q, h, r, kind, bh);
    forall id | id in q ensures Cast(n', Vote(h, r, kind, bh, id)) {
      CastGrows(n, n', Vote(h, r, kind, bh, id));
    }
    assert AllCast(n', q, h, r, kind, bh);
  }

  lemma FreshVoterGrows(n: Net, n': Net, id: NodeId, h: u64, r: u64, bh: Hash)
    requires Grows(n, n') && FreshVoter(n, id, h, r, bh)
    requires id in n.nodes ==> Past(n.nodes[id])
    ensures FreshVoter(n', id, h, r, bh)
  {
    CastGrows(n, n', Vote(h, r, Prevote, bh, id));
    if id in n.nodes {
      var s, s' := n.nodes[id], n'.nodes[id];
      assert Evolves(s, s');
      assert AtOrBefore(Vote(h, r, Prevote, bh, id), s);
    }
  }

  ghost predicate AllPast(n: Net) {
    forall i :: i in n.nodes ==> Past(n.nodes[i])
  }

  lemma FreshQuorumGrows(qs: Quorums, n: Net, n': Net, h: u64, r: u64, bh: Hash)
    requires Grows(n, n') && AllPast(n) && FreshQuorum(qs, n, h, r, bh)
    ensures FreshQuorum(qs, n', h, r, bh)
  {
    var q :| q in qs && AllFresh(n, q, h, r, bh);
    forall id | id in q ensures FreshVoter(n', id, h, r, bh) {
      FreshVoterGrows(n, n', id, h, r, bh);
    }
    assert AllFresh(n', q, h, r, bh);
  }

  lemma DecidedGrows(qs: Quorums, n: Net, n': Net, b: Block)
    requires Grows(n, n') && Decided(qs, n, b)
    ensures Decided(qs, n', b)
  {
    QuorumGrows(qs, n, n', b.header.height, b.header.round, Precommit, BlockHash(b.header));
  }

  lemma BackedGrows(n: Net, n': Net, v: Vote)
    requires Grows(n, n') && Backed(n, v)
    ensures Backed(n', v)
  {
    var b :| b in n.blocks && BlockHash(b.header) == v.blockHash && b.header.height == v.height && b.header.round == v.round;
    assert b in n'.blocks;
  }

  lemma BackedMoves(n: Net, n': Net, s: NodeState)
    requires Grows(n, n') && AllBacked(n, s)
    ensures AllBacked(n', s)
  {
    forall v | v in s.signed && v.kind.Prevote? && NonNil(v) ensures Backed(n', v) {
      BackedGrows(n, n', v);
    }
  }

  lemma TalliedMoves(n: Net, n': Net, s: NodeState, s': NodeState)
    requires Grows(n, n') && Tallied(n, s) && s'.rs == s.rs && s'.height == s.height && s'.round == s.round
    ensures Tallied(n', s')
  {
    forall kind, bh, id | id in VotesFor(s.rs, kind, bh) ensures Cast(n', Vote(s.height, s.round, kind, bh, id)) {
      CastGrows(n, n', Vote(s.height, s.round, kind, bh, id));
    }
  }

  lemma HeldMoves(cfg: Config, n: Net, n': Net, s: NodeState, s': NodeState)
    requires Grows(n, n') && Held(cfg, n, s)
    requires s'.rs == s.rs && s'.height == s.height && s'.round == s.round && s'.store == s.store
    ensures Held(cfg, n', s')
  {
  }

  lemma CommittedMoves(cfg: Config, qs: Quorums, n: Net, n': Net, s: NodeState, s': NodeState)
    requires Grows(n, n') && Committed(cfg, qs, n, s)
    requires s'.chain == s.chain && s'.store == s.store && s'.height == s.height
    ensures Committed(cfg, qs, n', s')
  {
    forall k | 0 <= k < |s.chain| ensures Decided(qs, n', s.chain[k]) {
      DecidedGrows(qs, n, n', s.chain[k]);
    }
  }

  lemma SoundGrows(cfg: Config, qs: Quorums, n: Net, n': Net, i: NodeId)
    requires Grows(n, n') && i in n.nodes && Sound(cfg, qs, n, i) && n'.nodes[i] == n.nodes[i]
    ensures Sound(cfg, qs, n', i)
  {
    var s := n.nodes[i];
    BackedMoves(n, n', s);
    TalliedMoves(n, n', s, s);
    HeldMoves(cfg, n, n', s, s);
    CommittedMoves(cfg, qs, n, n', s, s);
  }

  lemma LockMoves(qs: Quorums, n: Net, n': Net, s: NodeState, s': NodeState)
    requires Grows(n, n') && AllPast(n) && LockRule(qs, n, s)
    requires s'.locked == s.locked && s'.height == s.height && s.round <= s'.round
    requires forall v :: v in s'.signed && v.kind.Precommit? && NonNil(v) ==> v in s.signed
    ensures LockRule(qs, n', s')
  {
    if s.locked.Some? {
      var r :| LockedAt(qs, n, s, r);
      FreshQuorumGrows(qs, n, n', s.height, r, s.locked.value);
      assert LockedAt(qs, n', s', r);
    }
  }

  lemma PrecommitsMove(qs: Quorums, n: Net, n': Net, s: NodeState, s': NodeState)
    requires Grows(n, n') && AllPast(n) && PrecommitRule(qs, n, s)
    requires forall v :: v in s'.signed && v.kind.Precommit? && NonNil(v) ==>
      v in s.signed || FreshQuorum(qs, n, v.height, v.round, v.blockHash)
    ensures PrecommitRule(qs, n', s')
  {
    forall v | v in s'.signed && v.kind.Precommit? && NonNil(v)
      ensures FreshQuorum(qs, n', v.height, v.round, v.blockHash)
    {
      FreshQuorumGrows(qs, n, n', v.height, v.round, v.blockHash);
    }
  }

  lemma PrevotesMove(qs: Quorums, n: Net, n': Net, s: NodeState, s': NodeState)
    requires Grows(n, n') && AllPast(n)
    requires forall v :: v in s'.signed && v.kind.Prevote? && NonNil(v) ==>
      NoEarlier(s'.signed, v.height, v.round) || FreshQuorum(qs, n, v.height, v.round, v.blockHash)
    ensures PrevoteRule(qs, n', s')
  {
    forall v | v in s'.signed && v.kind.Prevote? && NonNil(v) && !NoEarlier(s'.signed, v.height, v.round)
      ensures FreshQuorum(qs, n', v.height, v.round, v.blockHash)
    {
      FreshQuorumGrows(qs, n, n', v.height, v.round, v.blockHash);
    }
  }

  /** The lock rules survive whatever leaves signed votes, lock and height alone. */
  lemma RulesMove(qs: Quorums, n: Net, n': Net, s: NodeState, s': NodeState)
    requires Grows(n, n') && AllPast(n) && Rules(qs, n, s)
    requires s.signed == s'.signed && s.locked == s'.locked && s.height == s'.height && s.round <= s'.round
    ensures Rules(qs, n', s')
  {
    LockMoves(qs, n, n', s, s');
    PrecommitsMove(qs, n, n', s, s');
    PrevotesMove(qs, n, n', s, s');
  }

  lemma TrustedBefore(qs: Quorums, n: Net, n': Net)
    requires Grows(n, n') && Trusted(qs, n')
    ensures Trusted(qs, n)
  {
  }

  lemma AllPastHolds(cfg: Config, qs: Quorums, n: Net)
    requires Inv(cfg, qs, n)
    ensures AllPast(n)
  {
    forall i | i in n.nodes ensures Past(n.nodes[i]) {
      assert Sound(cfg, qs, n, i);
    }
  }

  /** To keep the invariant it is enough to keep it at the one node that moved. */
  lemma Rebuild(cfg: Config, qs: Quorums, n: Net, n': Net, i: NodeId)
    requires Inv(cfg, qs, n) && Grows(n, n') && i in n.nodes
    requires forall j :: j in n.nodes && j != i ==> n'.nodes[j] == n.nodes[j]
    requires Sound(cfg, qs, n', i)
    requires Trusted(qs, n') ==> Locks(qs, n', i)
    ensures Inv(cfg, qs, n')
  {
    AllPastHolds(cfg, qs, n);
    forall j | j in n'.nodes ensures Sound(cfg, qs, n', j) {
      if j != i {
        assert Sound(cfg, qs, n, j);
        SoundGrows(cfg, qs, n, n', j);
      }
    }
    if Trusted(qs, n') {
      TrustedBefore(qs, n, n');
      forall j | j in n'.nodes ensures Locks(qs, n', j) {
        if j != i {
          assert Locks(qs, n, j);
          RulesMove(qs, n, n', n.nodes[j], n'.nodes[j]);
        }
      }
    }
  }
}
