/** What a node does with proposals and votes when there are four validators of unit power, so
that three make a quorum. */
module Four {
  import opened Base
  import opened Apply
  import opened Blocks
  import opened Chain
  import opened Slashing
  import opened Validators
  import opened Consensus
  import opened Solo

  ghost predicate FourSign(cfg: Config) {
    |cfg.validators| == 4 && UnitPower(cfg.validators) && forall v :: v in cfg.validators ==> Signs(v)
  }

  function SignedBy(v: Vote): SignedVote {
    SignedVote(v, Ed25519Sign(v.validator, VoteBytes(v)))
  }

  lemma {:induction false} ByIdAt(vs: seq<ValidatorInfo>, k: nat)
    requires UnitPower(vs) && k < |vs|
    ensures vs[k].nodeId in ById(vs) && ById(vs)[vs[k].nodeId] == vs[k]
  {
    var n := |vs| - 1;
    if k < n {
      ByIdAt(vs[..n], k);
    }
  }

  lemma Verifies(cfg: Config, v: Vote)
    requires FourSign(cfg) && v.validator in Ids(cfg.validators)
    ensures VerifyVote(cfg, SignedBy(v))
  {
    var k :| 0 <= k < |cfg.validators| && cfg.validators[k].nodeId == v.validator;
    ByIdAt(cfg.validators, k);
    assert Signs(cfg.validators[k]);
  }

  lemma ThreeOfFour(cfg: Config, q: set<NodeId>)
    requires FourSign(cfg) && q <= Ids(cfg.validators)
    ensures QuorumMet(cfg.validators, q) <==> |q| >= 3
  {
    UnitQuorum(cfg.validators, q);
    assert q * Ids(cfg.validators) == q;
  }

  // ---- Counting a vote ----

  ghost predicate Unseen(s: NodeState, kind: VoteType, x: NodeId) {
    Seen(s.slashes.votes, (s.height, s.round, kind), x).None?
  }

  /** No vote of this kind and round is on record but those of `seen`. */
  ghost predicate Only(s: NodeState, kind: VoteType, seen: set<NodeId>) {
    forall x :: x !in seen ==> Unseen(s, kind, x)
  }

  lemma OnlyKept(s: NodeState, s': NodeState, kind: VoteType, seen: set<NodeId>)
    requires Only(s, kind, seen) && s'.slashes == s.slashes && s'.height == s.height && s'.round == s.round
    ensures Only(s', kind, seen)
  {
    forall x | x !in seen ensures Unseen(s', kind, x) {
      assert Unseen(s, kind, x);
    }
  }

  lemma OnlyGrows(s: NodeState, s': NodeState, kind: VoteType, seen: set<NodeId>, heard: VoteType, y: NodeId)
    requires Only(s, kind, seen) && Unseens(s, s', heard, y)
    ensures Only(s', kind, if kind == heard then seen + {y} else seen)
  {
    forall x | x !in if kind == heard then seen + {y} else seen ensures Unseen(s', kind, x) {
      assert Unseen(s, kind, x);
    }
  }

  /** What counting a vote leaves alone. */
  ghost predicate Same(s: NodeState, s': NodeState) {
    && s'.id == s.id && s'.halted == s.halted && s'.height == s.height && s'.round == s.round && s'.store == s.store
    && s'.chain == s.chain && s'.rs.proposal == s.rs.proposal && s.signed <= s'.signed
  }

  ghost predicate Heard(s: NodeState, s': NodeState, kind: VoteType, bh: Hash, x: NodeId) {
    forall k, h :: VotesFor(s'.rs, k, h) == VotesFor(s.rs, k, h) + if k == kind && h == bh then {x} else {}
  }

  /** Everyone not heard in this kind is as unseen as before. */
  ghost predicate Unseens(s: NodeState, s': NodeState, kind: VoteType, x: NodeId) {
    forall k, y :: Unseen(s, k, y) && !(k == kind && y == x) ==> Unseen(s', k, y)
  }

  lemma CountHears(cfg: Config, s: NodeState, sv: SignedVote)
    requires Accepts(cfg, s, sv)
    ensures var s1 := Count(cfg, s, sv);
            && Same(s, s1) && s1.signed == s.signed && s1.locked == s.locked
            && Heard(s, s1, sv.vote.kind, sv.vote.blockHash, sv.vote.validator)
            && Unseens(s, s1, sv.vote.kind, sv.vote.validator)
            && s1.slashes.jailed.Keys <= s.slashes.jailed.Keys + {sv.vote.validator}
            && (Unseen(s, sv.vote.kind, sv.vote.validator) ==> s1.slashes.jailed == s.slashes.jailed)
  {
    CountUnseens(cfg, s, sv);
  }

  lemma CountUnseens(cfg: Config, s: NodeState, sv: SignedVote)
    requires Accepts(cfg, s, sv)
    ensures Unseens(s, Count(cfg, s, sv), sv.vote.kind, sv.vote.validator)
  {
    var s1 := Count(cfg, s, sv);
    forall k, y | Unseen(s, k, y) && !(k == sv.vote.kind && y == sv.vote.validator) ensures Unseen(s1, k, y) {
      RecordLeaves(s.slashes.votes, sv, (s.height, s.round, k), y);
    }
  }

  lemma RecordLeaves(book: VoteBook, sv: SignedVote, key: VoteKey, y: NodeId)
    requires Seen(book, key, y).None? && !(key == KeyOf(sv.vote) && y == sv.vote.validator)
    ensures Seen(RecordVotes(book, sv), key, y).None?
  {
  }

  // ---- A node that votes for one block of its round ----

  /** At height 1, nothing committed, nobody jailed. */
  ghost predicate Starting(s: NodeState, id: NodeId, r: u64) {
    && s.id == id && !s.halted && s.height == 1 && s.round == r && s.store == NO_STORE && s.chain == []
    && s.slashes.jailed == map[]
  }

  ghost predicate Voting(cfg: Config, s: NodeState, id: NodeId, p: Proposal, prevoted: set<NodeId>, precommitted: set<NodeId>) {
    && Starting(s, id, p.round) && s.rs.proposal == Some(p)
    && prevoted <= Ids(cfg.validators) && precommitted <= Ids(cfg.validators)
    && VotesFor(s.rs, Prevote, BlockHash(p.block.header)) == prevoted
    && VotesFor(s.rs, Precommit, BlockHash(p.block.header)) == precommitted
    && Only(s, Prevote, prevoted) && Only(s, Precommit, precommitted)
  }

  ghost predicate Proposable(cfg: Config, p: Proposal) {
    && FourSign(cfg) && p.height == 1 && p.block.txs == [] && BlockHash(p.block.header) != ZERO_HASH
    && ValidBlock(cfg, 1, p.round, ZERO_HASH, p.block) && VerifyProposal(cfg, p)
  }

  function VoteFor(p: Proposal, kind: VoteType, x: NodeId): SignedVote {
    SignedBy(Vote(p.height, p.round, kind, BlockHash(p.block.header), x))
  }

  lemma AcceptsVote(cfg: Config, s: NodeState, id: NodeId, p: Proposal, kind: VoteType, x: NodeId)
    requires Proposable(cfg, p) && Starting(s, id, p.round) && x in Ids(cfg.validators)
    ensures Accepts(cfg, s, VoteFor(p, kind, x))
  {
    Verifies(cfg, VoteFor(p, kind, x).vote);
  }

  lemma CountVoting(cfg: Config, s: NodeState, id: NodeId, p: Proposal, prevoted: set<NodeId>, precommitted: set<NodeId>,
                    kind: VoteType, x: NodeId)
    requires Proposable(cfg, p) && Voting(cfg, s, id, p, prevoted, precommitted) && x in Ids(cfg.validators)
    requires x !in if kind.Prevote? then prevoted else precommitted
    ensures Accepts(cfg, s, VoteFor(p, kind, x))
    ensures var s1 := Count(cfg, s, VoteFor(p, kind, x));
            && Voting(cfg, s1, id, p, if kind.Prevote? then prevoted + {x} else prevoted,
                      if kind.Precommit? then precommitted + {x} else precommitted)
            && s1.signed == s.signed
  {
    AcceptsVote(cfg, s, id, p, kind, x);
    CountHears(cfg, s, VoteFor(p, kind, x));
    var s1 := Count(cfg, s, VoteFor(p, kind, x));
    OnlyGrows(s, s1, Prevote, prevoted, kind, x);
    OnlyGrows(s, s1, Precommit, precommitted, kind, x);
  }

  /** Voting does not depend on lock, phase, outbox or signed votes. */
  lemma VotingKept(cfg: Config, s: NodeState, s': NodeState, id: NodeId, p: Proposal, prevoted: set<NodeId>, precommitted: set<NodeId>)
    requires Voting(cfg, s, id, p, prevoted, precommitted)
    requires Starting(s', id, p.round) && s'.slashes == s.slashes && s'.rs == s.rs
    ensures Voting(cfg, s', id, p, prevoted, precommitted)
  {
    OnlyKept(s, s', Prevote, prevoted);
    OnlyKept(s, s', Precommit, precommitted);
  }

  /** A prevote short of a quorum. */
  lemma HearPrevote(cfg: Config, s: NodeState, id: NodeId, p: Proposal, prevoted: set<NodeId>, precommitted: set<NodeId>, x: NodeId)
    requires Proposable(cfg, p) && Voting(cfg, s, id, p, prevoted, precommitted)
    requires x in Ids(cfg.validators) && x !in prevoted && |prevoted + {x}| < 3
    ensures var s1 := HandleVote(cfg, s, VoteFor(p, Prevote, x));
            Voting(cfg, s1, id, p, prevoted + {x}, precommitted) && s1.signed == s.signed
  {
    CountVoting(cfg, s, id, p, prevoted, precommitted, Prevote, x);
    ThreeOfFour(cfg, prevoted + {x});
  }

  lemma HearPrecommit(cfg: Config, s: NodeState, id: NodeId, p: Proposal, prevoted: set<NodeId>, precommitted: set<NodeId>, x: NodeId)
    requires Proposable(cfg, p) && Voting(cfg, s, id, p, prevoted, precommitted)
    requires x in Ids(cfg.validators) && x !in precommitted && |precommitted + {x}| < 3
    ensures var s1 := HandleVote(cfg, s, VoteFor(p, Precommit, x));
            Voting(cfg, s1, id, p, prevoted, precommitted + {x}) && s1.signed == s.signed
  {
    CountVoting(cfg, s, id, p, prevoted, precommitted, Precommit, x);
    ThreeOfFour(cfg, precommitted + {x});
  }

  lemma OwnPrecommit(cfg: Config, s: NodeState, id: NodeId, p: Proposal, prevoted: set<NodeId>)
    requires Proposable(cfg, p) && Voting(cfg, s, id, p, prevoted, {}) && id in Ids(cfg.validators)
    ensures var s1 := CastPrecommit(cfg, s, BlockHash(p.block.header));
            && Voting(cfg, s1, id, p, prevoted, {id})
            && s1.signed == s.signed + {VoteFor(p, Precommit, id).vote}
  {
    var sv := VoteFor(p, Precommit, id);
    assert Ballot(s, Precommit, BlockHash(p.block.header)) == sv;
    var s0 := Sign(s, sv.vote);
    VotingKept(cfg, s, s0, id, p, prevoted, {});
    CountVoting(cfg, s0, id, p, prevoted, {}, Precommit, id);
    var s1 := Count(cfg, s0, sv);
    assert {} + {id} == {id};
    ThreeOfFour(cfg, {id});
    VotingKept(cfg, s1, Send(s1, VoteMessage(sv)), id, p, prevoted, {id});
  }

  /** The prevote that makes the quorum: the node locks and precommits. */
  lemma HearQuorum(cfg: Config, s: NodeState, id: NodeId, p: Proposal, prevoted: set<NodeId>, x: NodeId)
    requires Proposable(cfg, p) && Voting(cfg, s, id, p, prevoted, {}) && id in Ids(cfg.validators)
    requires x in Ids(cfg.validators) && x !in prevoted && |prevoted + {x}| >= 3
    ensures var s1 := HandleVote(cfg, s, VoteFor(p, Prevote, x));
            && Voting(cfg, s1, id, p, prevoted + {x}, {id})
            && s1.signed == s.signed + {VoteFor(p, Precommit, id).vote}
  {
    CountVoting(cfg, s, id, p, prevoted, {}, Prevote, x);
    ThreeOfFour(cfg, prevoted + {x});
    var s0 := Count(cfg, s, VoteFor(p, Prevote, x));
    var s1 := s0.(locked := Some(BlockHash(p.block.header)));
    VotingKept(cfg, s0, s1, id, p, prevoted + {x}, {});
    OwnPrecommit(cfg, s1, id, p, prevoted + {x});
    var s2 := CastPrecommit(cfg, s1, BlockHash(p.block.header));
    VotingKept(cfg, s2, SetPhase(s2, Precommitting), id, p, prevoted + {x}, {id});
  }

  /** The precommit that makes the quorum: the block is committed. */
  lemma HearDecision(cfg: Config, s: NodeState, id: NodeId, p: Proposal, prevoted: set<NodeId>, precommitted: set<NodeId>, x: NodeId)
    requires Proposable(cfg, p) && Voting(cfg, s, id, p, prevoted, precommitted)
    requires x in Ids(cfg.validators) && x !in precommitted && |precommitted + {x}| >= 3
    ensures var s1 := HandleVote(cfg, s, VoteFor(p, Precommit, x));
            !s1.halted && s1.chain == [p.block] && s1.signed == s.signed
  {
    CountVoting(cfg, s, id, p, prevoted, precommitted, Precommit, x);
    ThreeOfFour(cfg, precommitted + {x});
    var s1 := Count(cfg, s, VoteFor(p, Precommit, x));
    assert HandleVote(cfg, s, VoteFor(p, Precommit, x)) == CommitBlock(cfg, s1, p.block);
    EmptyCommits(cfg, s1, p.block);
  }

  lemma EmptyCommits(cfg: Config, s: NodeState, block: Block)
    requires s.store == NO_STORE && s.chain == [] && !s.halted && block.txs == []
    ensures var s1 := CommitBlock(cfg, s, block); !s1.halted && s1.chain == [block] && s1.signed == s.signed
  {
    assert ApplyTxs(NO_BOOKS, [], cfg.skew).Ok?;
  }

  /** Before any vote of the round. */
  ghost predicate Clear(s: NodeState, id: NodeId, r: u64) {
    && Starting(s, id, r) && s.locked.None? && s.rs.prevotes == map[] && s.rs.precommits == map[]
    && Only(s, Prevote, {}) && Only(s, Precommit, {})
  }

  lemma OwnPrevote(cfg: Config, s: NodeState, id: NodeId, p: Proposal)
    requires Proposable(cfg, p) && Voting(cfg, s, id, p, {}, {}) && id in Ids(cfg.validators)
    ensures var s1 := CastPrevote(cfg, s, BlockHash(p.block.header));
            && Voting(cfg, s1, id, p, {id}, {}) && s1.locked == s.locked
            && s1.signed == s.signed + {VoteFor(p, Prevote, id).vote}
            && Heard(s, s1, Prevote, BlockHash(p.block.header), id)
  {
    var sv := VoteFor(p, Prevote, id);
    assert Ballot(s, Prevote, BlockHash(p.block.header)) == sv;
    var s0 := Sign(s, sv.vote);
    VotingKept(cfg, s, s0, id, p, {}, {});
    CountVoting(cfg, s0, id, p, {}, {}, Prevote, id);
    CountHears(cfg, s0, sv);
    var s1 := Count(cfg, s0, sv);
    assert {} + {id} == {id};
    ThreeOfFour(cfg, {id});
    VotingKept(cfg, s1, Send(s1, VoteMessage(sv)), id, p, {id}, {});
  }

  /** A node that takes up a proposal, with nothing counted yet. */
  lemma TakesUp(cfg: Config, s: NodeState, s': NodeState, id: NodeId, p: Proposal)
    requires Proposable(cfg, p) && Clear(s, id, p.round) && Starting(s', id, p.round) && s'.slashes == s.slashes
    requires s'.rs.proposal == Some(p) && s'.rs.prevotes == map[] && s'.rs.precommits == map[]
    ensures Voting(cfg, s', id, p, {}, {})
  {
    OnlyKept(s, s', Prevote, {});
    OnlyKept(s, s', Precommit, {});
  }

  lemma HandleHeld(cfg: Config, s: NodeState, id: NodeId, p: Proposal)
    requires Proposable(cfg, p) && Voting(cfg, s, id, p, {}, {}) && id in Ids(cfg.validators) && s.locked.None?
    ensures var s1 := HandleProposal(cfg, s, p);
            && Voting(cfg, s1, id, p, {id}, {}) && s1.locked.None?
            && s1.signed == s.signed + {VoteFor(p, Prevote, id).vote}
            && Heard(s, s1, Prevote, BlockHash(p.block.header), id)
  {
    assert s.(rs := s.rs.(proposal := Some(p))) == s;
    OwnPrevote(cfg, s, id, p);
    var s2 := CastPrevote(cfg, s, BlockHash(p.block.header));
    VotingKept(cfg, s2, SetPhase(s2, Prevoting), id, p, {id}, {});
  }

  /** The first proposal of the round. */
  lemma HandleFirst(cfg: Config, s: NodeState, id: NodeId, p: Proposal)
    requires Proposable(cfg, p) && Clear(s, id, p.round) && id in Ids(cfg.validators)
    ensures var s1 := HandleProposal(cfg, s, p);
            && Voting(cfg, s1, id, p, {id}, {}) && s1.locked.None?
            && s1.signed == s.signed + {VoteFor(p, Prevote, id).vote}
            && Heard(s, s1, Prevote, BlockHash(p.block.header), id)
  {
    var s0 := s.(rs := s.rs.(proposal := Some(p)));
    TakesUp(cfg, s, s0, id, p);
    HandleHeld(cfg, s0, id, p);
    assert HandleProposal(cfg, s, p) == HandleProposal(cfg, s0, p);
  }

  lemma InitClear(cfg: Config, id: NodeId)
    ensures Clear(Init(cfg, id), id, 0)
  {
  }

  ghost predicate Three(cfg: Config, x: NodeId, y: NodeId, z: NodeId) {
    && x in Ids(cfg.validators) && y in Ids(cfg.validators) && z in Ids(cfg.validators)
    && x != y && x != z && y != z
  }

  lemma ThreeCount(cfg: Config, x: NodeId, y: NodeId, z: NodeId)
    requires Three(cfg, x, y, z)
    ensures {x} + {y} == {x, y} && {x, y} + {z} == {x, y, z} && |{x, y}| == 2 && |{x, y, z}| == 3
    ensures {x, y, z} <= Ids(cfg.validators)
  {
  }

  /** Two prevotes after its own: a node locks the block and precommits it. */
  lemma TwoPrevotes(cfg: Config, s: NodeState, id: NodeId, p: Proposal, x: NodeId, y: NodeId)
    requires Proposable(cfg, p) && Voting(cfg, s, id, p, {id}, {})
    requires Three(cfg, id, x, y)
    ensures var s' := HandleVote(cfg, HandleVote(cfg, s, VoteFor(p, Prevote, x)), VoteFor(p, Prevote, y));
            && Voting(cfg, s', id, p, {id, x, y}, {id}) && s.signed <= s'.signed
            && VoteFor(p, Precommit, id).vote in s'.signed
  {
    ThreeCount(cfg, id, x, y);
    HearPrevote(cfg, s, id, p, {id}, {}, x);
    HearQuorum(cfg, HandleVote(cfg, s, VoteFor(p, Prevote, x)), id, p, {id, x}, y);
  }

  /** And two precommits after its own: it commits. */
  lemma TwoPrecommits(cfg: Config, s: NodeState, id: NodeId, p: Proposal, prevoted: set<NodeId>, x: NodeId, y: NodeId)
    requires Proposable(cfg, p) && Voting(cfg, s, id, p, prevoted, {id})
    requires Three(cfg, id, x, y)
    ensures var s' := HandleVote(cfg, HandleVote(cfg, s, VoteFor(p, Precommit, x)), VoteFor(p, Precommit, y));
            !s'.halted && s'.chain == [p.block] && s.signed <= s'.signed
  {
    ThreeCount(cfg, id, x, y);
    HearPrecommit(cfg, s, id, p, prevoted, {id}, x);
    HearDecision(cfg, HandleVote(cfg, s, VoteFor(p, Precommit, x)), id, p, prevoted, {id, x}, y);
  }
}
