/** Agreement needs its premise on proposers: four validators, one of them deviating, and a run in
which two nodes that follow the protocol commit different blocks. The deviating validator signs two
proposals for one round; a node that handles both prevotes both, and its lock moves from one to
the other. */
module Split {
  import opened Base
  import opened Blocks
  import opened Validators
  import opened Consensus
  import opened Network
  import opened Handlers
  import opened Agreement
  import opened Scripts
  import opened Four

  // ---- The node in the middle ----

  /** It has prevoted both blocks, counts no precommits but its own, and can have jailed only itself. */
  ghost predicate Torn(s: NodeState, id: NodeId, unseen: set<NodeId>) {
    && s.id == id && !s.halted && s.height == 1 && s.round == 0 && s.chain == []
    && (forall h :: VotesFor(s.rs, Precommit, h) <= {id})
    && s.slashes.jailed.Keys <= {id} && (forall x :: x in unseen ==> Unseen(s, Prevote, x))
  }

  ghost predicate Backs(s: NodeState, h: Hash, voters: set<NodeId>) {
    voters <= VotesFor(s.rs, Prevote, h)
  }

  ghost predicate Gains(s: NodeState, s': NodeState) {
    s.signed <= s'.signed && forall h :: VotesFor(s.rs, Prevote, h) <= VotesFor(s'.rs, Prevote, h)
  }

  lemma BacksMore(s: NodeState, s': NodeState, h: Hash, voters: set<NodeId>)
    requires Backs(s, h, voters) && Gains(s, s')
    ensures Backs(s', h, voters)
  {
    assert VotesFor(s.rs, Prevote, h) <= VotesFor(s'.rs, Prevote, h);
  }

  lemma TornPrecommits(cfg: Config, s: NodeState, id: NodeId, unseen: set<NodeId>, h: Hash)
    requires FourSign(cfg) && Torn(s, id, unseen) && id in Ids(cfg.validators)
    ensures var s1 := CastPrecommit(cfg, s, h);
            Torn(s1, id, unseen) && Gains(s, s1) && Vote(1, 0, Precommit, h, id) in s1.signed
  {
    var sv := Ballot(s, Precommit, h);
    var s0 := Sign(s, sv.vote);
    forall x | x in unseen ensures Unseen(s0, Prevote, x) { assert Unseen(s, Prevote, x); }
    if Accepts(cfg, s0, sv) {
      CountHears(cfg, s0, sv);
      var s1 := Count(cfg, s0, sv);
      TornHeard(s0, s1, id, unseen, Precommit, h, id);
      NoQuorum(cfg, VotesFor(s1.rs, Precommit, h), id);
      TornKept(s1, Send(s1, VoteMessage(sv)), id, unseen);
    } else {
      TornKept(s0, Send(s0, VoteMessage(sv)), id, unseen);
    }
  }

  lemma NoQuorum(cfg: Config, votes: set<NodeId>, id: NodeId)
    requires FourSign(cfg) && votes <= {id} && id in Ids(cfg.validators)
    ensures !QuorumMet(cfg.validators, votes)
  {
    Subset(votes, {id});
    ThreeOfFour(cfg, votes);
  }

  lemma TornHeard(s: NodeState, s': NodeState, id: NodeId, unseen: set<NodeId>, kind: VoteType, h: Hash, x: NodeId)
    requires Torn(s, id, unseen) && Same(s, s') && Heard(s, s', kind, h, x) && Unseens(s, s', kind, x)
    requires s'.slashes.jailed.Keys <= {id} && (kind.Precommit? ==> x == id)
    ensures Torn(s', id, if kind.Prevote? then unseen - {x} else unseen) && Gains(s, s')
  {
    forall y | y in unseen && !(kind.Prevote? && y == x) ensures Unseen(s', Prevote, y) {
      assert Unseen(s, Prevote, y);
    }
  }

  lemma TornKept(s: NodeState, s': NodeState, id: NodeId, unseen: set<NodeId>)
    requires Torn(s, id, unseen) && Same(s, s') && s'.slashes == s.slashes && s'.rs == s.rs
    ensures Torn(s', id, unseen) && Gains(s, s')
  {
    forall y | y in unseen ensures Unseen(s', Prevote, y) {
      assert Unseen(s, Prevote, y);
    }
  }

  lemma GainsTwice(a: NodeState, b: NodeState, c: NodeState)
    requires Gains(a, b) && Gains(b, c)
    ensures Gains(a, c)
  {
    forall h ensures VotesFor(a.rs, Prevote, h) <= VotesFor(c.rs, Prevote, h) {
      assert VotesFor(a.rs, Prevote, h) <= VotesFor(b.rs, Prevote, h);
    }
  }

  /** Counting a prevote, before what a quorum does. */
  lemma TornCounts(cfg: Config, s: NodeState, id: NodeId, unseen: set<NodeId>, p: Proposal, x: NodeId)
    requires Proposable(cfg, p) && p.round == 0 && Torn(s, id, unseen) && x in Ids(cfg.validators) && x != id
    ensures Accepts(cfg, s, VoteFor(p, Prevote, x))
    ensures var s1 := Count(cfg, s, VoteFor(p, Prevote, x));
            && Gains(s, s1) && Backs(s1, BlockHash(p.block.header), VotesFor(s.rs, Prevote, BlockHash(p.block.header)) + {x})
            && (x in unseen ==> Torn(s1, id, unseen - {x})) && Same(s, s1)
  {
    var sv := VoteFor(p, Prevote, x);
    Verifies(cfg, sv.vote);
    CountHears(cfg, s, sv);
    var s1 := Count(cfg, s, sv);
    forall h ensures VotesFor(s.rs, Prevote, h) <= VotesFor(s1.rs, Prevote, h) {}
    if x in unseen {
      assert Unseen(s, Prevote, x);
      TornHeard(s, s1, id, unseen, Prevote, BlockHash(p.block.header), x);
    }
  }

  /** A prevote from someone not seen before. */
  lemma TornHears(cfg: Config, s: NodeState, id: NodeId, unseen: set<NodeId>, p: Proposal, x: NodeId)
    requires Proposable(cfg, p) && p.round == 0 && Torn(s, id, unseen) && id in Ids(cfg.validators)
    requires x in unseen && x in Ids(cfg.validators) && x != id
    ensures var s1 := HandleVote(cfg, s, VoteFor(p, Prevote, x));
            Torn(s1, id, unseen - {x}) && Gains(s, s1) && x in VotesFor(s1.rs, Prevote, BlockHash(p.block.header))
  {
    var h, sv := BlockHash(p.block.header), VoteFor(p, Prevote, x);
    TornCounts(cfg, s, id, unseen, p, x);
    var s0 := Count(cfg, s, sv);
    if HasQuorum(cfg, s0, sv.vote) {
      var s1 := s0.(locked := Some(h));
      TornKept(s0, s1, id, unseen - {x});
      TornPrecommits(cfg, s1, id, unseen - {x}, h);
      var s2 := CastPrecommit(cfg, s1, h);
      TornKept(s2, SetPhase(s2, Precommitting), id, unseen - {x});
      GainsTwice(s, s0, s1);
      GainsTwice(s, s1, s2);
      GainsTwice(s, s2, SetPhase(s2, Precommitting));
      assert x in VotesFor(s0.rs, Prevote, h) && VotesFor(s0.rs, Prevote, h) <= VotesFor(s1.rs, Prevote, h)
          && VotesFor(s1.rs, Prevote, h) <= VotesFor(s2.rs, Prevote, h);
    }
  }

  /** With a quorum behind the block, whoever completed it, the node precommits the block, even if
  it has precommitted another. */
  lemma TornCompletes(cfg: Config, s: NodeState, id: NodeId, unseen: set<NodeId>, p: Proposal, x: NodeId, voters: set<NodeId>)
    requires Proposable(cfg, p) && p.round == 0 && Torn(s, id, unseen) && id in Ids(cfg.validators)
    requires x in Ids(cfg.validators) && x != id && Backs(s, BlockHash(p.block.header), voters)
    requires voters + {x} <= Ids(cfg.validators) && |voters + {x}| >= 3
    ensures Vote(1, 0, Precommit, BlockHash(p.block.header), id) in HandleVote(cfg, s, VoteFor(p, Prevote, x)).signed
  {
    var h, sv := BlockHash(p.block.header), VoteFor(p, Prevote, x);
    TornCounts(cfg, s, id, unseen, p, x);
    var s0 := Count(cfg, s, sv);
    EnoughBack(cfg, VotesFor(s0.rs, Prevote, h), voters + {x});
    PrecommitIsSigned(cfg, s0.(locked := Some(h)), h);
  }

  lemma PrecommitIsSigned(cfg: Config, s: NodeState, h: Hash)
    ensures Vote(s.height, s.round, Precommit, h, s.id) in CastPrecommit(cfg, s, h).signed
  {
  }

  lemma EnoughBack(cfg: Config, votes: set<NodeId>, voters: set<NodeId>)
    requires FourSign(cfg) && voters <= votes && voters <= Ids(cfg.validators) && |voters| >= 3
    ensures QuorumMet(cfg.validators, votes)
  {
    ThreeOfFour(cfg, voters);
    PowerMonotone(ById(cfg.validators), voters, votes);
  }

  /** Its own second prevote is counted, whatever slashing then does. */
  lemma CountSecond(cfg: Config, s: NodeState, id: NodeId, q: Proposal, unseen: set<NodeId>)
    requires Proposable(cfg, q) && q.round == 0 && Torn(s, id, unseen) && id in Ids(cfg.validators) && id !in unseen
    requires s.slashes.jailed == map[] && VotesFor(s.rs, Prevote, BlockHash(q.block.header)) == {}
    ensures Accepts(cfg, s, VoteFor(q, Prevote, id))
    ensures var s1 := Count(cfg, s, VoteFor(q, Prevote, id));
            && Torn(s1, id, unseen) && Gains(s, s1) && s1.signed == s.signed
            && VotesFor(s1.rs, Prevote, BlockHash(q.block.header)) == {id}
  {
    var sv := VoteFor(q, Prevote, id);
    Verifies(cfg, sv.vote);
    CountHears(cfg, s, sv);
    HearsItself(s, Count(cfg, s, sv), id, unseen, BlockHash(q.block.header));
  }

  lemma HearsItself(s: NodeState, s': NodeState, id: NodeId, unseen: set<NodeId>, h: Hash)
    requires Torn(s, id, unseen) && id !in unseen && VotesFor(s.rs, Prevote, h) == {}
    requires Same(s, s') && Heard(s, s', Prevote, h, id) && Unseens(s, s', Prevote, id) && s'.slashes.jailed.Keys <= {id}
    ensures Torn(s', id, unseen) && Gains(s, s') && VotesFor(s'.rs, Prevote, h) == {id}
  {
    TornHeard(s, s', id, unseen, Prevote, h, id);
    assert unseen - {id} == unseen;
  }

  /** The second proposal of the round: prevoted too. */
  lemma CastSecond(cfg: Config, s: NodeState, id: NodeId, q: Proposal)
    requires Proposable(cfg, q) && q.round == 0 && Torn(s, id, Ids(cfg.validators) - {id}) && id in Ids(cfg.validators)
    requires s.slashes.jailed == map[] && VotesFor(s.rs, Prevote, BlockHash(q.block.header)) == {}
    ensures var s1 := CastPrevote(cfg, s, BlockHash(q.block.header));
            && Torn(s1, id, Ids(cfg.validators) - {id}) && Gains(s, s1)
            && id in VotesFor(s1.rs, Prevote, BlockHash(q.block.header)) && VoteFor(q, Prevote, id).vote in s1.signed
  {
    var h, sv, unseen := BlockHash(q.block.header), VoteFor(q, Prevote, id), Ids(cfg.validators) - {id};
    assert Ballot(s, Prevote, h) == sv;
    var s1 := Sign(s, sv.vote);
    TornKept(s, s1, id, unseen);
    CountSecond(cfg, s1, id, q, unseen);
    var s2 := Count(cfg, s1, sv);
    assert !HasQuorum(cfg, s2, sv.vote) by { NoQuorum(cfg, {id}, id); }
    var s3 := Send(s2, VoteMessage(sv));
    assert CastPrevote(cfg, s, h) == s3;
    TornKept(s2, s3, id, unseen);
    GainsTwice(s, s1, s2);
    GainsTwice(s, s2, s3);
  }

  /** Voting for one block, and nothing counted for another. */
  ghost predicate Settled(cfg: Config, s: NodeState, id: NodeId, p: Proposal, h: Hash) {
    && Voting(cfg, s, id, p, {id}, {}) && s.locked.None?
    && VotesFor(s.rs, Prevote, h) == {} && forall g :: VotesFor(s.rs, Precommit, g) == {}
  }

  lemma HandleSecond(cfg: Config, s: NodeState, id: NodeId, p: Proposal, q: Proposal)
    requires Proposable(cfg, p) && Proposable(cfg, q) && p.round == 0 && q.round == 0
    requires Settled(cfg, s, id, p, BlockHash(q.block.header)) && id in Ids(cfg.validators)
    ensures var s1 := HandleProposal(cfg, s, q);
            && Torn(s1, id, Ids(cfg.validators) - {id}) && Gains(s, s1)
            && id in VotesFor(s1.rs, Prevote, BlockHash(q.block.header)) && VoteFor(q, Prevote, id).vote in s1.signed
  {
    var h, unseen := BlockHash(q.block.header), Ids(cfg.validators) - {id};
    var s0 := s.(rs := s.rs.(proposal := Some(q)));
    SettledTorn(cfg, s, s0, id, p, h);
    CastSecond(cfg, s0, id, q);
    var s1 := CastPrevote(cfg, s0, h);
    assert HandleProposal(cfg, s, q) == SetPhase(s1, Prevoting);
    TornKept(s1, SetPhase(s1, Prevoting), id, unseen);
    GainsTwice(s, s0, s1);
    GainsTwice(s, s1, SetPhase(s1, Prevoting));
  }

  lemma SettledTorn(cfg: Config, s: NodeState, s': NodeState, id: NodeId, p: Proposal, h: Hash)
    requires Proposable(cfg, p) && p.round == 0 && Settled(cfg, s, id, p, h)
    requires s' == s.(rs := s.rs.(proposal := s'.rs.proposal))
    ensures Torn(s', id, Ids(cfg.validators) - {id}) && Gains(s, s') && VotesFor(s'.rs, Prevote, h) == {}
  {
    forall y | y in Ids(cfg.validators) - {id} ensures Unseen(s', Prevote, y) { assert Unseen(s, Prevote, y); }
    forall g ensures VotesFor(s'.rs, Precommit, g) <= {id} { assert VotesFor(s.rs, Precommit, g) == {}; }
  }

  // ---- The three scripts ----

  ghost predicate Cast4(cfg: Config, a: NodeId, b: NodeId, c: NodeId, d: NodeId) {
    && FourSign(cfg) && a == cfg.validators[0].nodeId && d == cfg.validators[1].nodeId
    && b == cfg.validators[2].nodeId && c == cfg.validators[3].nodeId
  }

  lemma FourIds(cfg: Config, a: NodeId, b: NodeId, c: NodeId, d: NodeId)
    requires Cast4(cfg, a, b, c, d)
    ensures Ids(cfg.validators) == {a, b, c, d} && a != b && a != c && a != d && b != c && b != d && c != d
  {
    var vs := cfg.validators;
    assert vs == [vs[0], vs[1], vs[2], vs[3]];
    forall x ensures x in Ids(vs) <==> x in {a, b, c, d} {
      if x == a { assert vs[0].nodeId == x; }
      if x == d { assert vs[1].nodeId == x; }
      if x == b { assert vs[2].nodeId == x; }
      if x == c { assert vs[3].nodeId == x; }
    }
  }

  /** Two proposals of the first round, with different headers. */
  ghost predicate Rivals(cfg: Config, p: Proposal, q: Proposal) {
    && Proposable(cfg, p) && Proposable(cfg, q) && p.round == 0 && q.round == 0
    && BlockHash(p.block.header) != BlockHash(q.block.header)
  }

  lemma MiddleSettles(cfg: Config, c: NodeId, p: Proposal, q: Proposal)
    requires Rivals(cfg, p, q) && c in Ids(cfg.validators)
    ensures var s := HandleProposal(cfg, Init(cfg, c), p);
            Settled(cfg, s, c, p, BlockHash(q.block.header)) && VoteFor(p, Prevote, c).vote in s.signed
  {
    var s0 := Init(cfg, c);
    InitClear(cfg, c);
    HandleFirst(cfg, s0, c, p);
    HeardFirst(s0, HandleProposal(cfg, s0, p), BlockHash(p.block.header), c);
  }

  lemma HeardFirst(s: NodeState, s': NodeState, h: Hash, x: NodeId)
    requires Heard(s, s', Prevote, h, x) && s.rs.prevotes == map[] && s.rs.precommits == map[]
    ensures forall g :: VotesFor(s'.rs, Precommit, g) == {}
    ensures forall g :: g != h ==> VotesFor(s'.rs, Prevote, g) == {}
  {
    forall k, g ensures VotesFor(s'.rs, k, g) == if k == Prevote && g == h then {x} else {} {
      assert VotesFor(s.rs, k, g) == {};
    }
  }

  /** Both proposals, one after the other: it prevotes both. */
  lemma MiddleHandles(cfg: Config, c: NodeId, p: Proposal, q: Proposal)
    requires Rivals(cfg, p, q) && c in Ids(cfg.validators)
    ensures var s := PlayAll(cfg, Init(cfg, c), [Offer(c, p), Offer(c, q)]);
            && Torn(s, c, Ids(cfg.validators) - {c})
            && Backs(s, BlockHash(p.block.header), {c}) && Backs(s, BlockHash(q.block.header), {c})
            && VoteFor(p, Prevote, c).vote in s.signed && VoteFor(q, Prevote, c).vote in s.signed
  {
    var s0 := Init(cfg, c);
    MiddleSettles(cfg, c, p, q);
    var s1 := HandleProposal(cfg, s0, p);
    HandleSecond(cfg, s1, c, p, q);
    PlayTwo(cfg, s0, Offer(c, p), Offer(c, q));
    BacksMore(s1, HandleProposal(cfg, s1, q), BlockHash(p.block.header), {c});
  }

  lemma MiddleFirst(cfg: Config, s: NodeState, c: NodeId, unseen: set<NodeId>, p: Proposal, x: NodeId)
    requires Proposable(cfg, p) && p.round == 0 && Torn(s, c, unseen) && Backs(s, BlockHash(p.block.header), {c})
    requires c in Ids(cfg.validators) && x in Ids(cfg.validators) && x != c && x in unseen
    ensures var s1 := HandleVote(cfg, s, VoteFor(p, Prevote, x));
            Torn(s1, c, unseen - {x}) && Gains(s, s1) && Backs(s1, BlockHash(p.block.header), {c, x})
  {
    TornHears(cfg, s, c, unseen, p, x);
    BacksMore(s, HandleVote(cfg, s, VoteFor(p, Prevote, x)), BlockHash(p.block.header), {c});
  }

  lemma MiddleSecond(cfg: Config, s: NodeState, c: NodeId, unseen: set<NodeId>, p: Proposal, x: NodeId, d: NodeId)
    requires Proposable(cfg, p) && p.round == 0 && Torn(s, c, unseen) && Backs(s, BlockHash(p.block.header), {c, x})
    requires Three(cfg, c, x, d)
    ensures var s1 := HandleVote(cfg, s, VoteFor(p, Prevote, d));
            && VoteFor(p, Precommit, c).vote in s1.signed && s.signed <= s1.signed
            && (d in unseen ==> Torn(s1, c, unseen - {d}) && Gains(s, s1))
  {
    var s1 := HandleVote(cfg, s, VoteFor(p, Prevote, d));
    assert VoteFor(p, Precommit, c).vote in s1.signed by {
      ThreeCount(cfg, c, x, d);
      TornCompletes(cfg, s, c, unseen, p, d, {c, x});
    }
    assert s.signed <= s1.signed by { PrevoteKeepsSigned(cfg, s, VoteFor(p, Prevote, d)); }
    if d in unseen {
      TornHears(cfg, s, c, unseen, p, d);
    }
  }

  /** Two prevotes behind its own for a block: it precommits the block. */
  lemma MiddleLocks(cfg: Config, s: NodeState, c: NodeId, unseen: set<NodeId>, p: Proposal, x: NodeId, d: NodeId)
    requires Proposable(cfg, p) && p.round == 0 && Torn(s, c, unseen) && Backs(s, BlockHash(p.block.header), {c})
    requires Three(cfg, c, x, d) && x in unseen
    ensures var s' := PlayAll(cfg, s, Pair(c, p, Prevote, x, d));
            && VoteFor(p, Precommit, c).vote in s'.signed && s.signed <= s'.signed
            && (d in unseen ==> Torn(s', c, unseen - {x} - {d}) && Gains(s, s'))
  {
    var s1 := Play(cfg, s, Deliver(c, VoteFor(p, Prevote, x)));
    var s2 := Play(cfg, s1, Deliver(c, VoteFor(p, Prevote, d)));
    MiddleFirst(cfg, s, c, unseen, p, x);
    MiddleSecond(cfg, s1, c, unseen - {x}, p, x, d);
    PlayTwo(cfg, s, Deliver(c, VoteFor(p, Prevote, x)), Deliver(c, VoteFor(p, Prevote, d)));
    if d in unseen { GainsTwice(s, s1, s2); }
  }

  lemma PrevoteKeepsSigned(cfg: Config, s: NodeState, sv: SignedVote)
    requires sv.vote.kind.Prevote?
    ensures s.signed <= HandleVote(cfg, s, sv).signed
  {
    if Accepts(cfg, s, sv) {
      var s1 := Count(cfg, s, sv).(locked := Some(sv.vote.blockHash));
      PrecommitKeepsSigned(cfg, s1, sv.vote.blockHash);
    }
  }

  lemma PrecommitKeepsSigned(cfg: Config, s: NodeState, h: Hash)
    ensures s.signed <= CastPrecommit(cfg, s, h).signed
  {
  }

  // ---- The nodes at the edges ----

  lemma EdgeHandles(cfg: Config, s: NodeState, i: NodeId, p: Proposal)
    requires Proposable(cfg, p) && Clear(s, i, p.round) && i in Ids(cfg.validators)
    ensures var s' := PlayAll(cfg, s, [Offer(i, p)]);
            Voting(cfg, s', i, p, {i}, {}) && VoteFor(p, Prevote, i).vote in s'.signed && s.signed <= s'.signed
  {
    HandleFirst(cfg, s, i, p);
    PlayJust(cfg, s, Offer(i, p));
  }

  function Pair(i: NodeId, p: Proposal, kind: VoteType, x: NodeId, y: NodeId): seq<Action> {
    [Deliver(i, VoteFor(p, kind, x)), Deliver(i, VoteFor(p, kind, y))]
  }

  lemma EdgeLocks(cfg: Config, s: NodeState, i: NodeId, p: Proposal, x: NodeId, y: NodeId)
    requires Proposable(cfg, p) && Voting(cfg, s, i, p, {i}, {}) && Three(cfg, i, x, y)
    ensures var s' := PlayAll(cfg, s, Pair(i, p, Prevote, x, y));
            && Voting(cfg, s', i, p, {i, x, y}, {i}) && VoteFor(p, Precommit, i).vote in s'.signed && s.signed <= s'.signed
  {
    TwoPrevotes(cfg, s, i, p, x, y);
    PlayTwo(cfg, s, Deliver(i, VoteFor(p, Prevote, x)), Deliver(i, VoteFor(p, Prevote, y)));
  }

  lemma EdgeCommits(cfg: Config, s: NodeState, i: NodeId, p: Proposal, prevoted: set<NodeId>, x: NodeId, y: NodeId)
    requires Proposable(cfg, p) && Voting(cfg, s, i, p, prevoted, {i}) && Three(cfg, i, x, y)
    ensures var s' := PlayAll(cfg, s, Pair(i, p, Precommit, x, y)); s'.chain == [p.block] && !s'.halted
  {
    TwoPrecommits(cfg, s, i, p, prevoted, x, y);
    PlayTwo(cfg, s, Deliver(i, VoteFor(p, Precommit, x)), Deliver(i, VoteFor(p, Precommit, y)));
  }

  // ---- The three stories ----

  /** A node hears a proposal, and then two prevotes behind its own: it precommits the block. */
  lemma LockStory(cfg: Config, scenes: iset<Scene>, s: NodeState, i: NodeId, r: Proposal, x: NodeId, y: NodeId)
      returns (s1: NodeState, s2: NodeState)
    requires Proposable(cfg, r) && Clear(s, i, r.round) && Three(cfg, i, x, y) && Full(cfg, scenes)
    ensures Scene(s, [Offer(i, r)], s1) in scenes && Scene(s1, Pair(i, r, Prevote, x, y), s2) in scenes
    ensures s.signed <= s1.signed <= s2.signed && Voting(cfg, s2, i, r, {i, x, y}, {i})
    ensures VoteFor(r, Prevote, i).vote in s1.signed && VoteFor(r, Precommit, i).vote in s2.signed
  {
    s1 := PlayAll(cfg, s, [Offer(i, r)]);
    EdgeHandles(cfg, s, i, r);
    MakeScene(cfg, scenes, s, [Offer(i, r)]);
    s2 := PlayAll(cfg, s1, Pair(i, r, Prevote, x, y));
    EdgeLocks(cfg, s1, i, r, x, y);
    MakeScene(cfg, scenes, s1, Pair(i, r, Prevote, x, y));
  }

  /** And then two precommits: it commits. */
  lemma EdgeStory(cfg: Config, scenes: iset<Scene>, s: NodeState, i: NodeId, r: Proposal, d: NodeId, c: NodeId)
      returns (s1: NodeState, s2: NodeState, s3: NodeState)
    requires Proposable(cfg, r) && Clear(s, i, r.round) && Three(cfg, i, d, c) && Full(cfg, scenes)
    ensures Scene(s, [Offer(i, r)], s1) in scenes && Scene(s1, Pair(i, r, Prevote, d, c), s2) in scenes
    ensures Scene(s2, Pair(i, r, Precommit, d, c), s3) in scenes
    ensures VoteFor(r, Prevote, i).vote in s1.signed && s3.chain == [r.block]
  {
    s1, s2 := LockStory(cfg, scenes, s, i, r, d, c);
    s3 := PlayAll(cfg, s2, Pair(i, r, Precommit, d, c));
    EdgeCommits(cfg, s2, i, r, {i, d, c}, d, c);
    MakeScene(cfg, scenes, s2, Pair(i, r, Precommit, d, c));
  }

  ghost predicate Both(s: NodeState, c: NodeId, kind: VoteType, p: Proposal, q: Proposal) {
    VoteFor(p, kind, c).vote in s.signed && VoteFor(q, kind, c).vote in s.signed
  }

  lemma StoryOpens(cfg: Config, scenes: iset<Scene>, c: NodeId, p: Proposal, q: Proposal, others: set<NodeId>) returns (s: NodeState)
    requires Rivals(cfg, p, q) && c in Ids(cfg.validators) && others == Ids(cfg.validators) - {c} && Full(cfg, scenes)
    ensures Scene(Init(cfg, c), [Offer(c, p), Offer(c, q)], s) in scenes && Torn(s, c, others) && Both(s, c, Prevote, p, q)
    ensures Backs(s, BlockHash(p.block.header), {c}) && Backs(s, BlockHash(q.block.header), {c})
  {
    s := PlayAll(cfg, Init(cfg, c), [Offer(c, p), Offer(c, q)]);
    MiddleHandles(cfg, c, p, q);
    MakeScene(cfg, scenes, Init(cfg, c), [Offer(c, p), Offer(c, q)]);
  }

  lemma StoryTurns(cfg: Config, scenes: iset<Scene>, s: NodeState, c: NodeId, unseen: set<NodeId>, left: set<NodeId>,
                   r: Proposal, x: NodeId, d: NodeId)
      returns (s': NodeState)
    requires Proposable(cfg, r) && r.round == 0 && Torn(s, c, unseen) && Backs(s, BlockHash(r.block.header), {c})
    requires Three(cfg, c, x, d) && x in unseen && left == unseen - {x} - {d} && Full(cfg, scenes)
    ensures Scene(s, Pair(c, r, Prevote, x, d), s') in scenes && s.signed <= s'.signed
    ensures VoteFor(r, Precommit, c).vote in s'.signed && (d in unseen ==> Torn(s', c, left) && Gains(s, s'))
  {
    s' := PlayAll(cfg, s, Pair(c, r, Prevote, x, d));
    MiddleLocks(cfg, s, c, unseen, r, x, d);
    MakeScene(cfg, scenes, s, Pair(c, r, Prevote, x, d));
  }

  lemma SetsLeft(a: NodeId, b: NodeId, d: NodeId)
    requires a != b && a != d && b != d
    ensures {a, b, d} - {a} - {d} == {b} && {b} - {b} - {d} == {}
  {
  }

  /** What the middle does: it prevotes and then precommits both blocks. */
  lemma MiddleStory(cfg: Config, scenes: iset<Scene>, a: NodeId, b: NodeId, c: NodeId, d: NodeId, p: Proposal, q: Proposal)
      returns (s1: NodeState, s2: NodeState, s3: NodeState)
    requires Rivals(cfg, p, q) && Three(cfg, c, a, d) && Three(cfg, c, b, d) && a != b
    requires {a, b, d} == Ids(cfg.validators) - {c} && Full(cfg, scenes)
    ensures Scene(Init(cfg, c), [Offer(c, p), Offer(c, q)], s1) in scenes
    ensures Scene(s1, Pair(c, p, Prevote, a, d), s2) in scenes && Scene(s2, Pair(c, q, Prevote, b, d), s3) in scenes
    ensures Both(s3, c, Prevote, p, q) && Both(s3, c, Precommit, p, q)
  {
    SetsLeft(a, b, d);
    s1 := StoryOpens(cfg, scenes, c, p, q, {a, b, d});
    s2 := StoryTurns(cfg, scenes, s1, c, {a, b, d}, {b}, p, a, d);
    BacksMore(s1, s2, BlockHash(q.block.header), {c});
    s3 := StoryTurns(cfg, scenes, s2, c, {b}, {}, q, b, d);
  }

  // ---- The run ----

  /** Nodes `a`, `b` and `c` follow the protocol; `d`, the proposer of the first round, has signed
  both proposals and votes of both kinds for both. */
  ghost predicate Field(n: Net, a: NodeId, b: NodeId, c: NodeId, d: NodeId, p: Proposal, q: Proposal, k: nat) {
    && n.nodes.Keys == {a, b, c} && d !in n.nodes && Seconded(n, d, p) && Seconded(n, d, q)
    && n.blocks <= {p.block, q.block} && Slack(n, k)
  }

  /** The deviating validator has signed the proposal, and both votes for it. */
  ghost predicate Seconded(n: Net, d: NodeId, p: Proposal) {
    && (1, p.round, BlockHash(p.block.header)) in n.proposals && p.height == 1
    && VoteFor(p, Prevote, d).vote in n.deviant && VoteFor(p, Precommit, d).vote in n.deviant
  }

  function Double(p: Proposal, q: Proposal, d: NodeId): set<Vote> {
    {VoteFor(p, Prevote, d).vote, VoteFor(p, Precommit, d).vote, VoteFor(q, Prevote, d).vote, VoteFor(q, Precommit, d).vote}
  }

  /** The nodes of a network, by role. */
  ghost predicate Are(n: Net, a: NodeId, b: NodeId, c: NodeId, sa: NodeState, sb: NodeState, sc: NodeState) {
    a in n.nodes && b in n.nodes && c in n.nodes && n.nodes[a] == sa && n.nodes[b] == sb && n.nodes[c] == sc
  }

  lemma Opening(cfg: Config, reach: iset<Net>, a: NodeId, b: NodeId, c: NodeId, d: NodeId, p: Proposal, q: Proposal)
      returns (n: Net)
    requires p.height == 1 && q.height == 1 && cfg.validators != [] && d !in {a, b, c}
    requires ProposerFor(cfg, 1, p.round).nodeId == d && ProposerFor(cfg, 1, q.round).nodeId == d
    requires Closed(cfg, reach) && Start(cfg, {a, b, c}) in reach
    ensures n in reach && Field(n, a, b, c, d, p, q, 100)
    ensures Are(n, a, b, c, Init(cfg, a), Init(cfg, b), Init(cfg, c))
    ensures n.proposals == {(1, p.round, BlockHash(p.block.header)), (1, q.round, BlockHash(q.block.header))}
  {
    var hp, hq := BlockHash(p.block.header), BlockHash(q.block.header);
    n := Start(cfg, {a, b, c});
    assert Slack(n, 100);
    DeviatePropose(cfg, reach, n, 1, p.round, hp);
    n := n.(proposals := n.proposals + {(1, p.round, hp)});
    DeviatePropose(cfg, reach, n, 1, q.round, hq);
    n := n.(proposals := n.proposals + {(1, q.round, hq)});
    n := DoubleVotes(cfg, reach, n, d, p, q);
  }

  lemma DoubleVotes(cfg: Config, reach: iset<Net>, n: Net, d: NodeId, p: Proposal, q: Proposal) returns (n': Net)
    requires cfg.validators != [] && Closed(cfg, reach) && n in reach && Slack(n, 0) && d !in n.nodes && n.deviant == {}
    ensures n' in reach && n' == n.(deviant := Double(p, q, d))
  {
    var v, w := VoteFor(p, Prevote, d).vote, VoteFor(p, Precommit, d).vote;
    var x, y := VoteFor(q, Prevote, d).vote, VoteFor(q, Precommit, d).vote;
    DeviateVote(cfg, reach, n, v);
    n' := n.(deviant := n.deviant + {v});
    DeviateVote(cfg, reach, n', w);
    n' := n'.(deviant := n'.deviant + {w});
    DeviateVote(cfg, reach, n', x);
    n' := n'.(deviant := n'.deviant + {x});
    DeviateVote(cfg, reach, n', y);
    n' := n'.(deviant := n'.deviant + {y});
    assert n'.deviant == Double(p, q, d);
  }

  /** One node plays a scene: the field stands, and so do the other nodes. */
  lemma Act(cfg: Config, reach: iset<Net>, scenes: iset<Scene>, n: Net, a: NodeId, b: NodeId, c: NodeId, d: NodeId,
            p: Proposal, q: Proposal, k: nat, i: NodeId, t: Scene)
      returns (n': Net)
    requires cfg.validators != [] && Closed(cfg, reach) && Right(cfg, scenes) && n in reach
    requires Field(n, a, b, c, d, p, q, |t.script| + k) && i in n.nodes
    requires t in scenes && t.before == n.nodes[i] && AllPlayable(cfg, n, i, t.script) && Offered(t.script) <= {p.block, q.block}
    ensures n' in reach && Field(n', a, b, c, d, p, q, k) && n'.nodes == n.nodes[i := t.after] && n'.proposals == n.proposals
  {
    n' := Stage(cfg, reach, scenes, n, i, t, k);
  }

  /** Two votes reach a node. */
  lemma Hear(cfg: Config, reach: iset<Net>, scenes: iset<Scene>, n: Net, a: NodeId, b: NodeId, c: NodeId, d: NodeId,
             p: Proposal, q: Proposal, k: nat, i: NodeId, r: Proposal, kind: VoteType, x: NodeId, y: NodeId, s: NodeState)
      returns (n': Net)
    requires cfg.validators != [] && Closed(cfg, reach) && Right(cfg, scenes) && n in reach
    requires Field(n, a, b, c, d, p, q, 2 + k) && i in n.nodes && Scene(n.nodes[i], Pair(i, r, kind, x, y), s) in scenes
    requires x != i && y != i && Cast(n, VoteFor(r, kind, x).vote) && Cast(n, VoteFor(r, kind, y).vote)
    ensures n' in reach && Field(n', a, b, c, d, p, q, k) && n'.nodes == n.nodes[i := s] && n'.proposals == n.proposals
  {
    n' := Act(cfg, reach, scenes, n, a, b, c, d, p, q, k, i, Scene(n.nodes[i], Pair(i, r, kind, x, y), s));
  }

  /** The proposals arrive. */
  lemma ActOne(cfg: Config, reach: iset<Net>, scenes: iset<Scene>, a: NodeId, b: NodeId, c: NodeId, d: NodeId,
               p: Proposal, q: Proposal, sa: NodeState, sb: NodeState, sc: NodeState)
      returns (n: Net)
    requires p.height == 1 && q.height == 1 && p.round == 0 && q.round == 0
    requires cfg.validators != [] && ProposerFor(cfg, 1, 0).nodeId == d && d !in {a, b, c} && a != b && a != c && b != c
    requires Closed(cfg, reach) && Right(cfg, scenes) && Start(cfg, {a, b, c}) in reach
    requires Scene(Init(cfg, a), [Offer(a, p)], sa) in scenes && Scene(Init(cfg, b), [Offer(b, q)], sb) in scenes
    requires Scene(Init(cfg, c), [Offer(c, p), Offer(c, q)], sc) in scenes
    ensures n in reach && Field(n, a, b, c, d, p, q, 90) && Are(n, a, b, c, sa, sb, sc)
  {
    n := Opening(cfg, reach, a, b, c, d, p, q);
    assert Slack(n, 94);
    n := Act(cfg, reach, scenes, n, a, b, c, d, p, q, 92, c, Scene(Init(cfg, c), [Offer(c, p), Offer(c, q)], sc));
    n := Act(cfg, reach, scenes, n, a, b, c, d, p, q, 91, a, Scene(Init(cfg, a), [Offer(a, p)], sa));
    n := Act(cfg, reach, scenes, n, a, b, c, d, p, q, 90, b, Scene(Init(cfg, b), [Offer(b, q)], sb));
  }

  /** The middle counts, and precommits both. */
  lemma ActTwo(cfg: Config, reach: iset<Net>, scenes: iset<Scene>, n: Net, a: NodeId, b: NodeId, c: NodeId, d: NodeId,
               p: Proposal, q: Proposal, sa: NodeState, sb: NodeState, sc: NodeState, sc1: NodeState, sc2: NodeState)
      returns (n': Net)
    requires cfg.validators != [] && Closed(cfg, reach) && Right(cfg, scenes) && n in reach
    requires Field(n, a, b, c, d, p, q, 90) && Are(n, a, b, c, sa, sb, sc) && a != c && b != c
    requires VoteFor(p, Prevote, a).vote in sa.signed && VoteFor(q, Prevote, b).vote in sb.signed
    requires Scene(sc, Pair(c, p, Prevote, a, d), sc1) in scenes && Scene(sc1, Pair(c, q, Prevote, b, d), sc2) in scenes
    ensures n' in reach && Field(n', a, b, c, d, p, q, 86) && Are(n', a, b, c, sa, sb, sc2)
  {
    n' := Hear(cfg, reach, scenes, n, a, b, c, d, p, q, 88, c, p, Prevote, a, d, sc1);
    n' := Hear(cfg, reach, scenes, n', a, b, c, d, p, q, 86, c, q, Prevote, b, d, sc2);
  }

  /** An edge hears the deviating validator and the middle, twice. */
  lemma ActThree(cfg: Config, reach: iset<Net>, scenes: iset<Scene>, n: Net, a: NodeId, b: NodeId, c: NodeId, d: NodeId,
                 p: Proposal, q: Proposal, k: nat, i: NodeId, r: Proposal, s1: NodeState, s2: NodeState)
      returns (n': Net)
    requires cfg.validators != [] && Closed(cfg, reach) && Right(cfg, scenes) && n in reach
    requires Field(n, a, b, c, d, p, q, 4 + k) && i in n.nodes && i != c && c in n.nodes && (r == p || r == q)
    requires VoteFor(r, Prevote, c).vote in n.nodes[c].signed && VoteFor(r, Precommit, c).vote in n.nodes[c].signed
    requires Scene(n.nodes[i], Pair(i, r, Prevote, d, c), s1) in scenes && Scene(s1, Pair(i, r, Precommit, d, c), s2) in scenes
    ensures n' in reach && Field(n', a, b, c, d, p, q, k) && n'.nodes == n.nodes[i := s2] && n'.proposals == n.proposals
  {
    n' := Hear(cfg, reach, scenes, n, a, b, c, d, p, q, 2 + k, i, r, Prevote, d, c, s1);
    n' := Hear(cfg, reach, scenes, n', a, b, c, d, p, q, k, i, r, Precommit, d, c, s2);
  }

  lemma Play3(cfg: Config, reach: iset<Net>, scenes: iset<Scene>, a: NodeId, b: NodeId, c: NodeId, d: NodeId, p: Proposal, q: Proposal)
      returns (n: Net)
    requires Rivals(cfg, p, q) && Three(cfg, c, a, d) && Three(cfg, c, b, d) && a != b
    requires {a, b, d} == Ids(cfg.validators) - {c} && Right(cfg, scenes) && Full(cfg, scenes)
    requires ProposerFor(cfg, 1, 0).nodeId == d && Closed(cfg, reach) && Start(cfg, {a, b, c}) in reach
    ensures n in reach && Field(n, a, b, c, d, p, q, 78)
    ensures n.nodes[a].chain == [p.block] && n.nodes[b].chain == [q.block]
  {
    InitClear(cfg, a);
    InitClear(cfg, b);
    var sa1, sa2, sa3 := EdgeStory(cfg, scenes, Init(cfg, a), a, p, d, c);
    var sb1, sb2, sb3 := EdgeStory(cfg, scenes, Init(cfg, b), b, q, d, c);
    var sc1, sc2, sc3 := MiddleStory(cfg, scenes, a, b, c, d, p, q);
    n := ActOne(cfg, reach, scenes, a, b, c, d, p, q, sa1, sb1, sc1);
    n := ActTwo(cfg, reach, scenes, n, a, b, c, d, p, q, sa1, sb1, sc1, sc2, sc3);
    n := ActThree(cfg, reach, scenes, n, a, b, c, d, p, q, 82, a, p, sa2, sa3);
    n := ActThree(cfg, reach, scenes, n, a, b, c, d, p, q, 78, b, q, sb2, sb3);
  }

  lemma FourScene(cfg: Config, a: NodeId, b: NodeId, c: NodeId, d: NodeId)
    requires Cast4(cfg, a, b, c, d)
    ensures Three(cfg, c, a, d) && Three(cfg, c, b, d) && a != b && {a, b, d} == Ids(cfg.validators) - {c}
    ensures ProposerFor(cfg, 1, 0).nodeId == d && |Ids(cfg.validators) - {a, b, c}| <= Tolerated(|cfg.validators|)
  {
    FourIds(cfg, a, b, c, d);
    assert Ids(cfg.validators) - {a, b, c} == {d};
  }

  /** Every premise of agreement but the one on proposers holds at the end of this run, and two
  nodes that followed the protocol have committed different blocks at height 1. */
  lemma AgreementNeedsOneProposal(cfg: Config, a: NodeId, b: NodeId, c: NodeId, d: NodeId, p: Proposal, q: Proposal)
      returns (acts: seq<Action>)
    requires Cast4(cfg, a, b, c, d) && Rivals(cfg, p, q)
    ensures UnitPower(cfg.validators) && |cfg.validators| % 3 == 1
    ensures |Ids(cfg.validators) - {a, b, c}| <= Tolerated(|cfg.validators|)
    ensures Runs(cfg, Start(cfg, {a, b, c}), acts)
    ensures var n := After(cfg, Start(cfg, {a, b, c}), acts);
            && CollisionFree(HeaderStrings(n)) && !DeviantsProposeOnce(cfg, n)
            && a in n.nodes && b in n.nodes && n.nodes[a].chain == [p.block] && n.nodes[b].chain == [q.block]
            && p.block.header != q.block.header
  {
    var start := Start(cfg, {a, b, c});
    ReachClosed(cfg, start);
    FourScene(cfg, a, b, c, d);
    var n := Play3(cfg, ReachOf(cfg, start), ScenesOf(cfg), a, b, c, d, p, q);
    ProposedTwice(cfg, n, a, b, c, d, p, q);
    acts :| Reached(cfg, start, acts, n);
  }

  lemma ProposedTwice(cfg: Config, n: Net, a: NodeId, b: NodeId, c: NodeId, d: NodeId, p: Proposal, q: Proposal)
    requires cfg.validators != [] && ProposerFor(cfg, 1, 0).nodeId == d && Field(n, a, b, c, d, p, q, 0)
    requires p.round == 0 && q.round == 0 && BlockHash(p.block.header) != BlockHash(q.block.header)
    ensures CollisionFree(HeaderStrings(n)) && !DeviantsProposeOnce(cfg, n)
  {
    TwoHeaders(n, p, q);
    assert (1, 0, BlockHash(p.block.header)) in n.proposals && (1, 0, BlockHash(q.block.header)) in n.proposals;
  }

  lemma TwoHeaders(n: Net, p: Proposal, q: Proposal)
    requires n.blocks <= {p.block, q.block} && BlockHash(p.block.header) != BlockHash(q.block.header)
    ensures CollisionFree(HeaderStrings(n))
  {
  }
}
