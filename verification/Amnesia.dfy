/** Agreement needs that nodes do not restart: four validators, one of them deviating, which never
signs two proposals for one round. A node that has precommitted a block restarts, its lock is
gone, and it helps to decide another block in a later round. */
module Amnesia {
  import opened Base
  import opened Blocks
  import opened Slashing
  import opened Validators
  import opened Consensus
  import opened Network
  import opened Handlers
  import opened Agreement
  import opened Restart
  import opened Scripts
  import opened Four
  import opened Split

  // ---- Rounds that pass without a proposal ----

  /** Before anything of this round, and nothing on record of later ones. */
  ghost predicate Idle(s: NodeState, id: NodeId, r: u64) {
    && Clear(s, id, r) && s.phase.Proposing? && s.rs.proposal.None?
    && (forall q: u64, k, x :: q > r ==> Seen(s.slashes.votes, (1, q, k), x).None?)
  }

  /** The same in the middle of the round, when only nil votes of its own are on record. */
  ghost predicate Waiting(s: NodeState, id: NodeId, r: u64) {
    && Starting(s, id, r) && s.locked.None? && s.rs.proposal.None?
    && (forall q: u64, k, x :: q > r ==> Seen(s.slashes.votes, (1, q, k), x).None?)
  }

  lemma LaterUnseen(book: VoteBook, sv: SignedVote, r: u64)
    requires sv.vote.round == r && forall q: u64, k, x :: q > r ==> Seen(book, (1, q, k), x).None?
    ensures forall q: u64, k, x :: q > r ==> Seen(RecordVotes(book, sv), (1, q, k), x).None?
  {
    forall q: u64, k, x | q > r ensures Seen(RecordVotes(book, sv), (1, q, k), x).None? {
      RecordLeaves(book, sv, (1, q, k), x);
    }
  }

  /** A nil vote of its own. */
  lemma NilVote(cfg: Config, s: NodeState, id: NodeId, r: u64, kind: VoteType)
    requires FourSign(cfg) && id in Ids(cfg.validators) && Waiting(s, id, r) && Unseen(s, kind, id)
    ensures var s' := CastVote(cfg, s, kind, ZERO_HASH);
            && Waiting(s', id, r) && s.signed <= s'.signed
            && (kind.Prevote? && Unseen(s, Precommit, id) ==> Unseen(s', Precommit, id))
  {
    var sv := Ballot(s, kind, ZERO_HASH);
    assert sv == SignedBy(sv.vote);
    Verifies(cfg, sv.vote);
    var s0 := Sign(s, sv.vote);
    assert Unseen(s0, kind, id) && (Unseen(s, Precommit, id) ==> Unseen(s0, Precommit, id));
    CountHears(cfg, s0, sv);
    LaterUnseen(s0.slashes.votes, sv, r);
  }

  lemma RoundPasses(cfg: Config, s: NodeState, id: NodeId, r: u64)
    requires FourSign(cfg) && id in Ids(cfg.validators) && Idle(s, id, r) && r < U64_MAX
    ensures var s' := Expire(cfg, Expire(cfg, Expire(cfg, s)));
            Idle(s', id, r + 1) && s.signed <= s'.signed
  {
    assert Unseen(s, Prevote, id) && Unseen(s, Precommit, id);
    NilVote(cfg, s, id, r, Prevote);
    var s1 := Expire(cfg, s);
    assert s1 == SetPhase(CastPrevote(cfg, s, ZERO_HASH), Prevoting) && Waiting(s1, id, r) && Unseen(s1, Precommit, id);
    NilVote(cfg, s1, id, r, Precommit);
    var s2 := Expire(cfg, s1);
    assert s2 == SetPhase(CastPrecommit(cfg, s1, ZERO_HASH), Precommitting) && Waiting(s2, id, r);
    NextRound(cfg, s2, id, r);
  }

  lemma NextRound(cfg: Config, s: NodeState, id: NodeId, r: u64)
    requires Waiting(s, id, r) && s.phase.Precommitting? && r < U64_MAX
    ensures Idle(Expire(cfg, s), id, r + 1) && Expire(cfg, s).signed == s.signed
  {
    var s' := Expire(cfg, s);
    forall x ensures Unseen(s', Prevote, x) && Unseen(s', Precommit, x) {
      assert Seen(s.slashes.votes, (1, r + 1, Prevote), x).None? && Seen(s.slashes.votes, (1, r + 1, Precommit), x).None?;
    }
  }

  function Ticks(i: NodeId, m: nat): (script: seq<Action>)
    ensures |script| == 3 * m && forall a :: a in script ==> a == Timer(i)
  {
    if m == 0 then [] else [Timer(i), Timer(i), Timer(i)] + Ticks(i, m - 1)
  }

  lemma TicksPlayable(cfg: Config, n: Net, i: NodeId, m: nat)
    ensures AllPlayable(cfg, n, i, Ticks(i, m)) && Offered(Ticks(i, m)) == {}
  {
  }

  lemma OneRound(cfg: Config, scenes: iset<Scene>, s: NodeState, i: NodeId, r: u64) returns (s': NodeState)
    requires FourSign(cfg) && i in Ids(cfg.validators) && Idle(s, i, r) && r < U64_MAX && Full(cfg, scenes)
    ensures Scene(s, [Timer(i), Timer(i), Timer(i)], s') in scenes && Idle(s', i, r + 1)
  {
    RoundPasses(cfg, s, i, r);
    s' := Expire(cfg, Expire(cfg, Expire(cfg, s)));
    assert [Timer(i), Timer(i), Timer(i)] == [Timer(i)] + [Timer(i), Timer(i)];
    PlayCons(cfg, s, Timer(i), [Timer(i), Timer(i)]);
    PlayTwo(cfg, Expire(cfg, s), Timer(i), Timer(i));
    MakeScene(cfg, scenes, s, [Timer(i), Timer(i), Timer(i)]);
  }

  lemma {:induction false} RoundsPass(cfg: Config, scenes: iset<Scene>, s: NodeState, i: NodeId, r: u64, m: nat)
      returns (s': NodeState)
    requires FourSign(cfg) && i in Ids(cfg.validators) && Idle(s, i, r) && r + m < U64_MAX
    requires Right(cfg, scenes) && Full(cfg, scenes)
    ensures Scene(s, Ticks(i, m), s') in scenes && Idle(s', i, r + m)
    decreases m
  {
    if m == 0 {
      s' := s;
      MakeScene(cfg, scenes, s, []);
    } else {
      var s1 := OneRound(cfg, scenes, s, i, r);
      s' := RoundsPass(cfg, scenes, s1, i, r + 1, m - 1);
      JoinScenes(cfg, scenes, Scene(s, [Timer(i), Timer(i), Timer(i)], s1), Scene(s1, Ticks(i, m - 1), s'));
    }
  }

  // ---- The run before the restart ----

  /** Node `a` commits the first block with the votes of `c` and `d`. */
  lemma Before(cfg: Config, reach: iset<Net>, scenes: iset<Scene>, a: NodeId, b: NodeId, c: NodeId, d: NodeId,
               p: Proposal, q: Proposal, sa1: NodeState, sa2: NodeState, sa3: NodeState, sc1: NodeState, sc2: NodeState)
      returns (n: Net)
    requires p.height == 1 && q.height == 1 && cfg.validators != [] && d !in {a, b, c} && a != b && a != c && b != c
    requires ProposerFor(cfg, 1, p.round).nodeId == d && ProposerFor(cfg, 1, q.round).nodeId == d
    requires Closed(cfg, reach) && Right(cfg, scenes) && Start(cfg, {a, b, c}) in reach
    requires Scene(Init(cfg, a), [Offer(a, p)], sa1) in scenes && Scene(Init(cfg, c), [Offer(c, p)], sc1) in scenes
    requires Scene(sc1, Pair(c, p, Prevote, a, d), sc2) in scenes
    requires Scene(sa1, Pair(a, p, Prevote, d, c), sa2) in scenes && Scene(sa2, Pair(a, p, Precommit, d, c), sa3) in scenes
    requires VoteFor(p, Prevote, a).vote in sa1.signed
    requires VoteFor(p, Prevote, c).vote in sc2.signed && VoteFor(p, Precommit, c).vote in sc2.signed
    ensures n in reach && Field(n, a, b, c, d, p, q, 90) && Are(n, a, b, c, sa3, Init(cfg, b), sc2)
    ensures n.proposals == {(1, p.round, BlockHash(p.block.header)), (1, q.round, BlockHash(q.block.header))}
  {
    n := Opening(cfg, reach, a, b, c, d, p, q);
    assert Slack(n, 98);
    n := Act(cfg, reach, scenes, n, a, b, c, d, p, q, 97, c, Scene(Init(cfg, c), [Offer(c, p)], sc1));
    n := Act(cfg, reach, scenes, n, a, b, c, d, p, q, 96, a, Scene(Init(cfg, a), [Offer(a, p)], sa1));
    n := Hear(cfg, reach, scenes, n, a, b, c, d, p, q, 94, c, p, Prevote, a, d, sc2);
    n := ActThree(cfg, reach, scenes, n, a, b, c, d, p, q, 90, a, p, sa2, sa3);
  }

  // ---- The run after it ----

  lemma Wait(cfg: Config, reach: iset<Net>, scenes: iset<Scene>, n: Net, a: NodeId, b: NodeId, c: NodeId, d: NodeId,
             p: Proposal, q: Proposal, k: nat, i: NodeId, s: NodeState)
      returns (n': Net)
    requires cfg.validators != [] && Closed(cfg, reach) && Right(cfg, scenes) && n in reach
    requires Field(n, a, b, c, d, p, q, 12 + k) && i in n.nodes && Scene(n.nodes[i], Ticks(i, 4), s) in scenes
    ensures n' in reach && Field(n', a, b, c, d, p, q, k) && n'.nodes == n.nodes[i := s] && n'.proposals == n.proposals
  {
    TicksPlayable(cfg, n, i, 4);
    n' := Act(cfg, reach, scenes, n, a, b, c, d, p, q, k, i, Scene(n.nodes[i], Ticks(i, 4), s));
  }

  /** Both wait for the second proposal, and prevote it. */
  lemma Return(cfg: Config, reach: iset<Net>, scenes: iset<Scene>, n: Net, a: NodeId, b: NodeId, c: NodeId, d: NodeId,
               p: Proposal, q: Proposal, sb1: NodeState, sb2: NodeState, sc1: NodeState, sc2: NodeState)
      returns (n': Net)
    requires cfg.validators != [] && a != b && a != c && b != c
    requires Closed(cfg, reach) && Right(cfg, scenes) && n in reach && Field(n, a, b, c, d, p, q, 90)
    requires Scene(n.nodes[b], Ticks(b, 4), sb1) in scenes && Scene(sb1, [Offer(b, q)], sb2) in scenes
    requires Scene(n.nodes[c], Ticks(c, 4), sc1) in scenes && Scene(sc1, [Offer(c, q)], sc2) in scenes
    ensures n' in reach && Field(n', a, b, c, d, p, q, 64) && n'.proposals == n.proposals
    ensures Are(n', a, b, c, n.nodes[a], sb2, sc2)
  {
    n' := Wait(cfg, reach, scenes, n, a, b, c, d, p, q, 78, c, sc1);
    n' := Wait(cfg, reach, scenes, n', a, b, c, d, p, q, 66, b, sb1);
    n' := Act(cfg, reach, scenes, n', a, b, c, d, p, q, 65, c, Scene(sc1, [Offer(c, q)], sc2));
    n' := Act(cfg, reach, scenes, n', a, b, c, d, p, q, 64, b, Scene(sb1, [Offer(b, q)], sb2));
  }

  /** Node `b` commits the second block with the votes of `c` and `d`. */
  lemma Decide(cfg: Config, reach: iset<Net>, scenes: iset<Scene>, n: Net, a: NodeId, b: NodeId, c: NodeId, d: NodeId,
               p: Proposal, q: Proposal, sb3: NodeState, sb4: NodeState, sc3: NodeState)
      returns (n': Net)
    requires cfg.validators != [] && a != b && a != c && b != c
    requires Closed(cfg, reach) && Right(cfg, scenes) && n in reach && Field(n, a, b, c, d, p, q, 64)
    requires Scene(n.nodes[b], Pair(b, q, Prevote, d, c), sb3) in scenes && Scene(sb3, Pair(b, q, Precommit, d, c), sb4) in scenes
    requires Scene(n.nodes[c], Pair(c, q, Prevote, b, d), sc3) in scenes && VoteFor(q, Prevote, b).vote in n.nodes[b].signed
    requires VoteFor(q, Prevote, c).vote in sc3.signed && VoteFor(q, Precommit, c).vote in sc3.signed
    ensures n' in reach && Field(n', a, b, c, d, p, q, 58) && n'.proposals == n.proposals
    ensures n'.nodes[a] == n.nodes[a] && n'.nodes[b] == sb4
  {
    n' := Hear(cfg, reach, scenes, n, a, b, c, d, p, q, 62, c, q, Prevote, b, d, sc3);
    n' := ActThree(cfg, reach, scenes, n', a, b, c, d, p, q, 58, b, q, sb3, sb4);
  }

  // ---- The nodes ----

  /** One proposal of round 0 and one of round 4, by the same proposer. */
  ghost predicate Apart(cfg: Config, p: Proposal, q: Proposal) {
    && Proposable(cfg, p) && Proposable(cfg, q) && p.round == 0 && q.round == 4
    && BlockHash(p.block.header) != BlockHash(q.block.header)
  }

  /** Nothing of a node's vote reaches its store before the first commit. */
  lemma RebootIdle(cfg: Config, s: NodeState, id: NodeId)
    requires s.id == id && s.disk.None? && s.chain == []
    ensures Booted(cfg, s.id, s.disk).Some? && Idle(Reboot(cfg, s), id, 0) && Reboot(cfg, s).signed == s.signed
    ensures Reboot(cfg, s).locked.None?
  {
  }

  /** Up to the restart: `a` has committed the first block; `c`, which helped, has stored nothing. */
  lemma FirstPart(cfg: Config, reach: iset<Net>, scenes: iset<Scene>, a: NodeId, b: NodeId, c: NodeId, d: NodeId, p: Proposal, q: Proposal)
      returns (n: Net)
    requires Apart(cfg, p, q) && Three(cfg, c, a, d) && Three(cfg, c, b, d) && a != b
    requires ProposerFor(cfg, 1, 0).nodeId == d && ProposerFor(cfg, 1, 4).nodeId == d
    requires Closed(cfg, reach) && Right(cfg, scenes) && Full(cfg, scenes) && Start(cfg, {a, b, c}) in reach
    ensures n in reach && Field(n, a, b, c, d, p, q, 90) && n.nodes[a].chain == [p.block] && n.nodes[b] == Init(cfg, b)
    ensures n.nodes[c].id == c && n.nodes[c].chain == [] && VoteFor(p, Precommit, c).vote in n.nodes[c].signed
    ensures n.proposals == {(1, 0, BlockHash(p.block.header)), (1, 4, BlockHash(q.block.header))}
  {
    InitClear(cfg, a);
    InitClear(cfg, c);
    var sa1, sa2, sa3 := EdgeStory(cfg, scenes, Init(cfg, a), a, p, d, c);
    var sc1, sc2 := LockStory(cfg, scenes, Init(cfg, c), c, p, a, d);
    n := Before(cfg, reach, scenes, a, b, c, d, p, q, sa1, sa2, sa3, sc1, sc2);
  }

  /** From the restart on: `b` and `c` go through the rounds and decide the second block. */
  lemma SecondPart(cfg: Config, reach: iset<Net>, scenes: iset<Scene>, n: Net, a: NodeId, b: NodeId, c: NodeId, d: NodeId, p: Proposal, q: Proposal)
      returns (n': Net)
    requires Proposable(cfg, q) && q.round == 4 && Three(cfg, c, a, d) && Three(cfg, c, b, d) && a != b
    requires Closed(cfg, reach) && Right(cfg, scenes) && Full(cfg, scenes) && n in reach && Field(n, a, b, c, d, p, q, 90)
    requires Idle(n.nodes[b], b, 0) && Idle(n.nodes[c], c, 0)
    ensures n' in reach && Field(n', a, b, c, d, p, q, 58) && n'.proposals == n.proposals
    ensures n'.nodes[a] == n.nodes[a] && n'.nodes[b].chain == [q.block]
  {
    var sb1 := RoundsPass(cfg, scenes, n.nodes[b], b, 0, 4);
    var sb2, sb3, sb4 := EdgeStory(cfg, scenes, sb1, b, q, d, c);
    var sc1 := RoundsPass(cfg, scenes, n.nodes[c], c, 0, 4);
    var sc2, sc3 := LockStory(cfg, scenes, sc1, c, q, b, d);
    n' := Return(cfg, reach, scenes, n, a, b, c, d, p, q, sb1, sb2, sc1, sc2);
    n' := Decide(cfg, reach, scenes, n', a, b, c, d, p, q, sb3, sb4, sc3);
  }

  ghost predicate Restarts(cfg: Config, n: Net, c: NodeId, n': Net) {
    && c in n.nodes && Booted(cfg, n.nodes[c].id, n.nodes[c].disk).Some?
    && n' == Update(n, c, Reboot(cfg, n.nodes[c]))
  }

  lemma FieldRestarts(cfg: Config, n: Net, a: NodeId, b: NodeId, c: NodeId, d: NodeId, p: Proposal, q: Proposal) returns (n': Net)
    requires Field(n, a, b, c, d, p, q, 90) && n.nodes[c].id == c && n.nodes[c].disk.None? && n.nodes[c].chain == []
    ensures Restarts(cfg, n, c, n') && Field(n', a, b, c, d, p, q, 90) && n'.proposals == n.proposals
    ensures Idle(n'.nodes[c], c, 0) && forall j :: j in n.nodes && j != c ==> n'.nodes[j] == n.nodes[j]
  {
    RebootIdle(cfg, n.nodes[c], c);
    n' := Update(n, c, Reboot(cfg, n.nodes[c]));
  }

  lemma InitIdle(cfg: Config, id: NodeId)
    ensures Idle(Init(cfg, id), id, 0)
  {
  }

  lemma FourProposer(cfg: Config, a: NodeId, b: NodeId, c: NodeId, d: NodeId)
    requires Cast4(cfg, a, b, c, d)
    ensures ProposerFor(cfg, 1, 0).nodeId == d && ProposerFor(cfg, 1, 4).nodeId == d
  {
  }

  lemma NothingStored(cfg: Config, correct: set<NodeId>, acts: seq<Action>, c: NodeId)
    requires cfg.validators != [] && Runs(cfg, Start(cfg, correct), acts) && c in correct
    ensures c in After(cfg, Start(cfg, correct), acts).nodes
    ensures var s := After(cfg, Start(cfg, correct), acts).nodes[c]; s.chain == [] ==> s.disk.None?
  {
    RestartFromAnyState(cfg, correct, acts, c);
  }

  lemma ProposedOnce(cfg: Config, n: Net, p: Proposal, q: Proposal)
    requires cfg.validators != [] && n.blocks <= {p.block, q.block} && BlockHash(p.block.header) != BlockHash(q.block.header)
    requires n.proposals == {(1, 0, BlockHash(p.block.header)), (1, 4, BlockHash(q.block.header))}
    ensures CollisionFree(HeaderStrings(n)) && DeviantsProposeOnce(cfg, n)
  {
    TwoHeaders(n, p, q);
  }

  /** Every premise of agreement holds, and two nodes that followed the protocol have committed
  different blocks at height 1, because one of them restarted in between. */
  lemma AgreementNeedsTheLock(cfg: Config, a: NodeId, b: NodeId, c: NodeId, d: NodeId, p: Proposal, q: Proposal)
      returns (acts: seq<Action>, n: Net, acts': seq<Action>)
    requires Cast4(cfg, a, b, c, d) && Apart(cfg, p, q)
    ensures UnitPower(cfg.validators) && |cfg.validators| % 3 == 1
    ensures |Ids(cfg.validators) - {a, b, c}| <= Tolerated(|cfg.validators|)
    ensures Runs(cfg, Start(cfg, {a, b, c}), acts) && Restarts(cfg, After(cfg, Start(cfg, {a, b, c}), acts), c, n)
    ensures Runs(cfg, n, acts')
    ensures var last := After(cfg, n, acts');
            && CollisionFree(HeaderStrings(last)) && DeviantsProposeOnce(cfg, last)
            && a in last.nodes && b in last.nodes && last.nodes[a].chain == [p.block] && last.nodes[b].chain == [q.block]
            && p.block.header != q.block.header
  {
    var start, scenes := Start(cfg, {a, b, c}), ScenesOf(cfg);
    FourScene(cfg, a, b, c, d);
    FourProposer(cfg, a, b, c, d);
    ReachClosed(cfg, start);
    var n1 := FirstPart(cfg, ReachOf(cfg, start), scenes, a, b, c, d, p, q);
    acts :| Reached(cfg, start, acts, n1);
    NothingStored(cfg, {a, b, c}, acts, c);
    n := FieldRestarts(cfg, n1, a, b, c, d, p, q);
    InitIdle(cfg, b);
    ReachClosed(cfg, n);
    var n3 := SecondPart(cfg, ReachOf(cfg, n), scenes, n, a, b, c, d, p, q);
    acts' :| Reached(cfg, n, acts', n3);
    ProposedOnce(cfg, n3, p, q);
  }
}
