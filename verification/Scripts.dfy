/** Scripted runs: how to lay one action after another, node by node. Used to
exhibit particular runs. */
module Scripts {
  import opened Base
  import opened Blocks
  import opened Consensus
  import opened Network
  import opened Handlers

  // ---- One action after another ----

  ghost predicate Reached(cfg: Config, start: Net, acts: seq<Action>, n: Net)
    requires cfg.validators != []
  {
    Runs(cfg, start, acts) && After(cfg, start, acts) == n
  }

  lemma {:induction false} Extend(cfg: Config, start: Net, acts: seq<Action>, n: Net, a: Action)
    requires cfg.validators != [] && Reached(cfg, start, acts, n)
    requires Enabled(cfg, n, a) && Bounded(Next(cfg, n, a))
    ensures Reached(cfg, start, acts + [a], Next(cfg, n, a))
    decreases |acts|
  {
    if acts == [] {
      assert [a][0] == a && [a][1..] == [] && acts + [a] == [a];
    } else {
      assert (acts + [a])[0] == acts[0] && (acts + [a])[1..] == acts[1..] + [a];
      Extend(cfg, Next(cfg, start, acts[0]), acts[1..], n, a);
    }
  }

  /** A set of networks that every enabled action stays in. What a script needs of a run is only
  that its networks lie in such a set. */
  ghost predicate Closed(cfg: Config, reach: iset<Net>)
    requires cfg.validators != []
  {
    forall n :: n in reach ==> ClosedAt(cfg, reach, n)
  }

  ghost predicate ClosedAt(cfg: Config, reach: iset<Net>, n: Net)
    requires cfg.validators != []
  {
    forall a :: StaysIn(cfg, reach, n, a)
  }

  ghost predicate StaysIn(cfg: Config, reach: iset<Net>, n: Net, a: Action)
    requires cfg.validators != []
  {
    Enabled(cfg, n, a) && Bounded(Next(cfg, n, a)) ==> Next(cfg, n, a) in reach
  }

  ghost predicate CanReach(cfg: Config, start: Net, n: Net)
    requires cfg.validators != []
  {
    exists acts :: Reached(cfg, start, acts, n)
  }

  ghost function ReachOf(cfg: Config, start: Net): iset<Net>
    requires cfg.validators != []
  {
    iset n | CanReach(cfg, start, n)
  }

  lemma ReachNext(cfg: Config, start: Net, n: Net, a: Action)
    requires cfg.validators != [] && CanReach(cfg, start, n) && Enabled(cfg, n, a) && Bounded(Next(cfg, n, a))
    ensures CanReach(cfg, start, Next(cfg, n, a))
  {
    var acts :| Reached(cfg, start, acts, n);
    Extend(cfg, start, acts, n, a);
    assert Reached(cfg, start, acts + [a], Next(cfg, n, a));
  }

  lemma ReachClosed(cfg: Config, start: Net)
    requires cfg.validators != []
    ensures Closed(cfg, ReachOf(cfg, start)) && start in ReachOf(cfg, start)
  {
    assert Reached(cfg, start, [], start);
    forall n | n in ReachOf(cfg, start) ensures ClosedAt(cfg, ReachOf(cfg, start), n) {
      forall a ensures StaysIn(cfg, ReachOf(cfg, start), n, a) {
        if Enabled(cfg, n, a) && Bounded(Next(cfg, n, a)) { ReachNext(cfg, start, n, a); }
      }
    }
  }

  // ---- One node at a time ----

  /** A message or a timer for node `i` that the network allows. */
  ghost predicate Playable(cfg: Config, n: Net, i: NodeId, a: Action) {
    match a
    case Deliver(j, sv) => j == i && sv.vote.validator != i && Cast(n, sv.vote)
    case Offer(j, p) => j == i && (p.height, p.round, BlockHash(p.block.header)) in n.proposals
    case Timer(j) => j == i
    case _ => false
  }

  ghost function Play(cfg: Config, s: NodeState, a: Action): NodeState
    requires cfg.validators != []
  {
    match a
    case Deliver(_, sv) => HandleVote(cfg, s, sv)
    case Offer(_, p) => HandleProposal(cfg, s, p)
    case Timer(_) => Expire(cfg, s)
    case _ => s
  }

  ghost function PlayAll(cfg: Config, s: NodeState, script: seq<Action>): NodeState
    requires cfg.validators != []
    decreases |script|
  {
    if script == [] then s else PlayAll(cfg, Play(cfg, s, script[0]), script[1..])
  }

  ghost predicate Slack(n: Net, k: nat) {
    forall i :: i in n.nodes ==> |n.nodes[i].chain| + 1 + k < U64_MAX && n.nodes[i].round + k < U64_MAX
  }

  ghost predicate SmallStep(s: NodeState, s': NodeState) {
    |s'.chain| <= |s.chain| + 1 && s'.round <= s.round + 1
  }

  lemma PrecommitSmall(cfg: Config, s: NodeState, bh: Hash)
    ensures |CastPrecommit(cfg, s, bh).chain| <= |s.chain| + 1 && CastPrecommit(cfg, s, bh).round <= s.round
  {
  }

  lemma PrevoteSmall(cfg: Config, s: NodeState, sv: SignedVote)
    ensures |OnPrevote(cfg, s, sv).chain| <= |s.chain| + 1 && OnPrevote(cfg, s, sv).round <= s.round
  {
    if Accepts(cfg, s, sv) {
      PrecommitSmall(cfg, Count(cfg, s, sv).(locked := Some(sv.vote.blockHash)), sv.vote.blockHash);
    }
  }

  lemma CastPrevoteSmall(cfg: Config, s: NodeState, bh: Hash)
    ensures |CastPrevote(cfg, s, bh).chain| <= |s.chain| + 1 && CastPrevote(cfg, s, bh).round <= s.round
  {
    var sv := Ballot(s, Prevote, bh);
    PrevoteSmall(cfg, Sign(s, sv.vote), sv);
  }

  lemma ProposalSmall(cfg: Config, s: NodeState, p: Proposal)
    requires cfg.validators != []
    ensures SmallStep(s, HandleProposal(cfg, s, p))
  {
    CastPrevoteSmall(cfg, s, ZERO_HASH);
    var s1 := s.(rs := s.rs.(proposal := Some(p)));
    CastPrevoteSmall(cfg, s1, Choice(s1, BlockHash(p.block.header)));
  }

  lemma TimerSmall(cfg: Config, s: NodeState)
    ensures SmallStep(s, Expire(cfg, s))
  {
    if s.phase.Proposing? {
      CastPrevoteSmall(cfg, s, ZERO_HASH);
    } else if s.phase.Prevoting? {
      PrecommitSmall(cfg, s, ZERO_HASH);
    }
  }

  lemma PlaySmall(cfg: Config, s: NodeState, a: Action)
    requires cfg.validators != []
    ensures SmallStep(s, Play(cfg, s, a))
  {
    match a {
      case Deliver(_, sv) => PrevoteSmall(cfg, s, sv);
      case Offer(_, p) => ProposalSmall(cfg, s, p);
      case Timer(_) => TimerSmall(cfg, s);
      case _ =>
    }
  }

  function Offered(script: seq<Action>): set<Block> {
    set a | a in script && a.Offer? :: a.p.block
  }

  /** The network after one node has played its script. */
  ghost predicate Played(n: Net, n': Net, i: NodeId, s: NodeState, blocks: set<Block>) {
    && n'.nodes == n.nodes[i := s] && n'.deviant == n.deviant && n'.proposals == n.proposals
    && n'.blocks <= n.blocks + blocks
  }

  lemma PlayOne(cfg: Config, n: Net, i: NodeId, a: Action, k: nat)
    requires cfg.validators != [] && i in n.nodes && Playable(cfg, n, i, a) && Slack(n, k + 1)
    ensures Enabled(cfg, n, a) && Slack(Next(cfg, n, a), k) && Bounded(Next(cfg, n, a))
    ensures Played(n, Next(cfg, n, a), i, Play(cfg, n.nodes[i], a), if a.Offer? then {a.p.block} else {})
  {
    PlaySmall(cfg, n.nodes[i], a);
  }

  /** What is playable stays so while the node plays: it does not depend on the node's own votes. */
  lemma PlayableStays(cfg: Config, n: Net, n': Net, i: NodeId, s: NodeState, blocks: set<Block>, a: Action)
    requires Played(n, n', i, s, blocks) && i in n.nodes && Playable(cfg, n, i, a)
    ensures Playable(cfg, n', i, a)
  {
  }

  ghost predicate AllPlayable(cfg: Config, n: Net, i: NodeId, script: seq<Action>) {
    forall a :: a in script ==> Playable(cfg, n, i, a)
  }

  lemma {:induction false} Perform(cfg: Config, reach: iset<Net>, n: Net, i: NodeId, script: seq<Action>, k: nat)
      returns (n': Net)
    requires cfg.validators != [] && Closed(cfg, reach) && n in reach && i in n.nodes
    requires AllPlayable(cfg, n, i, script) && Slack(n, |script| + k)
    ensures n' in reach && Slack(n', k) && Played(n, n', i, PlayAll(cfg, n.nodes[i], script), Offered(script))
    decreases |script|
  {
    if script == [] {
      n' := n;
    } else {
      var a, rest := script[0], script[1..];
      assert a in script && forall x :: x in rest ==> x in script;
      PlayOne(cfg, n, i, a, |rest| + k);
      var n1 := Next(cfg, n, a);
      assert ClosedAt(cfg, reach, n) && StaysIn(cfg, reach, n, a);
      forall x | x in rest ensures Playable(cfg, n1, i, x) {
        PlayableStays(cfg, n, n1, i, Play(cfg, n.nodes[i], a), if a.Offer? then {a.p.block} else {}, x);
      }
      n' := Perform(cfg, reach, n1, i, rest, k);
      OfferedSplit(script);
    }
  }

  lemma OfferedSplit(script: seq<Action>)
    requires script != []
    ensures Offered(script) == (if script[0].Offer? then {script[0].p.block} else {}) + Offered(script[1..])
  {
    assert script == [script[0]] + script[1..];
  }

  lemma PlayCons(cfg: Config, s: NodeState, w: Action, rest: seq<Action>)
    requires cfg.validators != []
    ensures PlayAll(cfg, s, [w] + rest) == PlayAll(cfg, Play(cfg, s, w), rest)
  {
    assert ([w] + rest)[1..] == rest;
  }

  lemma PlayJust(cfg: Config, s: NodeState, w: Action)
    requires cfg.validators != []
    ensures PlayAll(cfg, s, [w]) == Play(cfg, s, w)
  {
    assert [w] == [w] + [];
    PlayCons(cfg, s, w, []);
  }

  lemma PlayTwo(cfg: Config, s: NodeState, w: Action, x: Action)
    requires cfg.validators != []
    ensures PlayAll(cfg, s, [w, x]) == Play(cfg, Play(cfg, s, w), x)
  {
    assert [w, x] == [w] + [x];
    PlayCons(cfg, s, w, [x]);
    PlayJust(cfg, Play(cfg, s, w), x);
  }

  lemma DeviateVote(cfg: Config, reach: iset<Net>, n: Net, v: Vote)
    requires cfg.validators != [] && Closed(cfg, reach) && n in reach && Slack(n, 0) && v.validator !in n.nodes
    ensures n.(deviant := n.deviant + {v}) in reach
  {
    assert ClosedAt(cfg, reach, n) && StaysIn(cfg, reach, n, DeviantVote(v));
    assert Next(cfg, n, DeviantVote(v)) == n.(deviant := n.deviant + {v});
  }

  lemma DeviatePropose(cfg: Config, reach: iset<Net>, n: Net, h: u64, r: u64, bh: Hash)
    requires cfg.validators != [] && Closed(cfg, reach) && n in reach && Slack(n, 0)
    requires ProposerFor(cfg, h, r).nodeId !in n.nodes
    ensures n.(proposals := n.proposals + {(h, r, bh)}) in reach
  {
    assert ClosedAt(cfg, reach, n) && StaysIn(cfg, reach, n, DeviantProposal(h, r, bh));
    assert Next(cfg, n, DeviantProposal(h, r, bh)) == n.(proposals := n.proposals + {(h, r, bh)});
  }

  // ---- Scripts as facts ----

  /** A state, a script, and the state it leads to. */
  datatype Scene = Scene(before: NodeState, script: seq<Action>, after: NodeState)

  ghost predicate IsScene(cfg: Config, t: Scene)
    requires cfg.validators != []
  {
    t.after == PlayAll(cfg, t.before, t.script)
  }

  /** Scenes known to be right. A run needs no more of them than that. */
  ghost predicate Right(cfg: Config, scenes: iset<Scene>)
    requires cfg.validators != []
  {
    forall t {:trigger IsScene(cfg, t)} :: t in scenes ==> IsScene(cfg, t)
  }

  ghost predicate Full(cfg: Config, scenes: iset<Scene>)
    requires cfg.validators != []
  {
    forall t {:trigger IsScene(cfg, t)} :: IsScene(cfg, t) ==> t in scenes
  }

  ghost function ScenesOf(cfg: Config): (scenes: iset<Scene>)
    requires cfg.validators != []
    ensures Right(cfg, scenes) && Full(cfg, scenes)
  {
    iset t | IsScene(cfg, t)
  }

  lemma MakeScene(cfg: Config, scenes: iset<Scene>, s: NodeState, script: seq<Action>)
    requires cfg.validators != [] && Full(cfg, scenes)
    ensures Scene(s, script, PlayAll(cfg, s, script)) in scenes
  {
    assert IsScene(cfg, Scene(s, script, PlayAll(cfg, s, script)));
  }

  lemma {:induction false} PlayConcat(cfg: Config, s: NodeState, a: seq<Action>, b: seq<Action>)
    requires cfg.validators != []
    ensures PlayAll(cfg, s, a + b) == PlayAll(cfg, PlayAll(cfg, s, a), b)
    decreases |a|
  {
    if a == [] {
      assert a + b == b;
    } else {
      assert a + b == [a[0]] + (a[1..] + b) && a == [a[0]] + a[1..];
      PlayCons(cfg, s, a[0], a[1..] + b);
      PlayConcat(cfg, Play(cfg, s, a[0]), a[1..], b);
    }
  }

  lemma JoinScenes(cfg: Config, scenes: iset<Scene>, t: Scene, u: Scene)
    requires cfg.validators != [] && Right(cfg, scenes) && Full(cfg, scenes) && t in scenes && u in scenes
    requires t.after == u.before
    ensures Scene(t.before, t.script + u.script, u.after) in scenes
  {
    assert IsScene(cfg, t) && IsScene(cfg, u);
    PlayConcat(cfg, t.before, t.script, u.script);
    assert IsScene(cfg, Scene(t.before, t.script + u.script, u.after));
  }

  /** One node plays a scene in the network. */
  lemma Stage(cfg: Config, reach: iset<Net>, scenes: iset<Scene>, n: Net, i: NodeId, t: Scene, k: nat)
      returns (n': Net)
    requires cfg.validators != [] && Closed(cfg, reach) && Right(cfg, scenes) && n in reach && i in n.nodes
    requires t in scenes && t.before == n.nodes[i] && AllPlayable(cfg, n, i, t.script) && Slack(n, |t.script| + k)
    ensures n' in reach && Slack(n', k) && Played(n, n', i, t.after, Offered(t.script))
  {
    assert IsScene(cfg, t);
    n' := Perform(cfg, reach, n, i, t.script, k);
  }
}
