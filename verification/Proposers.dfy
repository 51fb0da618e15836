/** A node that follows the protocol signs at most one proposal per height and round. */
module Proposers {
  import opened Base
  import opened Blocks
  import opened Consensus
  import opened Network
  import opened Handlers

  // ---- Height and round only rise, and `proposed` is reset only with them ----

  ghost predicate Later(s: NodeState, s': NodeState) {
    s'.height > s.height || (s'.height == s.height && s'.round > s.round)
  }

  ghost predicate Advances(s: NodeState, s': NodeState) {
    Later(s, s') || (s'.height == s.height && s'.round == s.round && (s.rs.proposed ==> s'.rs.proposed))
  }

  /** The block held is one of the current height, which is not the last one there is. */
  ghost predicate HoldsCurrent(s: NodeState) {
    s.rs.proposal.Some? ==> s.rs.proposal.value.block.header.height == s.height
  }

  lemma PrecommitAdvances(cfg: Config, s: NodeState, sv: SignedVote)
    requires HoldsCurrent(s) && s.height < U64_MAX
    ensures Advances(s, OnPrecommit(cfg, s, sv))
  {
  }

  lemma CastPrecommitAdvances(cfg: Config, s: NodeState, bh: Hash)
    requires HoldsCurrent(s) && s.height < U64_MAX
    ensures Advances(s, CastPrecommit(cfg, s, bh))
  {
    var sv := Ballot(s, Precommit, bh);
    PrecommitAdvances(cfg, Sign(s, sv.vote), sv);
  }

  lemma PrevoteAdvances(cfg: Config, s: NodeState, sv: SignedVote)
    requires HoldsCurrent(s) && s.height < U64_MAX
    ensures Advances(s, OnPrevote(cfg, s, sv))
  {
    if Accepts(cfg, s, sv) {
      CastPrecommitAdvances(cfg, Count(cfg, s, sv).(locked := Some(sv.vote.blockHash)), sv.vote.blockHash);
    }
  }

  lemma CastPrevoteAdvances(cfg: Config, s: NodeState, bh: Hash)
    requires HoldsCurrent(s) && s.height < U64_MAX
    ensures Advances(s, CastPrevote(cfg, s, bh))
  {
    var sv := Ballot(s, Prevote, bh);
    PrevoteAdvances(cfg, Sign(s, sv.vote), sv);
  }

  lemma ProposalAdvances(cfg: Config, s: NodeState, p: Proposal)
    requires cfg.validators != [] && HoldsCurrent(s) && s.height < U64_MAX
    ensures Advances(s, HandleProposal(cfg, s, p))
  {
    CastPrevoteAdvances(cfg, s, ZERO_HASH);
    if Fits(cfg, s, p.block) {
      var s1 := s.(rs := s.rs.(proposal := Some(p)));
      CastPrevoteAdvances(cfg, s1, Choice(s1, BlockHash(p.block.header)));
    }
  }

  lemma TimerAdvances(cfg: Config, s: NodeState)
    requires HoldsCurrent(s) && s.height < U64_MAX && s.round < U64_MAX
    ensures Advances(s, Expire(cfg, s))
  {
    CastPrevoteAdvances(cfg, s, ZERO_HASH);
    CastPrecommitAdvances(cfg, s, ZERO_HASH);
  }

  /** A node that proposes has proposed, or has moved on. */
  lemma ProposeAdvances(cfg: Config, s: NodeState, now: u64)
    requires cfg.validators != [] && HoldsCurrent(s) && s.height < U64_MAX
    ensures Advances(s, MaybePropose(cfg, s, now))
    ensures Proposes(cfg, s) ==>
      Later(s, MaybePropose(cfg, s, now)) || MaybePropose(cfg, s, now).rs.proposed
  {
    if Proposes(cfg, s) {
      var p := SignProposal(s, BuildBlock(cfg, s, now));
      var s1 := Send(s.(rs := s.rs.(proposed := true, proposal := Some(p))), ProposalMessage(p));
      ProposalAdvances(cfg, s1, p);
    }
  }

  // ---- Over every run ----

  /** The node has moved past this proposal's height and round, or has proposed in it. */
  ghost predicate Spent(s: NodeState, h: u64, r: u64) {
    h < s.height || (h == s.height && (r < s.round || (r == s.round && s.rs.proposed)))
  }

  lemma SpentStays(s: NodeState, s': NodeState, h: u64, r: u64)
    requires Spent(s, h, r) && Advances(s, s')
    ensures Spent(s', h, r)
  {
  }

  ghost predicate Own(cfg: Config, n: Net, t: (u64, u64, Hash))
    requires cfg.validators != []
  {
    t in n.proposals && ProposerFor(cfg, t.0, t.1).nodeId in n.nodes
  }

  ghost predicate Once(cfg: Config, n: Net)
    requires cfg.validators != []
  {
    && (forall t :: Own(cfg, n, t) ==> Spent(n.nodes[ProposerFor(cfg, t.0, t.1).nodeId], t.0, t.1))
    && (forall t, u :: Own(cfg, n, t) && Own(cfg, n, u) && t.0 == u.0 && t.1 == u.1 ==> t.2 == u.2)
  }

  lemma ActAdvances(cfg: Config, n: Net, a: Action, i: NodeId)
    requires cfg.validators != [] && Inv(cfg, QuorumsOf(cfg), n) && Enabled(cfg, n, a) && i in n.nodes
    requires Bounded(n)
    ensures Advances(n.nodes[i], Next(cfg, n, a).nodes[i])
  {
    var s := n.nodes[i];
    assert Sound(cfg, QuorumsOf(cfg), n, i);
    if !a.DeviantVote? && !a.DeviantProposal? && a.node == i {
      match a {
        case Deliver(_, sv) =>
          if sv.vote.kind.Prevote? { PrevoteAdvances(cfg, s, sv); } else { PrecommitAdvances(cfg, s, sv); }
        case Offer(_, p) => ProposalAdvances(cfg, s, p);
        case Propose(_, now) => ProposeAdvances(cfg, s, now);
        case Timer(_) => TimerAdvances(cfg, s);
        case Submit(_, _, _) =>
      }
    }
  }

  /** Proposals that are there before a step. */
  lemma OldSpent(cfg: Config, n: Net, a: Action, t: (u64, u64, Hash))
    requires cfg.validators != [] && Inv(cfg, QuorumsOf(cfg), n) && Enabled(cfg, n, a) && Bounded(n)
    requires Once(cfg, n) && Own(cfg, n, t)
    ensures var i := ProposerFor(cfg, t.0, t.1).nodeId;
            i in Next(cfg, n, a).nodes && Spent(Next(cfg, n, a).nodes[i], t.0, t.1)
  {
    var i := ProposerFor(cfg, t.0, t.1).nodeId;
    ActAdvances(cfg, n, a, i);
    SpentStays(n.nodes[i], Next(cfg, n, a).nodes[i], t.0, t.1);
  }

  /** A proposal that a step adds for a correct proposer is that proposer's own, and the first. */
  lemma NewSpent(cfg: Config, n: Net, a: Action, t: (u64, u64, Hash))
    requires cfg.validators != [] && Inv(cfg, QuorumsOf(cfg), n) && Enabled(cfg, n, a) && Bounded(n)
    requires Own(cfg, Next(cfg, n, a), t) && t !in n.proposals
    ensures a.Propose? && Proposes(cfg, n.nodes[a.node]) && a.node == ProposerFor(cfg, t.0, t.1).nodeId
    ensures var s := n.nodes[a.node];
            && t == (s.height, s.round, BlockHash(BuildBlock(cfg, s, a.now).header))
            && Spent(Next(cfg, n, a).nodes[a.node], t.0, t.1)
  {
    if a.Propose? {
      var s := n.nodes[a.node];
      assert Sound(cfg, QuorumsOf(cfg), n, a.node);
      ProposeAdvances(cfg, s, a.now);
    }
  }

  lemma NextOnce(cfg: Config, n: Net, a: Action)
    requires cfg.validators != [] && Inv(cfg, QuorumsOf(cfg), n) && Enabled(cfg, n, a) && Bounded(n)
    requires Once(cfg, n)
    ensures Once(cfg, Next(cfg, n, a))
  {
    var n' := Next(cfg, n, a);
    NextNodes(cfg, n, a);
    forall t | Own(cfg, n', t) ensures Spent(n'.nodes[ProposerFor(cfg, t.0, t.1).nodeId], t.0, t.1) {
      if t in n.proposals { OldSpent(cfg, n, a, t); } else { NewSpent(cfg, n, a, t); }
    }
    forall t, u | Own(cfg, n', t) && Own(cfg, n', u) && t.0 == u.0 && t.1 == u.1 ensures t.2 == u.2 {
      if t !in n.proposals { NewSpent(cfg, n, a, t); }
      if u !in n.proposals { NewSpent(cfg, n, a, u); }
      assert t in n.proposals ==> Own(cfg, n, t);
      assert u in n.proposals ==> Own(cfg, n, u);
    }
  }

  lemma {:induction false} RunOnce(cfg: Config, n: Net, acts: seq<Action>)
    requires cfg.validators != [] && Runs(cfg, n, acts) && Inv(cfg, QuorumsOf(cfg), n) && Bounded(n) && Once(cfg, n)
    ensures Once(cfg, After(cfg, n, acts))
    decreases |acts|
  {
    if acts != [] {
      NextOnce(cfg, n, acts[0]);
      NextKeeps(cfg, n, acts[0]);
      RunOnce(cfg, Next(cfg, n, acts[0]), acts[1..]);
    }
  }

  /** Whatever happens, a correct proposer has signed one header per height and round. */
  lemma CorrectProposersSignOnce(cfg: Config, correct: set<NodeId>, acts: seq<Action>, t: (u64, u64, Hash), u: (u64, u64, Hash))
    requires cfg.validators != [] && Runs(cfg, Start(cfg, correct), acts)
    requires var n := After(cfg, Start(cfg, correct), acts);
             t in n.proposals && u in n.proposals && t.0 == u.0 && t.1 == u.1
    requires ProposerFor(cfg, t.0, t.1).nodeId in correct
    ensures t == u
  {
    var start := Start(cfg, correct);
    StartInv(cfg, correct);
    RunOnce(cfg, start, acts);
    RunNodes(cfg, start, acts);
    assert Own(cfg, After(cfg, start, acts), t) && Own(cfg, After(cfg, start, acts), u);
  }
}
