/** The slashing books of a node in every state a run of the network can reach. */
module Penalties {
  import opened Base
  import opened Blocks
  import opened Slashing
  import opened Stakes
  import opened Validators
  import opened Consensus
  import opened Network
  import opened Handlers
  import opened Proposers

  /** The books of `id` are in order at the node's height, and the original stakes untouched. */
  ghost predicate Fair(cfg: Config, s: NodeState, id: NodeId)
    requires cfg.slashing.doubleSignPercent <= 100
  {
    s.slashes.original == InitialStakes(cfg.validators) && Account(s.slashes, cfg.slashing, s.height, id)
  }

  lemma FairLater(cfg: Config, s: NodeState, s': NodeState, id: NodeId)
    requires cfg.slashing.doubleSignPercent <= 100 && Fair(cfg, s, id)
    requires s'.slashes == s.slashes && s.height <= s'.height
    ensures Fair(cfg, s', id)
  {
    LaterTerms(s.slashes, cfg.slashing, s.height, s'.height, id);
  }

  lemma CountFair(cfg: Config, s: NodeState, sv: SignedVote, id: NodeId)
    requires cfg.slashing.doubleSignPercent <= 100 && Fair(cfg, s, id) && Accepts(cfg, s, sv)
    ensures Fair(cfg, Count(cfg, s, sv), id)
  {
    ObserveKeeps(s.slashes, cfg.slashing, sv, id);
  }

  lemma PrecommitFair(cfg: Config, s: NodeState, sv: SignedVote, id: NodeId)
    requires cfg.slashing.doubleSignPercent <= 100 && Fair(cfg, s, id) && HoldsCurrent(s) && s.height < U64_MAX
    ensures Fair(cfg, OnPrecommit(cfg, s, sv), id)
  {
    if Accepts(cfg, s, sv) {
      CountFair(cfg, s, sv, id);
      FairLater(cfg, Count(cfg, s, sv), OnPrecommit(cfg, s, sv), id);
    }
  }

  lemma CastPrecommitFair(cfg: Config, s: NodeState, bh: Hash, id: NodeId)
    requires cfg.slashing.doubleSignPercent <= 100 && Fair(cfg, s, id) && HoldsCurrent(s) && s.height < U64_MAX
    ensures Fair(cfg, CastPrecommit(cfg, s, bh), id)
  {
    var sv := Ballot(s, Precommit, bh);
    PrecommitFair(cfg, Sign(s, sv.vote), sv, id);
  }

  lemma PrevoteFair(cfg: Config, s: NodeState, sv: SignedVote, id: NodeId)
    requires cfg.slashing.doubleSignPercent <= 100 && Fair(cfg, s, id) && HoldsCurrent(s) && s.height < U64_MAX
    ensures Fair(cfg, OnPrevote(cfg, s, sv), id)
  {
    if Accepts(cfg, s, sv) {
      CountFair(cfg, s, sv, id);
      CastPrecommitFair(cfg, Count(cfg, s, sv).(locked := Some(sv.vote.blockHash)), sv.vote.blockHash, id);
    }
  }

  lemma CastPrevoteFair(cfg: Config, s: NodeState, bh: Hash, id: NodeId)
    requires cfg.slashing.doubleSignPercent <= 100 && Fair(cfg, s, id) && HoldsCurrent(s) && s.height < U64_MAX
    ensures Fair(cfg, CastPrevote(cfg, s, bh), id)
  {
    var sv := Ballot(s, Prevote, bh);
    PrevoteFair(cfg, Sign(s, sv.vote), sv, id);
  }

  lemma ProposalFair(cfg: Config, s: NodeState, p: Proposal, id: NodeId)
    requires cfg.validators != [] && cfg.slashing.doubleSignPercent <= 100
    requires Fair(cfg, s, id) && HoldsCurrent(s) && s.height < U64_MAX
    ensures Fair(cfg, HandleProposal(cfg, s, p), id)
  {
    CastPrevoteFair(cfg, s, ZERO_HASH, id);
    if Fits(cfg, s, p.block) {
      var s1 := s.(rs := s.rs.(proposal := Some(p)));
      CastPrevoteFair(cfg, s1, Choice(s1, BlockHash(p.block.header)), id);
    }
  }

  lemma ProposeFair(cfg: Config, s: NodeState, now: u64, id: NodeId)
    requires cfg.validators != [] && cfg.slashing.doubleSignPercent <= 100
    requires Fair(cfg, s, id) && HoldsCurrent(s) && s.height < U64_MAX
    ensures Fair(cfg, MaybePropose(cfg, s, now), id)
  {
    if Proposes(cfg, s) {
      var p := SignProposal(s, BuildBlock(cfg, s, now));
      ProposalFair(cfg, Send(s.(rs := s.rs.(proposed := true, proposal := Some(p))), ProposalMessage(p)), p, id);
    }
  }

  lemma TimerFair(cfg: Config, s: NodeState, id: NodeId)
    requires cfg.slashing.doubleSignPercent <= 100 && Fair(cfg, s, id) && HoldsCurrent(s) && s.height < U64_MAX
    ensures Fair(cfg, Expire(cfg, s), id)
  {
    CastPrevoteFair(cfg, s, ZERO_HASH, id);
    CastPrecommitFair(cfg, s, ZERO_HASH, id);
  }

  lemma NextFair(cfg: Config, n: Net, a: Action, i: NodeId, id: NodeId)
    requires cfg.validators != [] && cfg.slashing.doubleSignPercent <= 100
    requires Inv(cfg, QuorumsOf(cfg), n) && Enabled(cfg, n, a) && Bounded(n) && i in n.nodes
    requires Fair(cfg, n.nodes[i], id)
    ensures Fair(cfg, Next(cfg, n, a).nodes[i], id)
  {
    var s := n.nodes[i];
    assert Sound(cfg, QuorumsOf(cfg), n, i);
    if !a.DeviantVote? && !a.DeviantProposal? && a.node == i {
      match a {
        case Deliver(_, sv) =>
          if sv.vote.kind.Prevote? { PrevoteFair(cfg, s, sv, id); } else { PrecommitFair(cfg, s, sv, id); }
        case Offer(_, p) => ProposalFair(cfg, s, p, id);
        case Propose(_, now) => ProposeFair(cfg, s, now, id);
        case Timer(_) => TimerFair(cfg, s, id);
        case Submit(_, _, _) =>
      }
    }
  }

  lemma {:induction false} RunFair(cfg: Config, n: Net, acts: seq<Action>, i: NodeId, id: NodeId)
    requires cfg.validators != [] && cfg.slashing.doubleSignPercent <= 100 && Runs(cfg, n, acts)
    requires Inv(cfg, QuorumsOf(cfg), n) && Bounded(n) && i in n.nodes && Fair(cfg, n.nodes[i], id)
    ensures i in After(cfg, n, acts).nodes && Fair(cfg, After(cfg, n, acts).nodes[i], id)
    decreases |acts|
  {
    if acts != [] {
      NextNodes(cfg, n, acts[0]);
      NextFair(cfg, n, acts[0], i, id);
      NextKeeps(cfg, n, acts[0]);
      RunFair(cfg, Next(cfg, n, acts[0]), acts[1..], i, id);
    }
  }

  lemma {:induction false} StakesListed(vs: seq<ValidatorInfo>, id: NodeId)
    ensures id in InitialStakes(vs) <==> id in Ids(vs)
  {
    if vs != [] {
      var n := |vs| - 1;
      StakesListed(vs[..n], id);
      IdsSnoc(vs);
    }
  }

  /** Whatever is delivered to a node, in every reachable state and for every validator: the
  original stake is the current one plus all recorded slashes; k slashes leave at least the k-th
  power of the remaining share; slashes are a jail term apart; below 100 percent, no stake is
  ever used up. */
  lemma StakesInEveryState(cfg: Config, correct: set<NodeId>, acts: seq<Action>, i: NodeId, id: NodeId)
    requires cfg.validators != [] && cfg.slashing.doubleSignPercent < 100
    requires Runs(cfg, Start(cfg, correct), acts) && i in correct && id in Ids(cfg.validators)
    ensures i in After(cfg, Start(cfg, correct), acts).nodes
    ensures var st := After(cfg, Start(cfg, correct), acts).nodes[i].slashes;
            && id in InitialStakes(cfg.validators) && id in st.stakes
            && InitialStakes(cfg.validators)[id] == st.stakes[id] + Sum(RecordsOf(st.slashed, id))
            && Proportional(st, cfg.slashing.doubleSignPercent, id) && Spaced(st, cfg.slashing, id)
            && (InitialStakes(cfg.validators)[id] > 0 ==> st.stakes[id] > 0)
  {
    var start := Start(cfg, correct);
    StakesListed(cfg.validators, id);
    StartInv(cfg, correct);
    assert Fair(cfg, start.nodes[i], id);
    RunFair(cfg, start, acts, i, id);
    var st := After(cfg, start, acts).nodes[i].slashes;
    if InitialStakes(cfg.validators)[id] > 0 {
      StakeLeft(st, cfg.slashing.doubleSignPercent, id);
    }
  }
}
