/** The handlers keep the network's invariant, so every run does. */
module Handlers {
  import opened Base
  import opened Blocks
  import opened Consensus
  import opened Network
  import opened Steps

  lemma UpdateTwice(n: Net, i: NodeId, s: NodeState, t: NodeState)
    ensures Update(Update(n, i, s), i, t) == Update(n, i, t)
  {
  }

  lemma IdleAfter(cfg: Config, qs: Quorums, n: Net, i: NodeId, s: NodeState, t: NodeState)
    requires i in n.nodes && Inv(cfg, qs, Update(n, i, s))
    requires Quiet(s, t) && t.rs == s.rs && t.round == s.round
    ensures Inv(cfg, qs, Update(n, i, t))
  {
    UpdateTwice(n, i, s, t);
    IdleKeeps(cfg, qs, Update(n, i, s), i, t);
  }

  lemma OnPrecommitKeeps(cfg: Config, n: Net, i: NodeId, sv: SignedVote)
    requires Inv(cfg, QuorumsOf(cfg), n) && i in n.nodes && sv.vote.kind.Precommit?
    requires VerifyVote(cfg, sv) ==> Cast(n, sv.vote)
    requires |OnPrecommit(cfg, n.nodes[i], sv).chain| < U64_MAX
    ensures Inv(cfg, QuorumsOf(cfg), Update(n, i, OnPrecommit(cfg, n.nodes[i], sv)))
  {
    var s, qs := n.nodes[i], QuorumsOf(cfg);
    if !Accepts(cfg, s, sv) {
      assert Update(n, i, s) == n;
    } else {
      var s1 := Count(cfg, s, sv);
      CountKeeps(cfg, qs, n, i, sv);
      var s2 := OnPrecommit(cfg, s, sv);
      if s2 != s1 {
        var n1 := Update(n, i, s1);
        CommitKeeps(cfg, qs, n1, i, s1.rs.proposal.value.block);
        UpdateTwice(n, i, s1, s2);
      }
    }
  }

  /** Given that signing keeps the invariant, so do handling one's own precommit and sending it. */
  lemma CastPrecommitKeeps(cfg: Config, n: Net, i: NodeId, s: NodeState, bh: Hash)
    requires i in n.nodes && s.id == i
    requires Inv(cfg, QuorumsOf(cfg), Update(n, i, Sign(s, Ballot(s, Precommit, bh).vote)))
    requires |CastPrecommit(cfg, s, bh).chain| < U64_MAX
    ensures Inv(cfg, QuorumsOf(cfg), Update(n, i, CastPrecommit(cfg, s, bh)))
  {
    var sv := Ballot(s, Precommit, bh);
    var s1 := Sign(s, sv.vote);
    var n1 := Update(n, i, s1);
    OnPrecommitKeeps(cfg, n1, i, sv);
    var s2 := OnPrecommit(cfg, s1, sv);
    UpdateTwice(n, i, s1, s2);
    IdleAfter(cfg, QuorumsOf(cfg), n, i, s2, CastPrecommit(cfg, s, bh));
  }

  lemma OnPrevoteKeeps(cfg: Config, n: Net, i: NodeId, sv: SignedVote)
    requires Inv(cfg, QuorumsOf(cfg), n) && i in n.nodes && n.nodes[i].id == i && sv.vote.kind.Prevote?
    requires VerifyVote(cfg, sv) ==> Cast(n, sv.vote)
    requires |OnPrevote(cfg, n.nodes[i], sv).chain| < U64_MAX
    ensures Inv(cfg, QuorumsOf(cfg), Update(n, i, OnPrevote(cfg, n.nodes[i], sv)))
  {
    var s, qs := n.nodes[i], QuorumsOf(cfg);
    if !Accepts(cfg, s, sv) {
      assert Update(n, i, s) == n;
    } else {
      var s1 := Count(cfg, s, sv);
      CountKeeps(cfg, qs, n, i, sv);
      if HasQuorum(cfg, s1, sv.vote) {
        LockKeeps(cfg, n, i, s1, sv.vote.blockHash);
      }
    }
  }

  lemma LockKeeps(cfg: Config, n: Net, i: NodeId, s: NodeState, bh: Hash)
    requires i in n.nodes && s.id == i && Inv(cfg, QuorumsOf(cfg), Update(n, i, s))
    requires bh != ZERO_HASH && VotesFor(s.rs, Prevote, bh) in QuorumsOf(cfg)
    requires |CastPrecommit(cfg, s.(locked := Some(bh)), bh).chain| < U64_MAX
    ensures Inv(cfg, QuorumsOf(cfg), Update(n, i, SetPhase(CastPrecommit(cfg, s.(locked := Some(bh)), bh), Precommitting)))
  {
    var qs := QuorumsOf(cfg);
    var locked := s.(locked := Some(bh));
    var v := Ballot(locked, Precommit, bh).vote;
    PrecommitKeeps(cfg, qs, Update(n, i, s), i, v);
    assert Precommitted(s, v) == Sign(locked, v);
    UpdateTwice(n, i, s, Sign(locked, v));
    CastPrecommitKeeps(cfg, n, i, locked, bh);
    var s2 := CastPrecommit(cfg, locked, bh);
    IdleAfter(cfg, qs, n, i, s2, SetPhase(s2, Precommitting));
  }

  lemma CastPrevoteKeeps(cfg: Config, n: Net, i: NodeId, s: NodeState, bh: Hash)
    requires i in n.nodes && s.id == i
    requires Inv(cfg, QuorumsOf(cfg), Update(n, i, Sign(s, Ballot(s, Prevote, bh).vote)))
    requires |CastPrevote(cfg, s, bh).chain| < U64_MAX
    ensures Inv(cfg, QuorumsOf(cfg), Update(n, i, CastPrevote(cfg, s, bh)))
  {
    var sv := Ballot(s, Prevote, bh);
    var s1 := Sign(s, sv.vote);
    var n1 := Update(n, i, s1);
    OnPrevoteKeeps(cfg, n1, i, sv);
    var s2 := OnPrevote(cfg, s1, sv);
    UpdateTwice(n, i, s1, s2);
    IdleAfter(cfg, QuorumsOf(cfg), n, i, s2, CastPrevote(cfg, s, bh));
  }

  /** Prevoting, with the phase that follows. */
  lemma PrevotingKeeps(cfg: Config, n: Net, i: NodeId, bh: Hash)
    requires Inv(cfg, QuorumsOf(cfg), n) && i in n.nodes && n.nodes[i].id == i
    requires bh != ZERO_HASH ==> Backed(n, Ballot(n.nodes[i], Prevote, bh).vote)
    requires bh != ZERO_HASH && n.nodes[i].locked.Some? ==> n.nodes[i].locked.value == bh
    requires |CastPrevote(cfg, n.nodes[i], bh).chain| < U64_MAX
    ensures Inv(cfg, QuorumsOf(cfg), Update(n, i, SetPhase(CastPrevote(cfg, n.nodes[i], bh), Prevoting)))
  {
    var s := n.nodes[i];
    PrevoteKeeps(cfg, QuorumsOf(cfg), n, i, Ballot(s, Prevote, bh).vote);
    CastPrevoteKeeps(cfg, n, i, s, bh);
    var s1 := CastPrevote(cfg, s, bh);
    IdleAfter(cfg, QuorumsOf(cfg), n, i, s1, SetPhase(s1, Prevoting));
  }

  lemma HoldKeeps(cfg: Config, qs: Quorums, n: Net, i: NodeId, s': NodeState)
    requires Inv(cfg, qs, n) && i in n.nodes && Quiet(n.nodes[i], s') && s'.round == n.nodes[i].round
    requires s'.rs == n.nodes[i].rs.(proposal := s'.rs.proposal, proposed := s'.rs.proposed)
    requires Held(cfg, n, s')
    ensures Inv(cfg, qs, Update(n, i, s'))
  {
    var s := n.nodes[i];
    assert Sound(cfg, qs, n, i);
    forall kind, bh, id | id in VotesFor(s'.rs, kind, bh) ensures Cast(n, Vote(s'.height, s'.round, kind, bh, id)) {
      assert id in VotesFor(s.rs, kind, bh);
    }
    QuietKeeps(cfg, qs, n, i, s');
  }

  lemma ProposalKeeps(cfg: Config, n: Net, i: NodeId, p: Proposal)
    requires cfg.validators != [] && Inv(cfg, QuorumsOf(cfg), n) && i in n.nodes && n.nodes[i].id == i
    requires p.block in n.blocks
    requires VerifyProposal(cfg, p) ==> (p.height, p.round, BlockHash(p.block.header)) in n.proposals
    requires |HandleProposal(cfg, n.nodes[i], p).chain| < U64_MAX
    ensures Inv(cfg, QuorumsOf(cfg), Update(n, i, HandleProposal(cfg, n.nodes[i], p)))
  {
    var s := n.nodes[i];
    if s.halted || p.height != s.height || p.round != s.round || !VerifyProposal(cfg, p) {
      assert Update(n, i, s) == n;
    } else if !Fits(cfg, s, p.block) {
      PrevotingKeeps(cfg, n, i, ZERO_HASH);
    } else {
      var s1 := s.(rs := s.rs.(proposal := Some(p)));
      HoldKeeps(cfg, QuorumsOf(cfg), n, i, s1);
      var n1 := Update(n, i, s1);
      var bh := BlockHash(p.block.header);
      assert HeaderAt(n1, s1.height, s1.round, bh);
      PrevotingKeeps(cfg, n1, i, Choice(s1, bh));
      UpdateTwice(n, i, s1, HandleProposal(cfg, s, p));
    }
  }

  lemma ProposeKeeps(cfg: Config, n: Net, i: NodeId, now: u64)
    requires cfg.validators != [] && Inv(cfg, QuorumsOf(cfg), n) && i in n.nodes && n.nodes[i].id == i
    requires |MaybePropose(cfg, n.nodes[i], now).chain| < U64_MAX
    ensures Inv(cfg, QuorumsOf(cfg), Update(Announce(cfg, n, n.nodes[i], now), i, MaybePropose(cfg, n.nodes[i], now)))
  {
    var s, qs := n.nodes[i], QuorumsOf(cfg);
    if Proposes(cfg, s) {
      var n0 := Announce(cfg, n, s, now);
      EnvironmentGrows(cfg, qs, n, n0);
      var p := SignProposal(s, BuildBlock(cfg, s, now));
      var s1 := Send(s.(rs := s.rs.(proposed := true, proposal := Some(p))), ProposalMessage(p));
      BuildFits(cfg, s, now);
      HoldKeeps(cfg, qs, n0, i, s1);
      var n1 := Update(n0, i, s1);
      ProposalKeeps(cfg, n1, i, p);
      UpdateTwice(n0, i, s1, HandleProposal(cfg, s1, p));
    } else {
      assert Update(n, i, s) == n;
    }
  }

  lemma TimerKeeps(cfg: Config, n: Net, i: NodeId)
    requires Inv(cfg, QuorumsOf(cfg), n) && i in n.nodes && n.nodes[i].id == i
    requires |Expire(cfg, n.nodes[i]).chain| < U64_MAX
    ensures Inv(cfg, QuorumsOf(cfg), Update(n, i, Expire(cfg, n.nodes[i])))
  {
    var s, qs := n.nodes[i], QuorumsOf(cfg);
    if s.halted {
      assert Update(n, i, s) == n;
    } else {
      match s.phase {
        case Proposing =>
          if s.rs.proposal.None? {
            PrevotingKeeps(cfg, n, i, ZERO_HASH);
          } else {
            IdleKeeps(cfg, qs, n, i, SetPhase(s, Prevoting));
          }
        case Prevoting =>
          var v := Ballot(s, Precommit, ZERO_HASH).vote;
          PrecommitKeeps(cfg, qs, n, i, v);
          assert Precommitted(s, v) == Sign(s, v);
          CastPrecommitKeeps(cfg, n, i, s, ZERO_HASH);
          var s1 := CastPrecommit(cfg, s, ZERO_HASH);
          IdleAfter(cfg, qs, n, i, s1, SetPhase(s1, Precommitting));
        case Precommitting =>
          var s1 := s.(round := SatAdd(s.round, 1), phase := Proposing, rs := NEW_ROUND);
          assert Tallied(n, s1) && Held(cfg, n, s1);
          QuietKeeps(cfg, qs, n, i, s1);
      }
    }
  }

  /** Heights and rounds stay below the largest 64-bit number, where they would stop rising. */
  ghost predicate Bounded(n: Net) {
    forall i :: i in n.nodes ==> |n.nodes[i].chain| + 1 < U64_MAX && n.nodes[i].round < U64_MAX
  }

  /** Every step keeps the invariant. */
  lemma NextKeeps(cfg: Config, n: Net, a: Action)
    requires cfg.validators != [] && Inv(cfg, QuorumsOf(cfg), n) && Enabled(cfg, n, a)
    requires Bounded(Next(cfg, n, a))
    ensures Inv(cfg, QuorumsOf(cfg), Next(cfg, n, a))
  {
    var qs, n' := QuorumsOf(cfg), Next(cfg, n, a);
    if a.DeviantVote? || a.DeviantProposal? {
      EnvironmentGrows(cfg, qs, n, n');
    } else {
      var i := a.node;
      assert Sound(cfg, qs, n, i);
      assert |n'.nodes[i].chain| < U64_MAX;
      match a {
        case Deliver(_, sv) =>
          if sv.vote.kind.Prevote? { OnPrevoteKeeps(cfg, n, i, sv); } else { OnPrecommitKeeps(cfg, n, i, sv); }
        case Offer(_, p) =>
          var n0 := n.(blocks := n.blocks + {p.block});
          EnvironmentGrows(cfg, qs, n, n0);
          ProposalKeeps(cfg, n0, i, p);
        case Propose(_, now) => ProposeKeeps(cfg, n, i, now);
        case Timer(_) => TimerKeeps(cfg, n, i);
        case Submit(_, tx, broadcast) => IdleKeeps(cfg, qs, n, i, SubmitTx(n.nodes[i], tx, broadcast));
      }
    }
  }

  // ---- Runs ----

  ghost function Start(cfg: Config, correct: set<NodeId>): Net {
    Net(map i | i in correct :: Init(cfg, i), {}, {}, {})
  }

  ghost predicate Runs(cfg: Config, n: Net, acts: seq<Action>)
    requires cfg.validators != []
    decreases |acts|
  {
    acts == [] || (Enabled(cfg, n, acts[0]) && Bounded(Next(cfg, n, acts[0])) && Runs(cfg, Next(cfg, n, acts[0]), acts[1..]))
  }

  ghost function After(cfg: Config, n: Net, acts: seq<Action>): Net
    requires cfg.validators != [] && Runs(cfg, n, acts)
    decreases |acts|
  {
    if acts == [] then n else After(cfg, Next(cfg, n, acts[0]), acts[1..])
  }

  lemma StartInv(cfg: Config, correct: set<NodeId>)
    ensures Inv(cfg, QuorumsOf(cfg), Start(cfg, correct))
  {
    var n, qs := Start(cfg, correct), QuorumsOf(cfg);
    forall i | i in n.nodes ensures Sound(cfg, qs, n, i) && Locks(qs, n, i) {
      assert n.nodes[i] == Init(cfg, i);
      assert Committed(cfg, qs, n, n.nodes[i]);
    }
  }

  lemma {:induction false} RunInv(cfg: Config, n: Net, acts: seq<Action>)
    requires cfg.validators != [] && Runs(cfg, n, acts) && Inv(cfg, QuorumsOf(cfg), n)
    ensures Inv(cfg, QuorumsOf(cfg), After(cfg, n, acts))
    decreases |acts|
  {
    if acts != [] {
      NextKeeps(cfg, n, acts[0]);
      RunInv(cfg, Next(cfg, n, acts[0]), acts[1..]);
    }
  }

  lemma NextNodes(cfg: Config, n: Net, a: Action)
    requires cfg.validators != [] && Enabled(cfg, n, a)
    ensures Next(cfg, n, a).nodes.Keys == n.nodes.Keys
  {
  }

  lemma {:induction false} RunNodes(cfg: Config, n: Net, acts: seq<Action>)
    requires cfg.validators != [] && Runs(cfg, n, acts)
    ensures After(cfg, n, acts).nodes.Keys == n.nodes.Keys
    decreases |acts|
  {
    if acts != [] {
      NextNodes(cfg, n, acts[0]);
      RunNodes(cfg, Next(cfg, n, acts[0]), acts[1..]);
    }
  }
}
