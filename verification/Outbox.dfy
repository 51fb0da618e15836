/** What a node sends: every vote it signs, under its own signature, and every proposal it makes. */
module Outboxes {
  import opened Base
  import opened Blocks
  import opened Consensus
  import opened Network
  import opened Handlers

  ghost function VotesIn(box: seq<Message>): set<Vote> {
    set m | m in box && m.VoteMessage? :: m.sv.vote
  }

  /** Proposals sent, by height, round and header hash. */
  ghost function ProposalsIn(box: seq<Message>): set<(u64, u64, Hash)> {
    set m | m in box && m.ProposalMessage? ::
      (m.proposal.height, m.proposal.round, BlockHash(m.proposal.block.header))
  }

  /** Signed by the sender, and for a proposal also made and named by it. */
  ghost predicate Genuine(m: Message, id: NodeId) {
    match m
    case TxMessage(_) => true
    case VoteMessage(sv) => sv.vote.validator == id && sv.signature == Ed25519Sign(id, VoteBytes(sv.vote))
    case ProposalMessage(p) =>
      && p.proposerId == id && p.block.header.proposerId == id
      && p.signature == Ed25519Sign(id, ProposalBytes(p))
  }

  ghost predicate AllGenuine(box: seq<Message>, id: NodeId) {
    forall m :: m in box ==> Genuine(m, id)
  }

  /** All that was signed has been sent, except what is still owed; a node that has halted sends
  no more. */
  ghost predicate Owes(s: NodeState, owed: set<Vote>) {
    AllGenuine(s.outbox, s.id) && (!s.halted ==> s.signed == VotesIn(s.outbox) + owed)
  }

  ghost predicate SamePosts(s: NodeState, s': NodeState) {
    s'.id == s.id && ProposalsIn(s'.outbox) == ProposalsIn(s.outbox)
  }

  lemma SendVote(s: NodeState, sv: SignedVote, owed: set<Vote>)
    requires Owes(s, owed + {sv.vote}) && Genuine(VoteMessage(sv), s.id)
    ensures Owes(Send(s, VoteMessage(sv)), owed) && SamePosts(s, Send(s, VoteMessage(sv)))
  {
    var box, more := s.outbox, s.outbox + [VoteMessage(sv)];
    assert VotesIn(more) == VotesIn(box) + {sv.vote} by {
      assert VoteMessage(sv) in more && forall m :: m in box ==> m in more;
    }
    assert ProposalsIn(more) == ProposalsIn(box) by {
      assert forall m :: m in box ==> m in more;
    }
  }

  lemma PrecommitOwes(cfg: Config, s: NodeState, sv: SignedVote, owed: set<Vote>)
    requires Owes(s, owed)
    ensures Owes(OnPrecommit(cfg, s, sv), owed) && SamePosts(s, OnPrecommit(cfg, s, sv))
  {
  }

  lemma CastPrecommitOwes(cfg: Config, s: NodeState, h: Hash, owed: set<Vote>)
    requires Owes(s, owed)
    ensures Owes(CastPrecommit(cfg, s, h), owed) && SamePosts(s, CastPrecommit(cfg, s, h))
  {
    var sv := Ballot(s, Precommit, h);
    var s0 := Sign(s, sv.vote);
    assert Owes(s0, owed + {sv.vote});
    PrecommitOwes(cfg, s0, sv, owed + {sv.vote});
    SendVote(OnPrecommit(cfg, s0, sv), sv, owed);
  }

  lemma PrevoteOwes(cfg: Config, s: NodeState, sv: SignedVote, owed: set<Vote>)
    requires Owes(s, owed)
    ensures Owes(OnPrevote(cfg, s, sv), owed) && SamePosts(s, OnPrevote(cfg, s, sv))
  {
    if Accepts(cfg, s, sv) {
      var s1 := Count(cfg, s, sv).(locked := Some(sv.vote.blockHash));
      assert Owes(s1, owed);
      CastPrecommitOwes(cfg, s1, sv.vote.blockHash, owed);
    }
  }

  lemma CastPrevoteOwes(cfg: Config, s: NodeState, h: Hash, owed: set<Vote>)
    requires Owes(s, owed)
    ensures Owes(CastPrevote(cfg, s, h), owed) && SamePosts(s, CastPrevote(cfg, s, h))
  {
    var sv := Ballot(s, Prevote, h);
    var s0 := Sign(s, sv.vote);
    assert Owes(s0, owed + {sv.vote});
    PrevoteOwes(cfg, s0, sv, owed + {sv.vote});
    SendVote(OnPrevote(cfg, s0, sv), sv, owed);
  }

  lemma ProposalOwes(cfg: Config, s: NodeState, p: Proposal)
    requires cfg.validators != [] && Owes(s, {})
    ensures Owes(HandleProposal(cfg, s, p), {}) && SamePosts(s, HandleProposal(cfg, s, p))
  {
    if Fits(cfg, s, p.block) {
      var s1 := s.(rs := s.rs.(proposal := Some(p)));
      CastPrevoteOwes(cfg, s1, Choice(s1, BlockHash(p.block.header)), {});
    } else {
      CastPrevoteOwes(cfg, s, ZERO_HASH, {});
    }
  }

  lemma TimerOwes(cfg: Config, s: NodeState)
    requires Owes(s, {})
    ensures Owes(Expire(cfg, s), {}) && SamePosts(s, Expire(cfg, s))
  {
    if s.phase.Proposing? {
      CastPrevoteOwes(cfg, s, ZERO_HASH, {});
    } else if s.phase.Prevoting? {
      CastPrecommitOwes(cfg, s, ZERO_HASH, {});
    }
  }

  /** An own proposal is sent before it is handled. */
  lemma ProposeOwes(cfg: Config, s: NodeState, now: u64)
    requires cfg.validators != [] && Owes(s, {})
    ensures var s' := MaybePropose(cfg, s, now);
            && Owes(s', {}) && s'.id == s.id
            && ProposalsIn(s'.outbox) == ProposalsIn(s.outbox) +
               if Proposes(cfg, s) then {(s.height, s.round, BlockHash(BuildBlock(cfg, s, now).header))} else {}
  {
    if Proposes(cfg, s) {
      var p := SignProposal(s, BuildBlock(cfg, s, now));
      var s1 := Send(s.(rs := s.rs.(proposed := true, proposal := Some(p))), ProposalMessage(p));
      PostOwes(s, s1, p);
      ProposalOwes(cfg, s1, p);
    }
  }

  lemma PostOwes(s: NodeState, s': NodeState, p: Proposal)
    requires Owes(s, {}) && s'.id == s.id && s'.signed == s.signed && s'.halted == s.halted
    requires s'.outbox == s.outbox + [ProposalMessage(p)] && Genuine(ProposalMessage(p), s.id)
    ensures Owes(s', {})
    ensures ProposalsIn(s'.outbox) == ProposalsIn(s.outbox) + {(p.height, p.round, BlockHash(p.block.header))}
  {
    var box, more := s.outbox, s'.outbox;
    assert ProposalMessage(p) in more && forall m :: m in box ==> m in more;
    assert VotesIn(more) == VotesIn(box);
  }

  lemma SubmitOwes(s: NodeState, tx: seq<byte>, broadcast: bool)
    requires Owes(s, {})
    ensures Owes(SubmitTx(s, tx, broadcast), {}) && SamePosts(s, SubmitTx(s, tx, broadcast))
  {
    var s' := SubmitTx(s, tx, broadcast);
    assert forall m :: m in s.outbox ==> m in s'.outbox;
    assert VotesIn(s'.outbox) == VotesIn(s.outbox) && ProposalsIn(s'.outbox) == ProposalsIn(s.outbox);
  }

  // ---- Over every run ----

  /** The proposals of the network that node `i` had to make. */
  ghost function OwnProposals(cfg: Config, n: Net, i: NodeId): set<(u64, u64, Hash)>
    requires cfg.validators != []
  {
    set t | t in n.proposals && ProposerFor(cfg, t.0, t.1).nodeId == i
  }

  ghost predicate Delivered(cfg: Config, n: Net, i: NodeId)
    requires cfg.validators != [] && i in n.nodes
  {
    Owes(n.nodes[i], {}) && ProposalsIn(n.nodes[i].outbox) == OwnProposals(cfg, n, i)
  }

  lemma ActDelivers(cfg: Config, s: NodeState, a: Action, s': NodeState)
    requires cfg.validators != [] && Owes(s, {})
    requires match a
             case Deliver(_, sv) => s' == HandleVote(cfg, s, sv)
             case Offer(_, p) => s' == HandleProposal(cfg, s, p)
             case Timer(_) => s' == Expire(cfg, s)
             case Submit(_, tx, broadcast) => s' == SubmitTx(s, tx, broadcast)
             case _ => false
    ensures Owes(s', {}) && SamePosts(s, s')
  {
    match a {
      case Deliver(_, sv) =>
        if sv.vote.kind.Prevote? { PrevoteOwes(cfg, s, sv, {}); } else { PrecommitOwes(cfg, s, sv, {}); }
      case Offer(_, p) => ProposalOwes(cfg, s, p);
      case Timer(_) => TimerOwes(cfg, s);
      case Submit(_, tx, broadcast) => SubmitOwes(s, tx, broadcast);
    }
  }

  lemma NextDelivers(cfg: Config, n: Net, a: Action, i: NodeId)
    requires cfg.validators != [] && Enabled(cfg, n, a) && i in n.nodes && n.nodes[i].id == i && Delivered(cfg, n, i)
    requires forall j :: j in n.nodes ==> n.nodes[j].id == j
    ensures i in Next(cfg, n, a).nodes && Delivered(cfg, Next(cfg, n, a), i)
  {
    var n', s := Next(cfg, n, a), n.nodes[i];
    if a.Propose? {
      if a.node == i { ProposeOwes(cfg, s, a.now); }
      OwnAdds(cfg, n, n', i, n.nodes[a.node], a.now);
    } else {
      OwnSame(cfg, n, n', a, i);
      if !a.DeviantVote? && !a.DeviantProposal? && a.node == i {
        ActDelivers(cfg, s, a, n'.nodes[i]);
      }
    }
  }

  lemma OwnAdds(cfg: Config, n: Net, n': Net, i: NodeId, s: NodeState, now: u64)
    requires cfg.validators != [] && i in n.nodes && s.id in n.nodes && n'.proposals == Announce(cfg, n, s, now).proposals
    ensures OwnProposals(cfg, n', i) == OwnProposals(cfg, n, i) +
            if s.id == i && Proposes(cfg, s) then {(s.height, s.round, BlockHash(BuildBlock(cfg, s, now).header))} else {}
  {
  }

  lemma OwnSame(cfg: Config, n: Net, n': Net, a: Action, i: NodeId)
    requires cfg.validators != [] && Enabled(cfg, n, a) && !a.Propose? && n' == Next(cfg, n, a) && i in n.nodes
    ensures OwnProposals(cfg, n', i) == OwnProposals(cfg, n, i)
  {
  }

  lemma {:induction false} RunDelivers(cfg: Config, n: Net, acts: seq<Action>, i: NodeId)
    requires cfg.validators != [] && Runs(cfg, n, acts) && Inv(cfg, QuorumsOf(cfg), n)
    requires i in n.nodes && Delivered(cfg, n, i)
    ensures i in After(cfg, n, acts).nodes && Delivered(cfg, After(cfg, n, acts), i)
    decreases |acts|
  {
    if acts != [] {
      forall j | j in n.nodes ensures n.nodes[j].id == j { assert Sound(cfg, QuorumsOf(cfg), n, j); }
      NextDelivers(cfg, n, acts[0], i);
      NextKeeps(cfg, n, acts[0]);
      RunDelivers(cfg, Next(cfg, n, acts[0]), acts[1..], i);
    }
  }

  /** In every reachable state a correct node that has not halted has sent exactly the votes it
  signed; whether halted or not, it has sent exactly the proposals it made, and all it sent bears
  its own signature. */
  lemma AllIsSent(cfg: Config, correct: set<NodeId>, acts: seq<Action>, i: NodeId)
    requires cfg.validators != [] && Runs(cfg, Start(cfg, correct), acts) && i in correct
    ensures i in After(cfg, Start(cfg, correct), acts).nodes
    ensures var n := After(cfg, Start(cfg, correct), acts);
            var s := n.nodes[i];
            && (!s.halted ==> VotesIn(s.outbox) == s.signed)
            && ProposalsIn(s.outbox) == OwnProposals(cfg, n, i)
            && (forall m :: m in s.outbox ==> Genuine(m, i))
  {
    var start := Start(cfg, correct);
    StartInv(cfg, correct);
    assert OwnProposals(cfg, start, i) == {};
    RunDelivers(cfg, start, acts, i);
    RunInv(cfg, start, acts);
    assert Sound(cfg, QuorumsOf(cfg), After(cfg, start, acts), i);
  }
}
