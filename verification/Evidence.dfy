/** Every slashing record of a correct node rests on two votes that its validator did sign, in every
state a run can reach. */
module Evidences {
  import opened Base
  import opened Blocks
  import opened Slashing
  import opened Consensus
  import opened Network
  import opened Handlers
  import opened Conflicts

  ghost predicate BookReal(book: VoteBook, known: iset<Vote>) {
    forall key, id {:trigger Seen(book, key, id)} :: Seen(book, key, id).Some? ==>
      By(Seen(book, key, id).value, key, id) && Seen(book, key, id).value.vote in known
  }

  /** Two clashing votes of the validator it names, both known to be signed. */
  ghost predicate RecordReal(r: SlashingRecord, known: iset<Vote>) {
    && r.evidence.DoubleSign? && Clashes(r.evidence.vote1.vote, r.evidence.vote2.vote)
    && r.evidence.vote1.vote.validator == r.evidence.validator
    && r.evidence.vote1.vote in known && r.evidence.vote2.vote in known
  }

  ghost predicate Real(st: Slashes, known: iset<Vote>) {
    BookReal(st.votes, known) && forall k :: 0 <= k < |st.slashed| ==> RecordReal(st.slashed[k], known)
  }

  lemma RealMore(st: Slashes, known: iset<Vote>, more: iset<Vote>)
    requires Real(st, known) && known <= more
    ensures Real(st, more)
  {
    forall k | 0 <= k < |st.slashed| ensures RecordReal(st.slashed[k], more) {
      assert RecordReal(st.slashed[k], known);
    }
  }

  /** What is on record afterwards was, or is the vote, under its own key. */
  lemma RecordSources(book: VoteBook, sv: SignedVote, key: VoteKey, id: NodeId)
    requires Seen(RecordVotes(book, sv), key, id).Some?
    ensures Seen(RecordVotes(book, sv), key, id) == Seen(book, key, id) ||
            (By(sv, key, id) && Seen(RecordVotes(book, sv), key, id) == Some(sv))
  {
  }

  lemma RecordBookReal(book: VoteBook, sv: SignedVote, known: iset<Vote>)
    requires BookReal(book, known) && sv.vote in known
    ensures BookReal(RecordVotes(book, sv), known)
  {
    forall key, id | Seen(RecordVotes(book, sv), key, id).Some?
      ensures var w := Seen(RecordVotes(book, sv), key, id).value; By(w, key, id) && w.vote in known
    {
      RecordSources(book, sv, key, id);
    }
  }

  lemma ObserveReal(st: Slashes, config: SlashingConfig, height: u64, sv: SignedVote, known: iset<Vote>)
    requires Real(st, known) && sv.vote in known
    ensures Real(Observe(st, config, height, sv), known)
  {
    RecordBookReal(st.votes, sv, known);
    var found := Detect(st.votes, sv);
    if found.Some? {
      var first := Seen(st.votes, KeyOf(sv.vote), sv.vote.validator).value;
      assert By(first, KeyOf(sv.vote), sv.vote.validator) && Clashes(first.vote, sv.vote);
    }
  }

  lemma PrecommitReal(cfg: Config, s: NodeState, sv: SignedVote, known: iset<Vote>)
    requires Real(s.slashes, known) && (VerifyVote(cfg, sv) ==> sv.vote in known)
    ensures Real(OnPrecommit(cfg, s, sv).slashes, known)
  {
    if Accepts(cfg, s, sv) {
      ObserveReal(s.slashes, cfg.slashing, s.height, sv, known);
    }
  }

  lemma CastPrecommitReal(cfg: Config, s: NodeState, h: Hash, known: iset<Vote>)
    requires Real(s.slashes, known) && Own(s, Precommit, h) in known
    ensures Real(CastPrecommit(cfg, s, h).slashes, known)
  {
    var sv := Ballot(s, Precommit, h);
    PrecommitReal(cfg, Sign(s, sv.vote), sv, known);
  }

  lemma PrevoteReal(cfg: Config, s: NodeState, sv: SignedVote, known: iset<Vote>)
    requires sv.vote.kind.Prevote? && Real(s.slashes, known) && (VerifyVote(cfg, sv) ==> sv.vote in known)
    requires Completes(cfg, s, sv) ==> Own(s, Precommit, sv.vote.blockHash) in known
    ensures Real(OnPrevote(cfg, s, sv).slashes, known)
  {
    if Accepts(cfg, s, sv) {
      ObserveReal(s.slashes, cfg.slashing, s.height, sv, known);
      if Completes(cfg, s, sv) {
        CastPrecommitReal(cfg, Count(cfg, s, sv).(locked := Some(sv.vote.blockHash)), sv.vote.blockHash, known);
      }
    }
  }

  ghost predicate Within(votes: set<Vote>, known: iset<Vote>) {
    forall v :: v in votes ==> v in known
  }

  lemma CastPrevoteReal(cfg: Config, s: NodeState, h: Hash, known: iset<Vote>)
    requires Real(s.slashes, known) && Within(PrevoteCasts(cfg, s, h), known)
    ensures Real(CastPrevote(cfg, s, h).slashes, known)
  {
    var sv := Ballot(s, Prevote, h);
    var s0 := Sign(s, sv.vote);
    assert sv.vote in PrevoteCasts(cfg, s, h) && Completes(cfg, s0, sv) == Completes(cfg, s, sv);
    if Completes(cfg, s, sv) { assert Own(s, Precommit, h) in PrevoteCasts(cfg, s, h); }
    PrevoteReal(cfg, s0, sv, known);
  }

  lemma ProposalReal(cfg: Config, s: NodeState, p: Proposal, known: iset<Vote>)
    requires cfg.validators != [] && Real(s.slashes, known)
    requires Considers(cfg, s, p) ==> Within(PrevoteCasts(cfg, s, Answer(cfg, s, p)), known)
    ensures Real(HandleProposal(cfg, s, p).slashes, known)
  {
    if Considers(cfg, s, p) {
      var h := Answer(cfg, s, p);
      if Fits(cfg, s, p.block) {
        var s1 := s.(rs := s.rs.(proposal := Some(p)));
        assert PrevoteCasts(cfg, s1, h) == PrevoteCasts(cfg, s, h);
        CastPrevoteReal(cfg, s1, h, known);
      } else {
        CastPrevoteReal(cfg, s, h, known);
      }
    }
  }

  lemma ProposeReal(cfg: Config, s: NodeState, now: u64, i: NodeId, known: iset<Vote>)
    requires cfg.validators != [] && Real(s.slashes, known) && Within(Casts(cfg, s, Propose(i, now)), known)
    ensures Real(MaybePropose(cfg, s, now).slashes, known)
  {
    if Proposes(cfg, s) {
      var p := SignProposal(s, BuildBlock(cfg, s, now));
      var s1 := Send(s.(rs := s.rs.(proposed := true, proposal := Some(p))), ProposalMessage(p));
      assert Answer(cfg, s1, p) == Answer(cfg, s, p);
      assert PrevoteCasts(cfg, s1, Answer(cfg, s, p)) == PrevoteCasts(cfg, s, Answer(cfg, s, p));
      ProposalReal(cfg, s1, p, known);
    }
  }

  lemma TimerReal(cfg: Config, s: NodeState, i: NodeId, known: iset<Vote>)
    requires cfg.validators != [] && Real(s.slashes, known) && Within(Casts(cfg, s, Timer(i)), known)
    ensures Real(Expire(cfg, s).slashes, known)
  {
    if !s.halted && s.phase.Proposing? && s.rs.proposal.None? {
      assert Own(s, Prevote, ZERO_HASH) in Casts(cfg, s, Timer(i));
      CastPrevoteReal(cfg, s, ZERO_HASH, known);
    } else if !s.halted && s.phase.Prevoting? {
      assert Own(s, Precommit, ZERO_HASH) in Casts(cfg, s, Timer(i));
      CastPrecommitReal(cfg, s, ZERO_HASH, known);
    }
  }

  // ---- Over every run ----

  /** All votes ever signed. */
  ghost function CastVotes(n: Net): iset<Vote> {
    iset v | Cast(n, v)
  }

  lemma CastStays(cfg: Config, n: Net, a: Action)
    requires cfg.validators != [] && Enabled(cfg, n, a)
    ensures CastVotes(n) <= CastVotes(Next(cfg, n, a))
  {
    var n' := Next(cfg, n, a);
    NextNodes(cfg, n, a);
    forall v | Cast(n, v) ensures Cast(n', v) {
      if v.validator in n.nodes { SignsExactly(cfg, n, a, v.validator); }
    }
  }

  lemma StepReal(cfg: Config, s: NodeState, a: Action, known: iset<Vote>)
    requires cfg.validators != [] && Real(s.slashes, known) && Within(Casts(cfg, s, a), known)
    requires a.Deliver? && VerifyVote(cfg, a.sv) ==> a.sv.vote in known
    ensures match a
            case Deliver(_, sv) => Real(HandleVote(cfg, s, sv).slashes, known)
            case Offer(_, p) => Real(HandleProposal(cfg, s, p).slashes, known)
            case Propose(_, now) => Real(MaybePropose(cfg, s, now).slashes, known)
            case Timer(_) => Real(Expire(cfg, s).slashes, known)
            case Submit(_, tx, broadcast) => Real(SubmitTx(s, tx, broadcast).slashes, known)
            case _ => true
  {
    match a {
      case Deliver(_, sv) =>
        if sv.vote.kind.Prevote? {
          if Completes(cfg, s, sv) { assert Own(s, Precommit, sv.vote.blockHash) in Casts(cfg, s, a); }
          PrevoteReal(cfg, s, sv, known);
        } else {
          PrecommitReal(cfg, s, sv, known);
        }
      case Offer(_, p) => ProposalReal(cfg, s, p, known);
      case Propose(i, now) => ProposeReal(cfg, s, now, i, known);
      case Timer(i) => TimerReal(cfg, s, i, known);
      case _ =>
    }
  }

  lemma NextReal(cfg: Config, n: Net, a: Action, i: NodeId)
    requires cfg.validators != [] && Enabled(cfg, n, a) && i in n.nodes && n.nodes[i].id == i
    requires Real(n.nodes[i].slashes, CastVotes(n))
    ensures i in Next(cfg, n, a).nodes && Real(Next(cfg, n, a).nodes[i].slashes, CastVotes(Next(cfg, n, a)))
  {
    var n', s := Next(cfg, n, a), n.nodes[i];
    CastStays(cfg, n, a);
    RealMore(s.slashes, CastVotes(n), CastVotes(n'));
    if At(a, i) {
      SignsExactly(cfg, n, a, i);
      forall v | v in Casts(cfg, s, a) ensures v in CastVotes(n') {
        assert v.validator == i && v in n'.nodes[i].signed;
      }
      StepReal(cfg, s, a, CastVotes(n'));
    }
  }

  lemma {:induction false} RunReal(cfg: Config, n: Net, acts: seq<Action>, i: NodeId)
    requires cfg.validators != [] && Runs(cfg, n, acts) && Inv(cfg, QuorumsOf(cfg), n)
    requires i in n.nodes && Real(n.nodes[i].slashes, CastVotes(n))
    ensures i in After(cfg, n, acts).nodes && Real(After(cfg, n, acts).nodes[i].slashes, CastVotes(After(cfg, n, acts)))
    decreases |acts|
  {
    if acts != [] {
      assert Sound(cfg, QuorumsOf(cfg), n, i);
      NextReal(cfg, n, acts[0], i);
      NextKeeps(cfg, n, acts[0]);
      RunReal(cfg, Next(cfg, n, acts[0]), acts[1..], i);
    }
  }

  /** No record is made up: in every reachable state, whoever a correct node has slashed did sign
  two different votes of one kind and round; and if he follows the protocol himself, some call
  of his own run signed a vote that met another. */
  lemma EvidenceIsReal(cfg: Config, correct: set<NodeId>, acts: seq<Action>, i: NodeId, k: nat)
    requires cfg.validators != [] && Runs(cfg, Start(cfg, correct), acts) && i in correct
    requires var n := After(cfg, Start(cfg, correct), acts); i in n.nodes && k < |n.nodes[i].slashes.slashed|
    ensures var n := After(cfg, Start(cfg, correct), acts);
            var r := n.nodes[i].slashes.slashed[k];
            && RecordReal(r, CastVotes(n))
            && (r.evidence.validator in correct ==> EverConflicts(cfg, Start(cfg, correct), acts, r.evidence.validator))
  {
    var start := Start(cfg, correct);
    var n := After(cfg, start, acts);
    StartInv(cfg, correct);
    RunReal(cfg, start, acts, i);
    RunNodes(cfg, start, acts);
    var r := n.nodes[i].slashes.slashed[k];
    assert RecordReal(r, CastVotes(n));
    var j := r.evidence.validator;
    if j in correct {
      RunConflictExact(cfg, correct, acts, j);
      assert r.evidence.vote1.vote in n.nodes[j].signed && r.evidence.vote2.vote in n.nodes[j].signed;
    }
  }
}
