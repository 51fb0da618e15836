/** When a node that follows the protocol signs two different votes of one kind in one round, and
what its own slashing rule then does to it. */
module Conflicts {
  import opened Base
  import opened Blocks
  import opened Slashing
  import opened Validators
  import opened Consensus
  import opened Network
  import opened Steps
  import opened Handlers
  import opened Agreement

  ghost predicate Clashes(v: Vote, w: Vote) {
    KeyOf(v) == KeyOf(w) && v.validator == w.validator && v.blockHash != w.blockHash
  }

  ghost predicate Conflicted(signed: set<Vote>) {
    exists v, w :: v in signed && w in signed && Clashes(v, w)
  }

  // ---- Exactly which votes a call signs ----

  function Own(s: NodeState, kind: VoteType, h: Hash): Vote {
    Vote(s.height, s.round, kind, h, s.id)
  }

  /** The vote is accepted and its block then has a quorum of prevotes. */
  ghost predicate Completes(cfg: Config, s: NodeState, sv: SignedVote) {
    && Accepts(cfg, s, sv) && sv.vote.blockHash != ZERO_HASH
    && QuorumMet(cfg.validators, VotesFor(s.rs, Prevote, sv.vote.blockHash) + {sv.vote.validator})
  }

  ghost function PrevoteCasts(cfg: Config, s: NodeState, h: Hash): set<Vote> {
    {Own(s, Prevote, h)} + if Completes(cfg, s, Ballot(s, Prevote, h)) then {Own(s, Precommit, h)} else {}
  }

  predicate Considers(cfg: Config, s: NodeState, p: Proposal)
    requires cfg.validators != []
  {
    !s.halted && p.height == s.height && p.round == s.round && VerifyProposal(cfg, p)
  }

  /** Nil for a block that does not fit or is not the locked one. */
  function Answer(cfg: Config, s: NodeState, p: Proposal): Hash {
    if Fits(cfg, s, p.block) then Choice(s, BlockHash(p.block.header)) else ZERO_HASH
  }

  /** The votes a call signs, told from the state before it. */
  ghost function Casts(cfg: Config, s: NodeState, a: Action): set<Vote>
    requires cfg.validators != []
  {
    match a
    case Deliver(_, sv) =>
      if sv.vote.kind.Prevote? && Completes(cfg, s, sv) then {Own(s, Precommit, sv.vote.blockHash)} else {}
    case Offer(_, p) => if Considers(cfg, s, p) then PrevoteCasts(cfg, s, Answer(cfg, s, p)) else {}
    case Propose(_, now) =>
      var p := SignProposal(s, BuildBlock(cfg, s, now));
      if Proposes(cfg, s) && VerifyProposal(cfg, p) then PrevoteCasts(cfg, s, Answer(cfg, s, p)) else {}
    case Timer(_) =>
      if !s.halted && s.phase.Proposing? && s.rs.proposal.None? then {Own(s, Prevote, ZERO_HASH)}
      else if !s.halted && s.phase.Prevoting? then {Own(s, Precommit, ZERO_HASH)}
      else {}
    case _ => {}
  }

  lemma PrecommitSigns(cfg: Config, s: NodeState, h: Hash)
    ensures CastPrecommit(cfg, s, h).signed == s.signed + {Own(s, Precommit, h)}
  {
  }

  lemma PrevoteSigns(cfg: Config, s: NodeState, sv: SignedVote)
    requires sv.vote.kind.Prevote?
    ensures OnPrevote(cfg, s, sv).signed ==
            s.signed + if Completes(cfg, s, sv) then {Own(s, Precommit, sv.vote.blockHash)} else {}
  {
    if Accepts(cfg, s, sv) {
      PrecommitSigns(cfg, Count(cfg, s, sv).(locked := Some(sv.vote.blockHash)), sv.vote.blockHash);
    }
  }

  lemma CastPrevoteSigns(cfg: Config, s: NodeState, h: Hash)
    ensures CastPrevote(cfg, s, h).signed == s.signed + PrevoteCasts(cfg, s, h)
  {
    var sv := Ballot(s, Prevote, h);
    PrevoteSigns(cfg, Sign(s, sv.vote), sv);
    assert Completes(cfg, Sign(s, sv.vote), sv) == Completes(cfg, s, sv);
  }

  lemma ProposalSigns(cfg: Config, s: NodeState, p: Proposal)
    requires cfg.validators != []
    ensures HandleProposal(cfg, s, p).signed ==
            s.signed + if Considers(cfg, s, p) then PrevoteCasts(cfg, s, Answer(cfg, s, p)) else {}
  {
    var h := Answer(cfg, s, p);
    if Fits(cfg, s, p.block) {
      var s1 := s.(rs := s.rs.(proposal := Some(p)));
      CastPrevoteSigns(cfg, s1, h);
      assert PrevoteCasts(cfg, s1, h) == PrevoteCasts(cfg, s, h);
    } else {
      CastPrevoteSigns(cfg, s, h);
    }
  }

  lemma ProposeSigns(cfg: Config, s: NodeState, now: u64)
    requires cfg.validators != []
    ensures var p := SignProposal(s, BuildBlock(cfg, s, now));
            MaybePropose(cfg, s, now).signed == s.signed +
              if Proposes(cfg, s) && VerifyProposal(cfg, p) then PrevoteCasts(cfg, s, Answer(cfg, s, p)) else {}
  {
    if Proposes(cfg, s) {
      var p := SignProposal(s, BuildBlock(cfg, s, now));
      var s1 := Send(s.(rs := s.rs.(proposed := true, proposal := Some(p))), ProposalMessage(p));
      ProposalSigns(cfg, s1, p);
      assert Answer(cfg, s1, p) == Answer(cfg, s, p);
      assert PrevoteCasts(cfg, s1, Answer(cfg, s, p)) == PrevoteCasts(cfg, s, Answer(cfg, s, p));
    }
  }

  lemma TimerSigns(cfg: Config, s: NodeState, i: NodeId)
    requires cfg.validators != []
    ensures Expire(cfg, s).signed == s.signed + Casts(cfg, s, Timer(i))
  {
    CastPrevoteSigns(cfg, s, ZERO_HASH);
    PrecommitSigns(cfg, s, ZERO_HASH);
  }

  predicate At(a: Action, i: NodeId) {
    !a.DeviantVote? && !a.DeviantProposal? && a.node == i
  }

  lemma SignsExactly(cfg: Config, n: Net, a: Action, i: NodeId)
    requires cfg.validators != [] && Enabled(cfg, n, a) && i in n.nodes
    ensures i in Next(cfg, n, a).nodes
    ensures Next(cfg, n, a).nodes[i].signed == n.nodes[i].signed + if At(a, i) then Casts(cfg, n.nodes[i], a) else {}
  {
    var s := n.nodes[i];
    if At(a, i) {
      match a {
        case Deliver(_, sv) => if sv.vote.kind.Prevote? { PrevoteSigns(cfg, s, sv); }
        case Offer(_, p) => ProposalSigns(cfg, s, p);
        case Propose(_, now) => ProposeSigns(cfg, s, now);
        case Timer(_) => TimerSigns(cfg, s, i);
        case Submit(_, _, _) =>
      }
    }
  }

  // ---- Exactly when a call makes a conflict ----

  /** A new vote meets another of the same kind and round, for a different hash, signed before. */
  ghost predicate Meets(signed: set<Vote>, casts: set<Vote>) {
    exists v, w :: v in casts && v !in signed && w in signed && Clashes(v, w)
  }

  ghost predicate Conflicts(cfg: Config, s: NodeState, a: Action)
    requires cfg.validators != []
  {
    Meets(s.signed, Casts(cfg, s, a))
  }

  lemma CastsApart(cfg: Config, s: NodeState, a: Action, v: Vote, w: Vote)
    requires cfg.validators != [] && v in Casts(cfg, s, a) && w in Casts(cfg, s, a)
    ensures !Clashes(v, w)
  {
  }

  lemma ConflictedUnion(signed: set<Vote>, casts: set<Vote>)
    requires forall v, w :: v in casts && w in casts ==> !Clashes(v, w)
    ensures Conflicted(signed + casts) <==> Conflicted(signed) || Meets(signed, casts)
  {
    if Conflicted(signed + casts) {
      var v, w :| v in signed + casts && w in signed + casts && Clashes(v, w);
      assert Clashes(w, v);
    }
    if v, w :| v in signed && w in signed && Clashes(v, w) {
      assert v in signed + casts && w in signed + casts;
    }
    if v, w :| v in casts && v !in signed && w in signed && Clashes(v, w) {
      assert v in signed + casts && w in signed + casts;
    }
  }

  /** One call: a node's votes conflict after it exactly when they did before, or it signs a vote
  that meets another. */
  lemma StepConflictExact(cfg: Config, n: Net, a: Action, i: NodeId)
    requires cfg.validators != [] && Enabled(cfg, n, a) && i in n.nodes
    ensures i in Next(cfg, n, a).nodes
    ensures Conflicted(Next(cfg, n, a).nodes[i].signed) <==>
            Conflicted(n.nodes[i].signed) || (At(a, i) && Conflicts(cfg, n.nodes[i], a))
  {
    SignsExactly(cfg, n, a, i);
    var s := n.nodes[i];
    forall v, w | v in Casts(cfg, s, a) && w in Casts(cfg, s, a) ensures !Clashes(v, w) {
      CastsApart(cfg, s, a, v, w);
    }
    ConflictedUnion(s.signed, Casts(cfg, s, a));
    assert s.signed + {} == s.signed;
  }

  /** A vote for something else of this kind is signed for the current round, and this one is not. */
  ghost predicate SignedOther(s: NodeState, kind: VoteType, h: Hash) {
    Own(s, kind, h) !in s.signed && exists w :: w in s.signed && Clashes(Own(s, kind, h), w)
  }

  /** The guards, call by call: a proposal that is considered after another prevote, or whose
  prevote completes a quorum after another precommit; a vote that completes a quorum after another
  precommit; a timer that votes nil after a vote for a block. */
  lemma ConflictGuards(cfg: Config, s: NodeState, i: NodeId, p: Proposal, sv: SignedVote)
    requires cfg.validators != []
    ensures Conflicts(cfg, s, Offer(i, p)) <==>
            var h := Answer(cfg, s, p);
            Considers(cfg, s, p) &&
            (SignedOther(s, Prevote, h) || (Completes(cfg, s, Ballot(s, Prevote, h)) && SignedOther(s, Precommit, h)))
    ensures Conflicts(cfg, s, Deliver(i, sv)) <==>
            sv.vote.kind.Prevote? && Completes(cfg, s, sv) && SignedOther(s, Precommit, sv.vote.blockHash)
    ensures Conflicts(cfg, s, Timer(i)) <==>
            !s.halted && ((s.phase.Proposing? && s.rs.proposal.None? && SignedOther(s, Prevote, ZERO_HASH))
                          || (s.phase.Prevoting? && SignedOther(s, Precommit, ZERO_HASH)))
  {
    var h := Answer(cfg, s, p);
    MeetsOne(s, Prevote, h);
    MeetsOne(s, Precommit, h);
    MeetsTwo(s, h);
    MeetsOne(s, Precommit, sv.vote.blockHash);
    MeetsOne(s, Prevote, ZERO_HASH);
    MeetsOne(s, Precommit, ZERO_HASH);
    assert PrevoteCasts(cfg, s, h) == {Own(s, Prevote, h)} ||
           PrevoteCasts(cfg, s, h) == {Own(s, Prevote, h), Own(s, Precommit, h)};
  }

  lemma MeetsOne(s: NodeState, kind: VoteType, h: Hash)
    ensures Meets(s.signed, {Own(s, kind, h)}) <==> SignedOther(s, kind, h)
  {
    if SignedOther(s, kind, h) {
      var w :| w in s.signed && Clashes(Own(s, kind, h), w);
      assert Own(s, kind, h) in {Own(s, kind, h)};
    }
  }

  lemma MeetsTwo(s: NodeState, h: Hash)
    ensures Meets(s.signed, {Own(s, Prevote, h), Own(s, Precommit, h)}) <==>
            SignedOther(s, Prevote, h) || SignedOther(s, Precommit, h)
  {
    var both := {Own(s, Prevote, h), Own(s, Precommit, h)};
    if SignedOther(s, Prevote, h) {
      var w :| w in s.signed && Clashes(Own(s, Prevote, h), w);
      assert Own(s, Prevote, h) in both;
    }
    if SignedOther(s, Precommit, h) {
      var w :| w in s.signed && Clashes(Own(s, Precommit, h), w);
      assert Own(s, Precommit, h) in both;
    }
  }

  /** At some step of the run. */
  ghost predicate EverConflicts(cfg: Config, n: Net, acts: seq<Action>, i: NodeId)
    requires cfg.validators != [] && Runs(cfg, n, acts) && i in n.nodes
    decreases |acts|
  {
    acts != [] && (
      NextNodes(cfg, n, acts[0]);
      || (At(acts[0], i) && Conflicts(cfg, n.nodes[i], acts[0]))
      || EverConflicts(cfg, Next(cfg, n, acts[0]), acts[1..], i))
  }

  lemma {:induction false} RunConflicts(cfg: Config, n: Net, acts: seq<Action>, i: NodeId)
    requires cfg.validators != [] && Runs(cfg, n, acts) && i in n.nodes
    ensures i in After(cfg, n, acts).nodes
    ensures Conflicted(After(cfg, n, acts).nodes[i].signed) <==>
            Conflicted(n.nodes[i].signed) || EverConflicts(cfg, n, acts, i)
    decreases |acts|
  {
    if acts != [] {
      StepConflictExact(cfg, n, acts[0], i);
      RunConflicts(cfg, Next(cfg, n, acts[0]), acts[1..], i);
    }
  }

  /** A correct node has signed two conflicting votes exactly when some call of the run found the
  other vote signed already. */
  lemma RunConflictExact(cfg: Config, correct: set<NodeId>, acts: seq<Action>, i: NodeId)
    requires cfg.validators != [] && Runs(cfg, Start(cfg, correct), acts) && i in correct
    ensures i in After(cfg, Start(cfg, correct), acts).nodes
    ensures Conflicted(After(cfg, Start(cfg, correct), acts).nodes[i].signed) <==>
            EverConflicts(cfg, Start(cfg, correct), acts, i)
  {
    RunConflicts(cfg, Start(cfg, correct), acts, i);
  }

  // ---- Which conflicts there are ----

  /** A correct node's conflicting votes always include a nil vote. */
  lemma CorrectConflictsAreNil(cfg: Config, qs: Quorums, n: Net, i: NodeId, v: Vote, w: Vote)
    requires Inv(cfg, qs, n) && Trusted(qs, n) && OneProposal(n) && i in n.nodes
    requires v in n.nodes[i].signed && w in n.nodes[i].signed
    requires KeyOf(v) == KeyOf(w)
    ensures v.blockHash == w.blockHash || v.blockHash == ZERO_HASH || w.blockHash == ZERO_HASH
  {
    if NonNil(v) && NonNil(w) {
      if v.kind.Prevote? {
        EveryBackedHolds(cfg, qs, n);
        assert AllBacked(n, n.nodes[i]);
        assert Backed(n, v) && Backed(n, w);
      } else {
        assert Locks(qs, n, i);
        OneFreshBlock(cfg, qs, n, v.height, v.round, v.blockHash, w.blockHash);
      }
    }
  }

  // ---- What the node's own slashing rule makes of it ----

  /** Slashing can strike the node itself: it is on, the node has stake and is free, and its own
  votes verify. */
  ghost predicate Exposed(cfg: Config, s: NodeState, kind: VoteType) {
    && !s.halted && cfg.slashing.enabled && cfg.slashing.jailDuration > 0 && s.height < U64_MAX
    && StakeOf(s.slashes.stakes, s.id) > 0 && !IsJailed(s.slashes.jailed, s.id, s.height)
    && (forall h :: VerifyVote(cfg, Ballot(s, kind, h)))
  }

  function OnRecord(s: NodeState, kind: VoteType): Option<SignedVote> {
    Seen(s.slashes.votes, (s.height, s.round, kind), s.id)
  }

  /** Slashed once more, for a double sign, and in jail. */
  ghost predicate Punished(s: NodeState, s': NodeState) {
    && IsJailed(s'.slashes.jailed, s.id, s.height) && |s'.slashes.slashed| == |s.slashes.slashed| + 1
    && s.slashes.slashed <= s'.slashes.slashed
    && s'.slashes.slashed[|s.slashes.slashed|].evidence.DoubleSign?
    && s'.slashes.slashed[|s.slashes.slashed|].evidence.validator == s.id
  }

  /** An own vote that is counted is reported exactly when slashing is on, there is stake, and a
  vote of this kind and round for another hash is on record. */
  lemma OwnVoteReported(cfg: Config, s: NodeState, kind: VoteType, h: Hash)
    requires Accepts(cfg, s, Ballot(s, kind, h))
    ensures Count(cfg, s, Ballot(s, kind, h)).slashes.slashed != s.slashes.slashed <==>
            && cfg.slashing.enabled && StakeOf(s.slashes.stakes, s.id) > 0
            && OnRecord(s, kind).Some? && OnRecord(s, kind).value.vote.blockHash != h
  {
  }

  lemma CountPunishes(cfg: Config, s: NodeState, kind: VoteType, h: Hash)
    requires Exposed(cfg, s, kind) && OnRecord(s, kind).Some? && OnRecord(s, kind).value.vote.blockHash != h
    ensures Accepts(cfg, s, Ballot(s, kind, h)) && Punished(s, Count(cfg, s, Ballot(s, kind, h)))
  {
    assert VerifyVote(cfg, Ballot(s, kind, h));
    OwnVoteReported(cfg, s, kind, h);
  }

  lemma SecondPrecommit(cfg: Config, s: NodeState, h: Hash)
    requires Exposed(cfg, s, Precommit) && OnRecord(s, Precommit).Some? && OnRecord(s, Precommit).value.vote.blockHash != h
    ensures Punished(s, CastPrecommit(cfg, s, h))
  {
    var s0 := Sign(s, Own(s, Precommit, h));
    assert forall g :: Ballot(s0, Precommit, g) == Ballot(s, Precommit, g);
    CountPunishes(cfg, s0, Precommit, h);
  }

  lemma SecondPrevote(cfg: Config, s: NodeState, h: Hash)
    requires Exposed(cfg, s, Prevote) && OnRecord(s, Prevote).Some? && OnRecord(s, Prevote).value.vote.blockHash != h
    ensures Punished(s, CastPrevote(cfg, s, h))
  {
    var s0, sv := Sign(s, Own(s, Prevote, h)), Ballot(s, Prevote, h);
    assert forall g :: Ballot(s0, Prevote, g) == Ballot(s, Prevote, g);
    CountPunishes(cfg, s0, Prevote, h);
    var s1 := Count(cfg, s0, sv).(locked := Some(h));
    JailedStays(cfg, s1, h);
  }

  /** A node in its own jail does not count its own precommit. */
  lemma JailedStays(cfg: Config, s: NodeState, h: Hash)
    requires IsJailed(s.slashes.jailed, s.id, s.height)
    ensures CastPrecommit(cfg, s, h).slashes == s.slashes
  {
  }

  /** A first nil vote: counted, on record, and nothing else changed that matters here. */
  ghost predicate Moved(s: NodeState, s': NodeState, kind: VoteType) {
    && !s'.halted && s'.id == s.id && s'.height == s.height && s'.round == s.round && s'.store == s.store
    && s'.locked == s.locked && s'.rs.proposal == s.rs.proposal
    && s'.slashes == s.slashes.(votes := s'.slashes.votes)
    && OnRecord(s', kind) == Some(Ballot(s, kind, ZERO_HASH))
    && Own(s, kind, ZERO_HASH) in s'.signed && s.signed <= s'.signed
    && (kind.Precommit? ==> s'.rs.prevotes == s.rs.prevotes)
  }

  lemma FirstNil(cfg: Config, s: NodeState, kind: VoteType)
    requires Exposed(cfg, s, kind) && OnRecord(s, kind).None?
    ensures Moved(s, CastVote(cfg, s, kind, ZERO_HASH), kind)
  {
    var sv := Ballot(s, kind, ZERO_HASH);
    var s0 := Sign(s, sv.vote);
    assert VerifyVote(cfg, sv) && Accepts(cfg, s0, sv);
    assert Detect(s0.slashes.votes, sv).None?;
    assert Seen(RecordVotes(s0.slashes.votes, sv), KeyOf(sv.vote), s.id) == Some(sv);
  }

  lemma StillExposed(cfg: Config, s: NodeState, s': NodeState, kind: VoteType, at: VoteType)
    requires Exposed(cfg, s, at) && Moved(s, s', kind)
    ensures Exposed(cfg, s', at)
  {
    forall h ensures VerifyVote(cfg, Ballot(s', at, h)) {
      assert Ballot(s', at, h) == Ballot(s, at, h);
    }
  }

  /** The proposal that comes after a nil prevote: the node prevotes the block too, reports itself,
  and is jailed by its own rule. */
  lemma LateProposal(cfg: Config, s: NodeState, p: Proposal)
    requires cfg.validators != [] && Considers(cfg, s, p) && Fits(cfg, s, p.block) && s.locked.None?
    requires Exposed(cfg, s, Prevote) && OnRecord(s, Prevote) == Some(Ballot(s, Prevote, ZERO_HASH))
    requires BlockHash(p.block.header) != ZERO_HASH
    ensures var s' := HandleProposal(cfg, s, p);
            Own(s, Prevote, BlockHash(p.block.header)) in s'.signed && s.signed <= s'.signed && Punished(s, s')
  {
    ProposalSigns(cfg, s, p);
    var s1 := s.(rs := s.rs.(proposal := Some(p)));
    assert forall h :: Ballot(s1, Prevote, h) == Ballot(s, Prevote, h);
    SecondPrevote(cfg, s1, BlockHash(p.block.header));
  }

  /** First way: the propose timer runs out just before the proposal arrives. */
  lemma TimerThenProposal(cfg: Config, s: NodeState, p: Proposal)
    requires cfg.validators != [] && Considers(cfg, s, p) && Fits(cfg, s, p.block) && s.locked.None?
    requires s.phase.Proposing? && s.rs.proposal.None? && BlockHash(p.block.header) != ZERO_HASH
    requires Exposed(cfg, s, Prevote) && OnRecord(s, Prevote).None?
    ensures var s' := HandleProposal(cfg, Expire(cfg, s), p);
            && Own(s, Prevote, ZERO_HASH) in s'.signed && Own(s, Prevote, BlockHash(p.block.header)) in s'.signed
            && Punished(s, s')
  {
    FirstNil(cfg, s, Prevote);
    var s1 := Expire(cfg, s);
    assert Moved(s, s1, Prevote);
    StillExposed(cfg, s, s1, Prevote, Prevote);
    LateProposal(cfg, s1, p);
  }

  /** Second way: the proposal first comes with other transactions under the same header, which the
  proposer's signature does not tell apart. */
  lemma AlteredThenGenuine(cfg: Config, s: NodeState, p: Proposal, txs: seq<seq<byte>>)
    requires cfg.validators != [] && Considers(cfg, s, p) && Fits(cfg, s, p.block) && s.locked.None?
    requires TxRoot(txs) != p.block.header.txRoot && BlockHash(p.block.header) != ZERO_HASH
    requires Exposed(cfg, s, Prevote) && OnRecord(s, Prevote).None?
    ensures var altered := p.(block := Block(p.block.header, txs));
            var s' := HandleProposal(cfg, HandleProposal(cfg, s, altered), p);
            && Own(s, Prevote, ZERO_HASH) in s'.signed && Own(s, Prevote, BlockHash(p.block.header)) in s'.signed
            && Punished(s, s')
  {
    var altered := p.(block := Block(p.block.header, txs));
    assert ProposalBytes(altered) == ProposalBytes(p) && Considers(cfg, s, altered) && !Fits(cfg, s, altered.block);
    FirstNil(cfg, s, Prevote);
    var s1 := HandleProposal(cfg, s, altered);
    assert Moved(s, s1, Prevote);
    StillExposed(cfg, s, s1, Prevote, Prevote);
    LateProposal(cfg, s1, p);
  }

  /** Third way: the prevote timer runs out just before the prevote that completes a quorum. */
  lemma TimerThenQuorum(cfg: Config, s: NodeState, sv: SignedVote)
    requires cfg.validators != [] && s.phase.Prevoting? && sv.vote.kind.Prevote? && sv.vote.validator != s.id
    requires Completes(cfg, s, sv) && Exposed(cfg, s, Precommit) && OnRecord(s, Precommit).None?
    requires Seen(s.slashes.votes, KeyOf(sv.vote), sv.vote.validator).None?
    ensures var s' := HandleVote(cfg, Expire(cfg, s), sv);
            && Own(s, Precommit, ZERO_HASH) in s'.signed && Own(s, Precommit, sv.vote.blockHash) in s'.signed
            && Punished(s, s')
  {
    FirstNil(cfg, s, Precommit);
    var s1 := Expire(cfg, s);
    assert Moved(s, s1, Precommit);
    StillExposed(cfg, s, s1, Precommit, Precommit);
    NilKeepsOthers(s, sv);
    QuorumAfterNil(cfg, s1, sv);
  }

  lemma NilKeepsOthers(s: NodeState, sv: SignedVote)
    requires sv.vote.kind.Prevote? && Seen(s.slashes.votes, KeyOf(sv.vote), sv.vote.validator).None?
    ensures Seen(RecordVotes(s.slashes.votes, Ballot(s, Precommit, ZERO_HASH)), KeyOf(sv.vote), sv.vote.validator).None?
  {
  }

  lemma QuorumAfterNil(cfg: Config, s: NodeState, sv: SignedVote)
    requires sv.vote.kind.Prevote? && sv.vote.validator != s.id && Completes(cfg, s, sv) && Exposed(cfg, s, Precommit)
    requires OnRecord(s, Precommit) == Some(Ballot(s, Precommit, ZERO_HASH))
    requires Seen(s.slashes.votes, KeyOf(sv.vote), sv.vote.validator).None?
    ensures Punished(s, OnPrevote(cfg, s, sv)) && s.signed <= OnPrevote(cfg, s, sv).signed
    ensures Own(s, Precommit, sv.vote.blockHash) in OnPrevote(cfg, s, sv).signed
  {
    var h := sv.vote.blockHash;
    PrevoteSigns(cfg, s, sv);
    var s1 := Count(cfg, s, sv).(locked := Some(h));
    assert s1.slashes == s.slashes.(votes := RecordVotes(s.slashes.votes, sv));
    PruneKeepsRound(s.slashes.votes, sv, s.id);
    assert forall g :: Ballot(s1, Precommit, g) == Ballot(s, Precommit, g);
    SecondPrecommit(cfg, s1, h);
  }

  /** Recording a prevote forgets no precommit of its round. */
  lemma PruneKeepsRound(book: VoteBook, sv: SignedVote, id: NodeId)
    requires sv.vote.kind.Prevote?
    ensures var key := (sv.vote.height, sv.vote.round, Precommit); Seen(RecordVotes(book, sv), key, id) == Seen(book, key, id)
  {
  }
}
