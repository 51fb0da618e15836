/** Which votes and proposals a node takes notice of, whose turn it is to propose, and the step a
call leaves behind, all told from the messages and the state alone. */
module Admission {
  import opened Base
  import opened Blocks
  import opened Validators
  import opened Consensus
  import opened Conflicts

  // ---- The registry ----

  /** Entry `k` is the last one with this id. */
  ghost predicate LastEntry(vs: seq<ValidatorInfo>, id: NodeId, k: nat) {
    k < |vs| && vs[k].nodeId == id && forall j :: k < j < |vs| ==> vs[j].nodeId != id
  }

  lemma {:induction false} LastEntryExists(vs: seq<ValidatorInfo>, id: NodeId)
    requires id in Ids(vs)
    ensures exists k: nat :: LastEntry(vs, id, k)
  {
    var n := |vs| - 1;
    if vs[n].nodeId == id {
      assert LastEntry(vs, id, n);
    } else {
      IdsSnoc(vs);
      LastEntryExists(vs[..n], id);
      var k: nat :| LastEntry(vs[..n], id, k);
      assert vs[..n][k] == vs[k];
      forall j | k < j < |vs| ensures vs[j].nodeId != id {
        if j < n { assert vs[..n][j] == vs[j]; }
      }
      assert LastEntry(vs, id, k);
    }
  }

  lemma {:induction false} ByIdExact(vs: seq<ValidatorInfo>, id: NodeId)
    ensures id in ById(vs) <==> id in Ids(vs)
    ensures forall k: nat :: LastEntry(vs, id, k) ==> id in ById(vs) && ById(vs)[id] == vs[k]
  {
    if vs != [] {
      var n := |vs| - 1;
      ByIdExact(vs[..n], id);
      IdsSnoc(vs);
      forall k: nat | LastEntry(vs, id, k) ensures id in ById(vs) && ById(vs)[id] == vs[k] {
        if k < n {
          assert vs[..n][k] == vs[k];
          assert forall j :: k < j < n ==> vs[..n][j] == vs[j];
          assert LastEntry(vs[..n], id, k);
        }
      }
    }
  }

  /** Every validator starts with the stake of its entry. */
  lemma {:induction false} InitialStakesExact(vs: seq<ValidatorInfo>, id: NodeId)
    ensures id in InitialStakes(vs) <==> id in Ids(vs)
    ensures forall k: nat :: LastEntry(vs, id, k) ==> id in InitialStakes(vs) && InitialStakes(vs)[id] == vs[k].stake
  {
    if vs != [] {
      var n := |vs| - 1;
      InitialStakesExact(vs[..n], id);
      IdsSnoc(vs);
      forall k: nat | LastEntry(vs, id, k) ensures id in InitialStakes(vs) && InitialStakes(vs)[id] == vs[k].stake {
        if k < n {
          assert vs[..n][k] == vs[k];
          assert forall j :: k < j < n ==> vs[..n][j] == vs[j];
          assert LastEntry(vs[..n], id, k);
        }
      }
    }
  }

  // ---- Votes ----

  /** Signed with the key of the validator's entry. */
  ghost predicate Authenticated(cfg: Config, sv: SignedVote) {
    exists k: nat :: LastEntry(cfg.validators, sv.vote.validator, k) &&
      Ed25519Verify(cfg.validators[k].pubkey, VoteBytes(sv.vote), sv.signature)
  }

  /** Of this height and round, by a validator that is not in jail at it. */
  ghost predicate Timely(s: NodeState, v: Vote) {
    && v.height == s.height && v.round == s.round
    && (v.validator in s.slashes.jailed ==> s.slashes.jailed[v.validator] <= s.height)
  }

  lemma AcceptsExact(cfg: Config, s: NodeState, sv: SignedVote)
    ensures Accepts(cfg, s, sv) <==> !s.halted && Authenticated(cfg, sv) && Timely(s, sv.vote)
  {
    var vs, id := cfg.validators, sv.vote.validator;
    ByIdExact(vs, id);
    if id in Ids(vs) {
      LastEntryExists(vs, id);
      var k: nat :| LastEntry(vs, id, k);
      assert VerifyVote(cfg, sv) <==> Ed25519Verify(vs[k].pubkey, VoteBytes(sv.vote), sv.signature);
    }
  }

  /** A vote that is not authenticated or not timely changes nothing; one that is counts for its
  block, unless the count ends the round in a commit. */
  lemma VoteCountedExactly(cfg: Config, s: NodeState, sv: SignedVote)
    ensures var s' := HandleVote(cfg, s, sv);
            if s.halted || !Authenticated(cfg, sv) || !Timely(s, sv.vote) then s' == s
            else s'.halted || |s'.chain| == |s.chain| + 1 ||
                 sv.vote.validator in VotesFor(s'.rs, sv.vote.kind, sv.vote.blockHash)
  {
    AcceptsExact(cfg, s, sv);
    if Accepts(cfg, s, sv) && sv.vote.kind.Prevote? {
      PrecommitKeepsPrevotes(cfg, Count(cfg, s, sv).(locked := Some(sv.vote.blockHash)), sv.vote.blockHash);
    }
  }

  lemma PrecommitKeepsPrevotes(cfg: Config, s: NodeState, h: Hash)
    ensures var s' := CastPrecommit(cfg, s, h);
            s'.halted || |s'.chain| == |s.chain| + 1 || s'.rs.prevotes == s.rs.prevotes
  {
  }

  // ---- Proposals ----

  /** Whose turn it is: the entry at height plus round, counted around the list. */
  lemma ProposerExact(cfg: Config, h: u64, r: u64, k: nat)
    requires cfg.validators != [] && h + r <= U64_MAX && k < |cfg.validators| && (h + r - k) % |cfg.validators| == 0
    ensures ProposerFor(cfg, h, r) == cfg.validators[k]
  {
    var n := |cfg.validators|;
    var q := (h + r - k) / n;
    assert h + r == n * q + k;
    QuotientIs(h + r, n, q, k);
  }

  /** A proposal of another height or round, not by the proposer of that round, or not under his
  signature, changes nothing. */
  lemma ProposalIgnored(cfg: Config, s: NodeState, p: Proposal)
    requires cfg.validators != []
    ensures var proposer := ProposerFor(cfg, p.height, p.round);
            (s.halted || p.height != s.height || p.round != s.round || p.proposerId != proposer.nodeId
             || !Ed25519Verify(proposer.pubkey, ProposalBytes(p), p.signature))
            ==> HandleProposal(cfg, s, p) == s
  {
  }

  // ---- Steps and rounds ----

  /** A vote that completes a quorum of prevotes for a block leaves the precommit step, and the
  lock on that block unless it was committed at once. */
  lemma StepAfterQuorum(cfg: Config, s: NodeState, sv: SignedVote)
    requires sv.vote.kind.Prevote? && Completes(cfg, s, sv)
    ensures var s' := HandleVote(cfg, s, sv);
            !s'.halted ==> s'.phase == Precommitting && (s'.chain == s.chain ==> s'.locked == Some(sv.vote.blockHash))
  {
    var s1 := Count(cfg, s, sv).(locked := Some(sv.vote.blockHash));
    PrecommitKeepsLock(cfg, s1, sv.vote.blockHash);
  }

  lemma PrecommitKeepsLock(cfg: Config, s: NodeState, h: Hash)
    ensures var s' := CastPrecommit(cfg, s, h);
            && (!s'.halted && s'.chain == s.chain ==> s'.locked == s.locked && s'.round == s.round && s'.phase == s.phase)
            && (s'.chain != s.chain ==> s'.locked.None?)
  {
  }

  lemma StepAfterProposal(cfg: Config, s: NodeState, p: Proposal)
    requires cfg.validators != [] && Considers(cfg, s, p)
    ensures var s' := HandleProposal(cfg, s, p); !s'.halted ==> s'.phase == Prevoting
  {
  }

  /** The three timers in turn: prevote, precommit, and the next round, with the lock kept. */
  lemma StepAfterTimer(cfg: Config, s: NodeState)
    requires !s.halted
    ensures var s' := Expire(cfg, s);
            && !s'.halted && s'.height == s.height && s'.locked == s.locked && s'.chain == s.chain
            && match s.phase
               case Proposing => s'.phase == Prevoting && s'.round == s.round
               case Prevoting => s'.phase == Precommitting && s'.round == s.round
               case Precommitting => s'.phase == Proposing && s'.round == SatAdd(s.round, 1) && s'.rs == NEW_ROUND
  {
  }
}
