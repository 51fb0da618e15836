/** One BFT node as a function of its inputs: what each message and each expired timer does
to its state. A node's own votes are handled before they are sent, so one input can lock,
precommit and commit at once; the functions are layered the way the calls nest. */
module Consensus {
  import opened Base
  import opened Events
  import opened Blocks
  import opened Chain
  import opened Slashing
  import opened Snapshots
  import opened Validators

  datatype Config = Config(
    validators: seq<ValidatorInfo>,
    maxBlockBytes: u64,
    maxEvents: u64,
    slashing: SlashingConfig,
    skew: u64)

  datatype Phase = Proposing | Prevoting | Precommitting

  datatype RoundState = RoundState(
    proposal: Option<Proposal>,
    prevotes: map<Hash, set<NodeId>>,
    precommits: map<Hash, set<NodeId>>,
    proposed: bool)

  const NEW_ROUND: RoundState := RoundState(None, map[], map[], false)

  datatype Message = TxMessage(tx: seq<byte>) | ProposalMessage(proposal: Proposal) | VoteMessage(sv: SignedVote)

  /** `savedSlashes` is the copy of the slashing state in the in-memory snapshot, `disk` what the
  store holds. `signed` and `chain` record the votes a node has signed and the blocks it has
  committed; the program keeps neither, they are its history. `halted` stands for the exit on a
  failed commit. */
  datatype NodeState = NodeState(
    id: NodeId,
    store: Store,
    slashes: Slashes,
    savedSlashes: Option<Slashes>,
    disk: Option<Persisted>,
    mempool: seq<seq<byte>>,
    height: u64,
    round: u64,
    phase: Phase,
    locked: Option<Hash>,
    rs: RoundState,
    outbox: seq<Message>,
    halted: bool,
    signed: set<Vote>,
    chain: seq<Block>)

  function InitialStakes(vs: seq<ValidatorInfo>): map<NodeId, u64> {
    if vs == [] then map[] else InitialStakes(vs[..|vs| - 1])[vs[|vs| - 1].nodeId := vs[|vs| - 1].stake]
  }

  function Init(cfg: Config, id: NodeId): NodeState {
    var slashes := Fresh(InitialStakes(cfg.validators));
    NodeState(id, NO_STORE, slashes, Some(slashes), None, [], 1, 0, Proposing, None, NEW_ROUND, [], false, {}, [])
  }

  // ---- Verification ----

  /** The sum wraps as in a release build. */
  function ProposerFor(cfg: Config, height: u64, round: u64): ValidatorInfo
    requires cfg.validators != []
  {
    cfg.validators[((height + round) % (U64_MAX + 1)) % |cfg.validators|]
  }

  predicate VerifyVote(cfg: Config, sv: SignedVote) {
    var reg := ById(cfg.validators);
    sv.vote.validator in reg && Ed25519Verify(reg[sv.vote.validator].pubkey, VoteBytes(sv.vote), sv.signature)
  }

  predicate VerifyProposal(cfg: Config, p: Proposal)
    requires cfg.validators != []
  {
    var proposer := ProposerFor(cfg, p.height, p.round);
    proposer.nodeId == p.proposerId && Ed25519Verify(proposer.pubkey, ProposalBytes(p), p.signature)
  }

  function TotalBytes(txs: seq<seq<byte>>): nat {
    if txs == [] then 0 else TotalBytes(txs[..|txs| - 1]) + |txs[|txs| - 1]|
  }

  predicate ValidBlock(cfg: Config, height: u64, round: u64, tip: Hash, block: Block) {
    && block.header.height == height && block.header.round == round
    && block.header.prevBlockHash == tip
    && TxRoot(block.txs) == block.header.txRoot
    && TotalBytes(block.txs) <= cfg.maxBlockBytes && |block.txs| <= cfg.maxEvents
  }

  predicate Fits(cfg: Config, s: NodeState, block: Block) {
    ValidBlock(cfg, s.height, s.round, s.store.snap.tipHash, block)
  }

  // ---- Counting ----

  function VotesFor(rs: RoundState, kind: VoteType, bh: Hash): set<NodeId> {
    var votes := if kind.Prevote? then rs.prevotes else rs.precommits;
    if bh in votes then votes[bh] else {}
  }

  function Tally(rs: RoundState, v: Vote): RoundState {
    var votes := VotesFor(rs, v.kind, v.blockHash) + {v.validator};
    if v.kind.Prevote?
    then rs.(prevotes := rs.prevotes[v.blockHash := votes])
    else rs.(precommits := rs.precommits[v.blockHash := votes])
  }

  predicate Accepts(cfg: Config, s: NodeState, sv: SignedVote) {
    && !s.halted && VerifyVote(cfg, sv)
    && sv.vote.height == s.height && sv.vote.round == s.round
    && !IsJailed(s.slashes.jailed, sv.vote.validator, s.height)
  }

  /** The slashing state is copied to the snapshot whenever a slash succeeds. */
  function Count(cfg: Config, s: NodeState, sv: SignedVote): NodeState {
    var slashes := Observe(s.slashes, cfg.slashing, s.height, sv);
    s.(slashes := slashes,
       savedSlashes := if slashes.slashed != s.slashes.slashed then Some(slashes) else s.savedSlashes,
       rs := Tally(s.rs, sv.vote))
  }

  // ---- Committing ----

  function Pruned(mempool: seq<seq<byte>>, committed: set<Hash>): seq<seq<byte>> {
    if mempool == [] then []
    else
      var last := mempool[|mempool| - 1];
      Pruned(mempool[..|mempool| - 1], committed) + if TxHash(last) in committed then [] else [last]
  }

  function HashSet(txs: seq<seq<byte>>): set<Hash> {
    set i | 0 <= i < |txs| :: TxHash(txs[i])
  }

  /** A commit, and nothing else, writes to the store. */
  ghost function CommitBlock(cfg: Config, s: NodeState, block: Block): NodeState {
    var r := Commit(s.store, block, cfg.skew);
    if r.Err? then s.(halted := true)
    else
      s.(store := r.value, disk := Some(ToPersisted(r.value.snap, s.savedSlashes)), height := SatAdd(block.header.height, 1), round := 0, phase := Proposing,
         locked := None, rs := NEW_ROUND, mempool := Pruned(s.mempool, HashSet(block.txs)),
         chain := s.chain + [block])
  }

  // ---- Votes ----

  function Ballot(s: NodeState, kind: VoteType, bh: Hash): SignedVote {
    var v := Vote(s.height, s.round, kind, bh, s.id);
    SignedVote(v, Ed25519Sign(s.id, VoteBytes(v)))
  }

  function Sign(s: NodeState, v: Vote): NodeState {
    s.(signed := s.signed + {v})
  }

  function Send(s: NodeState, m: Message): NodeState {
    if s.halted then s else s.(outbox := s.outbox + [m])
  }

  function SetPhase(s: NodeState, phase: Phase): NodeState {
    if s.halted then s else s.(phase := phase)
  }

  ghost predicate HasQuorum(cfg: Config, s: NodeState, v: Vote) {
    v.blockHash != ZERO_HASH && QuorumMet(cfg.validators, VotesFor(s.rs, v.kind, v.blockHash))
  }

  ghost function OnPrecommit(cfg: Config, s: NodeState, sv: SignedVote): NodeState {
    if !Accepts(cfg, s, sv) then s
    else
      var s1 := Count(cfg, s, sv);
      if HasQuorum(cfg, s1, sv.vote) && s1.rs.proposal.Some? &&
         BlockHash(s1.rs.proposal.value.block.header) == sv.vote.blockHash
      then CommitBlock(cfg, s1, s1.rs.proposal.value.block)
      else s1
  }

  ghost function CastPrecommit(cfg: Config, s: NodeState, bh: Hash): NodeState {
    var sv := Ballot(s, Precommit, bh);
    Send(OnPrecommit(cfg, Sign(s, sv.vote), sv), VoteMessage(sv))
  }

  /** A prevote quorum for a block moves the lock, whatever it was before. */
  ghost function OnPrevote(cfg: Config, s: NodeState, sv: SignedVote): NodeState {
    if !Accepts(cfg, s, sv) then s
    else
      var s1 := Count(cfg, s, sv);
      if HasQuorum(cfg, s1, sv.vote)
      then SetPhase(CastPrecommit(cfg, s1.(locked := Some(sv.vote.blockHash)), sv.vote.blockHash), Precommitting)
      else s1
  }

  ghost function CastPrevote(cfg: Config, s: NodeState, bh: Hash): NodeState {
    var sv := Ballot(s, Prevote, bh);
    Send(OnPrevote(cfg, Sign(s, sv.vote), sv), VoteMessage(sv))
  }

  ghost function HandleVote(cfg: Config, s: NodeState, sv: SignedVote): NodeState {
    if sv.vote.kind.Prevote? then OnPrevote(cfg, s, sv) else OnPrecommit(cfg, s, sv)
  }

  ghost function CastVote(cfg: Config, s: NodeState, kind: VoteType, bh: Hash): NodeState {
    if kind.Prevote? then CastPrevote(cfg, s, bh) else CastPrecommit(cfg, s, bh)
  }

  // ---- Proposals and timers ----

  /** The prevote for an acceptable proposal: nil when locked on something else. */
  function Choice(s: NodeState, bh: Hash): Hash {
    if s.locked.Some? && s.locked.value != bh then ZERO_HASH else bh
  }

  ghost function HandleProposal(cfg: Config, s: NodeState, p: Proposal): NodeState
    requires cfg.validators != []
  {
    if s.halted || p.height != s.height || p.round != s.round || !VerifyProposal(cfg, p) then s
    else if !Fits(cfg, s, p.block) then SetPhase(CastPrevote(cfg, s, ZERO_HASH), Prevoting)
    else
      var s1 := s.(rs := s.rs.(proposal := Some(p)));
      SetPhase(CastPrevote(cfg, s1, Choice(s1, BlockHash(p.block.header))), Prevoting)
  }

  /** How many transactions, from the front of the pool, go into a block. */
  function Taken(mempool: seq<seq<byte>>, n: nat, maxBytes: nat, maxEvents: nat): nat
    requires n <= |mempool|
    decreases |mempool| - n
  {
    if n < |mempool| && n < maxEvents && TotalBytes(mempool[..n]) + |mempool[n]| <= maxBytes
    then Taken(mempool, n + 1, maxBytes, maxEvents)
    else n
  }

  function BuildBlock(cfg: Config, s: NodeState, now: u64): Block {
    var n := Taken(s.mempool, 0, cfg.maxBlockBytes, cfg.maxEvents);
    TakenBound(s.mempool, 0, cfg.maxBlockBytes, cfg.maxEvents);
    var txs := s.mempool[..n];
    Block(BlockHeader(s.height, s.round, s.store.snap.tipHash, TxRoot(txs), s.id, now), txs)
  }

  function SignProposal(s: NodeState, block: Block): Proposal {
    var p := Proposal(s.height, s.round, block, s.id, seq(64, _ => 0));
    p.(signature := Ed25519Sign(s.id, ProposalBytes(p)))
  }

  predicate Proposes(cfg: Config, s: NodeState)
    requires cfg.validators != []
  {
    !s.halted && s.phase.Proposing? && !s.rs.proposed && ProposerFor(cfg, s.height, s.round).nodeId == s.id
  }

  ghost function MaybePropose(cfg: Config, s: NodeState, now: u64): NodeState
    requires cfg.validators != []
  {
    if !Proposes(cfg, s) then s
    else
      var p := SignProposal(s, BuildBlock(cfg, s, now));
      var s1 := Send(s.(rs := s.rs.(proposed := true, proposal := Some(p))), ProposalMessage(p));
      HandleProposal(cfg, s1, p)
  }

  /** A timer of the current phase has run out. */
  ghost function Expire(cfg: Config, s: NodeState): NodeState {
    if s.halted then s
    else
      match s.phase
      case Proposing =>
        SetPhase(if s.rs.proposal.None? then CastPrevote(cfg, s, ZERO_HASH) else s, Prevoting)
      case Prevoting => SetPhase(CastPrecommit(cfg, s, ZERO_HASH), Precommitting)
      case Precommitting => s.(round := SatAdd(s.round, 1), phase := Proposing, rs := NEW_ROUND)
  }

  function SubmitTx(s: NodeState, tx: seq<byte>, broadcast: bool): NodeState {
    if s.halted || tx == [] then s
    else
      var s1 := s.(mempool := s.mempool + [tx]);
      if broadcast then Send(s1, TxMessage(tx)) else s1
  }

  // ---- A block built here passes the checks made there ----

  lemma {:induction false} TakenBound(mempool: seq<seq<byte>>, n: nat, maxBytes: nat, maxEvents: nat)
    requires n <= |mempool|
    ensures n <= Taken(mempool, n, maxBytes, maxEvents) <= |mempool|
    decreases |mempool| - n
  {
    if n < |mempool| && n < maxEvents && TotalBytes(mempool[..n]) + |mempool[n]| <= maxBytes {
      TakenBound(mempool, n + 1, maxBytes, maxEvents);
    }
  }

  lemma {:induction false} TakenFits(mempool: seq<seq<byte>>, n: nat, maxBytes: nat, maxEvents: nat)
    requires n <= |mempool| && n <= maxEvents && TotalBytes(mempool[..n]) <= maxBytes
    ensures var k := Taken(mempool, n, maxBytes, maxEvents);
            k <= |mempool| && k <= maxEvents && TotalBytes(mempool[..k]) <= maxBytes
    decreases |mempool| - n
  {
    if n < |mempool| && n < maxEvents && TotalBytes(mempool[..n]) + |mempool[n]| <= maxBytes {
      assert mempool[..n + 1][..n] == mempool[..n];
      TakenFits(mempool, n + 1, maxBytes, maxEvents);
    }
  }

  lemma {:induction false} TakenMaximal(mempool: seq<seq<byte>>, n: nat, maxBytes: nat, maxEvents: nat)
    requires n <= |mempool|
    ensures var k := Taken(mempool, n, maxBytes, maxEvents);
            k <= |mempool| && (k == |mempool| || k >= maxEvents || TotalBytes(mempool[..k]) + |mempool[k]| > maxBytes)
    decreases |mempool| - n
  {
    if n < |mempool| && n < maxEvents && TotalBytes(mempool[..n]) + |mempool[n]| <= maxBytes {
      TakenMaximal(mempool, n + 1, maxBytes, maxEvents);
    }
  }

  /** A block takes the longest front part of the pool that fits. */
  lemma BuildMaximal(cfg: Config, s: NodeState, now: u64)
    ensures var txs := BuildBlock(cfg, s, now).txs;
            && txs <= s.mempool
            && (txs == s.mempool || |txs| >= cfg.maxEvents ||
                TotalBytes(txs) + |s.mempool[|txs|]| > cfg.maxBlockBytes)
  {
    TakenMaximal(s.mempool, 0, cfg.maxBlockBytes, cfg.maxEvents);
  }

  /** Pruning drops every copy of a committed transaction and no copy of any other. */
  lemma {:induction false} PrunedExact(mempool: seq<seq<byte>>, committed: set<Hash>, tx: seq<byte>)
    ensures multiset(Pruned(mempool, committed))[tx] == if TxHash(tx) in committed then 0 else multiset(mempool)[tx]
    decreases |mempool|
  {
    if mempool != [] {
      var n := |mempool| - 1;
      PrunedExact(mempool[..n], committed, tx);
      assert mempool == mempool[..n] + [mempool[n]];
    }
  }

  /** A correct proposer never has its own block refused, and signs it with its name and clock. */
  lemma BuildFits(cfg: Config, s: NodeState, now: u64)
    ensures Fits(cfg, s, BuildBlock(cfg, s, now))
    ensures BuildBlock(cfg, s, now).header.proposerId == s.id && BuildBlock(cfg, s, now).header.timestampMs == now
  {
    TakenFits(s.mempool, 0, cfg.maxBlockBytes, cfg.maxEvents);
  }
}
