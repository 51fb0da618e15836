/** Restart: the stored snapshot is sorted, checked and replayed. */
module Restart {
  import opened Base
  import opened Blocks
  import opened Chain
  import opened Slashing
  import opened Snapshots
  import opened Consensus
  import opened Network
  import opened Handlers
  import opened Proposers

  // ---- Reading: sort, check the links, apply ----

  /** A stable sort by height: each block goes behind those that are not higher. */
  function Insert(sorted: seq<Block>, b: Block): seq<Block> {
    if sorted == [] || sorted[|sorted| - 1].header.height <= b.header.height then sorted + [b]
    else Insert(sorted[..|sorted| - 1], b) + [sorted[|sorted| - 1]]
  }

  function SortBlocks(blocks: seq<Block>): seq<Block> {
    if blocks == [] then [] else Insert(SortBlocks(blocks[..|blocks| - 1]), blocks[|blocks| - 1])
  }

  lemma {:induction false} InsertLength(sorted: seq<Block>, b: Block)
    ensures |Insert(sorted, b)| == |sorted| + 1
  {
    if sorted != [] && sorted[|sorted| - 1].header.height > b.header.height {
      InsertLength(sorted[..|sorted| - 1], b);
    }
  }

  lemma {:induction false} SortLength(blocks: seq<Block>)
    ensures |SortBlocks(blocks)| == |blocks|
  {
    if blocks != [] {
      SortLength(blocks[..|blocks| - 1]);
      InsertLength(SortBlocks(blocks[..|blocks| - 1]), blocks[|blocks| - 1]);
    }
  }

  lemma {:induction false} SortLinked(chain: seq<Block>)
    requires Linked(chain)
    ensures SortBlocks(chain) == chain
  {
    if chain != [] {
      var n := |chain| - 1;
      LinkedPrefix(chain, n);
      SortLinked(chain[..n]);
      assert LinkedAt(chain, n);
      if n > 0 { assert LinkedAt(chain, n - 1); }
      assert chain == chain[..n] + [chain[n]];
    }
  }

  function ReplayChecked(st: Store, blocks: seq<Block>, prev: Hash, height: u64, skew: u64): Option<Store>
    decreases |blocks|
  {
    if blocks == [] then Some(st)
    else if blocks[0].header.height != height || blocks[0].header.prevBlockHash != prev then None
    else
      var r := Commit(st, blocks[0], skew);
      if r.Err? then None
      else ReplayChecked(r.value, blocks[1..], BlockHash(blocks[0].header), SatAdd(height, 1), skew)
  }

  function Restore(p: Persisted, skew: u64): Option<Store> {
    if p.blocks == [] then
      if p.height > 0 then None else Some(NO_STORE.(snap := NO_SNAPSHOT.(height := p.height, tipHash := p.tipHash)))
    else ReplayChecked(NO_STORE, SortBlocks(p.blocks), ZERO_HASH, 1, skew)
  }

  /** The checked replay is the replay of linked blocks, and refuses all others. */
  lemma {:induction false} ReplayCheckedExact(chain: seq<Block>, k: nat, skew: u64)
    requires k <= |chain| < U64_MAX && Linked(chain[..k]) && Replay(chain[..k], skew).Ok?
    ensures var r := ReplayChecked(Replay(chain[..k], skew).value, chain[k..], TipOf(chain[..k]), k + 1, skew);
            && (r.Some? <==> Linked(chain) && Replay(chain, skew).Ok?)
            && (r.Some? ==> r == Some(Replay(chain, skew).value))
    decreases |chain| - k
  {
    if k == |chain| {
      assert chain[..k] == chain;
    } else {
      var block, init := chain[k], chain[..k];
      assert chain[k..][0] == block && chain[k..][1..] == chain[k + 1..] && chain[..k + 1] == init + [block];
      ReplayExtend(init, block, skew);
      if block.header.height == k + 1 && block.header.prevBlockHash == TipOf(init) && Commit(Replay(init, skew).value, block, skew).Ok? {
        LinkedExtend(init, block);
        ReplayCheckedExact(chain, k + 1, skew);
      } else if Linked(chain) && Replay(chain, skew).Ok? {
        Refusal(chain, k, skew);
      }
    }
  }

  /** Where the next block does not fit or does not apply, the chain is not linked or does not replay. */
  lemma Refusal(chain: seq<Block>, k: nat, skew: u64)
    requires k < |chain| && Linked(chain) && Replay(chain, skew).Ok?
    ensures chain[k].header.height == k + 1 && chain[k].header.prevBlockHash == TipOf(chain[..k])
    ensures Replay(chain[..k], skew).Ok? && Commit(Replay(chain[..k], skew).value, chain[k], skew).Ok?
  {
    LinkedMore(chain, k);
    ReplayPrefix(chain, k + 1, skew);
    assert chain[..k + 1] == chain[..k] + [chain[k]];
    ReplayExtend(chain[..k], chain[k], skew);
  }

  lemma LinkedMore(chain: seq<Block>, k: nat)
    requires k < |chain| && Linked(chain)
    ensures chain[k].header.height == k + 1 && chain[k].header.prevBlockHash == TipOf(chain[..k])
  {
    assert LinkedAt(chain, k);
  }

  lemma {:induction false} ReplayPrefix(chain: seq<Block>, k: nat, skew: u64)
    requires k <= |chain| && Replay(chain, skew).Ok?
    ensures Replay(chain[..k], skew).Ok?
    decreases |chain|
  {
    if k < |chain| {
      assert chain[..|chain| - 1][..k] == chain[..k];
      ReplayPrefix(chain[..|chain| - 1], k, skew);
    } else {
      assert chain[..k] == chain;
    }
  }

  /** A stored snapshot is accepted exactly when its blocks, sorted by height, are linked from
  height 1 on and replay, or when it is empty and of height 0; what it says of height and tip is
  then not trusted but recomputed. */
  lemma RestoreExact(p: Persisted, skew: u64)
    requires |p.blocks| < U64_MAX
    ensures p.blocks == [] ==> (Restore(p, skew).Some? <==> p.height == 0)
    ensures p.blocks != [] ==>
      && (Restore(p, skew).Some? <==> Linked(SortBlocks(p.blocks)) && Replay(SortBlocks(p.blocks), skew).Ok?)
      && (Restore(p, skew).Some? ==> Restore(p, skew) == Some(Replay(SortBlocks(p.blocks), skew).value))
  {
    var chain := SortBlocks(p.blocks);
    SortLength(p.blocks);
    assert chain[..0] == [] && chain[0..] == chain;
    ReplayCheckedExact(chain, 0, skew);
  }

  /** Sorting only reorders, by height. */
  lemma {:induction false} SortExact(blocks: seq<Block>)
    ensures multiset(SortBlocks(blocks)) == multiset(blocks) && HeightsRise(SortBlocks(blocks))
  {
    if blocks != [] {
      var n := |blocks| - 1;
      SortExact(blocks[..n]);
      InsertExact(SortBlocks(blocks[..n]), blocks[n]);
      assert blocks == blocks[..n] + [blocks[n]];
    }
  }

  ghost predicate HeightsRise(blocks: seq<Block>) {
    forall i, j :: 0 <= i < j < |blocks| ==> blocks[i].header.height <= blocks[j].header.height
  }

  lemma {:induction false} InsertHolds(sorted: seq<Block>, b: Block)
    ensures multiset(Insert(sorted, b)) == multiset(sorted) + multiset{b}
  {
    if sorted != [] && sorted[|sorted| - 1].header.height > b.header.height {
      var n := |sorted| - 1;
      InsertHolds(sorted[..n], b);
      assert sorted == sorted[..n] + [sorted[n]];
    }
  }

  ghost predicate NoHigher(blocks: seq<Block>, height: u64) {
    forall x :: x in blocks ==> x.header.height <= height
  }

  lemma RiseSnoc(blocks: seq<Block>, last: Block)
    requires HeightsRise(blocks) && NoHigher(blocks, last.header.height)
    ensures HeightsRise(blocks + [last])
  {
    var more := blocks + [last];
    forall i, j | 0 <= i < j < |more| ensures more[i].header.height <= more[j].header.height {
      assert more[i] == blocks[i] && more[i] in blocks;
    }
  }

  lemma {:induction false} InsertNoHigher(sorted: seq<Block>, b: Block, height: u64)
    requires NoHigher(sorted, height) && b.header.height <= height
    ensures NoHigher(Insert(sorted, b), height)
  {
    if sorted != [] && sorted[|sorted| - 1].header.height > b.header.height {
      assert forall x :: x in sorted[..|sorted| - 1] ==> x in sorted;
      InsertNoHigher(sorted[..|sorted| - 1], b, height);
    }
  }

  lemma {:induction false} InsertExact(sorted: seq<Block>, b: Block)
    requires HeightsRise(sorted)
    ensures multiset(Insert(sorted, b)) == multiset(sorted) + multiset{b} && HeightsRise(Insert(sorted, b))
  {
    InsertHolds(sorted, b);
    if sorted != [] {
      var n := |sorted| - 1;
      var init, last := sorted[..n], sorted[n];
      assert HeightsRise(init) && NoHigher(init, last.header.height) && NoHigher(sorted, last.header.height);
      if last.header.height > b.header.height {
        InsertExact(init, b);
        InsertNoHigher(init, b, last.header.height);
        RiseSnoc(Insert(init, b), last);
      } else {
        RiseSnoc(sorted, b);
      }
    }
  }

  /** Restarting replays to the same state: height, tip, blocks, index, ledger and contexts. */
  lemma RestartRoundTrip(chain: seq<Block>, st: Store, slashing: Option<Slashes>, skew: u64)
    requires Linked(chain) && |chain| < U64_MAX && Replay(chain, skew) == Ok(st)
    ensures Restore(ToPersisted(st.snap, slashing), skew) == Some(st)
  {
    ReplayIndexed(chain, skew);
    DumpIsChain(chain, st.snap);
    SortLinked(chain);
    assert chain[..0] == [] && chain[0..] == chain;
    ReplayCheckedExact(chain, 0, skew);
  }

  /** A node that starts from a stored snapshot. */
  function Restarted(cfg: Config, id: NodeId, p: Persisted, st: Store): NodeState {
    var blank := Init(cfg, id);
    blank.(store := st, disk := Some(p), height := SatAdd(st.snap.height, 1), savedSlashes := p.slashing,
           slashes := if p.slashing.Some? then p.slashing.value else blank.slashes)
  }

  /** What starts from a store: a fresh node when nothing is stored, none when the snapshot is refused. */
  function Booted(cfg: Config, id: NodeId, disk: Option<Persisted>): Option<NodeState> {
    if disk.None? then Some(Init(cfg, id))
    else
      var st := Restore(disk.value, cfg.skew);
      if st.None? then None else Some(Restarted(cfg, id, disk.value, st.value))
  }

  /** A node that stops and starts again from its store; what it has signed and committed is history
  and stays so. */
  function Reboot(cfg: Config, s: NodeState): NodeState
    requires Booted(cfg, s.id, s.disk).Some?
  {
    Booted(cfg, s.id, s.disk).value.(signed := s.signed, chain := s.chain)
  }

  // ---- What the store knows of stakes, jail and slashing records ----

  /** Stakes, jail and records; the votes seen are not among them. */
  function Penal(st: Slashes): Slashes {
    st.(votes := map[])
  }

  /** The slashing state a restart would find. */
  function StoredSlashes(cfg: Config, s: NodeState): Slashes {
    if s.disk.Some? && s.disk.value.slashing.Some? then s.disk.value.slashing.value
    else Fresh(InitialStakes(cfg.validators))
  }

  /** The records since the last commit are those of the current height. */
  ghost predicate RecordsSince(stored: seq<SlashingRecord>, records: seq<SlashingRecord>, height: u64) {
    && stored <= records
    && (forall k :: 0 <= k < |stored| ==> stored[k].evidence.height < height)
    && (forall k :: |stored| <= k < |records| ==> records[k].evidence.height == height)
  }

  ghost predicate SavedAgrees(s: NodeState) {
    s.savedSlashes.Some? && Penal(s.savedSlashes.value) == Penal(s.slashes)
  }

  ghost predicate DiskAgrees(cfg: Config, s: NodeState) {
    && (s.disk.None? <==> s.chain == [])
    && (s.disk.Some? ==> s.disk.value.slashing.Some? && s.disk.value == ToPersisted(s.store.snap, s.disk.value.slashing))
    && SavedAgrees(s)
    && RecordsSince(StoredSlashes(cfg, s).slashed, s.slashes.slashed, s.height)
    && (StoredSlashes(cfg, s).slashed == s.slashes.slashed ==> Penal(StoredSlashes(cfg, s)) == Penal(s.slashes))
  }

  // ---- Every step keeps it ----

  lemma ObserveRecords(st: Slashes, config: SlashingConfig, height: u64, sv: SignedVote)
    requires sv.vote.height == height
    ensures var st' := Observe(st, config, height, sv);
            || Penal(st') == Penal(st)
            || (|st'.slashed| == |st.slashed| + 1 && st.slashed <= st'.slashed
                && st'.slashed[|st.slashed|].evidence.height == height)
  {
  }

  lemma CountDisk(cfg: Config, s: NodeState, sv: SignedVote)
    requires DiskAgrees(cfg, s) && Accepts(cfg, s, sv)
    ensures DiskAgrees(cfg, Count(cfg, s, sv))
  {
    var s1 := Count(cfg, s, sv);
    ObserveRecords(s.slashes, cfg.slashing, s.height, sv);
    if Penal(s1.slashes) != Penal(s.slashes) {
      assert |s1.slashes.slashed| > |StoredSlashes(cfg, s).slashed|;
    }
  }

  lemma CommitDisk(cfg: Config, s: NodeState, block: Block)
    requires DiskAgrees(cfg, s) && block.header.height == s.height < U64_MAX
    ensures DiskAgrees(cfg, CommitBlock(cfg, s, block))
  {
    if Commit(s.store, block, cfg.skew).Ok? {
      forall k | 0 <= k < |s.slashes.slashed| ensures s.slashes.slashed[k].evidence.height <= s.height {
        var stored := StoredSlashes(cfg, s).slashed;
        if k < |stored| { assert stored[k] == s.slashes.slashed[k]; }
      }
    }
  }

  lemma PrecommitDisk(cfg: Config, s: NodeState, sv: SignedVote)
    requires DiskAgrees(cfg, s) && HoldsCurrent(s) && s.height < U64_MAX
    ensures DiskAgrees(cfg, OnPrecommit(cfg, s, sv))
  {
    if Accepts(cfg, s, sv) {
      CountDisk(cfg, s, sv);
      var s1 := Count(cfg, s, sv);
      if s1.rs.proposal.Some? {
        CommitDisk(cfg, s1, s1.rs.proposal.value.block);
      }
    }
  }

  lemma CastPrecommitDisk(cfg: Config, s: NodeState, bh: Hash)
    requires DiskAgrees(cfg, s) && HoldsCurrent(s) && s.height < U64_MAX
    ensures DiskAgrees(cfg, CastPrecommit(cfg, s, bh))
  {
    var sv := Ballot(s, Precommit, bh);
    PrecommitDisk(cfg, Sign(s, sv.vote), sv);
  }

  lemma PrevoteDisk(cfg: Config, s: NodeState, sv: SignedVote)
    requires DiskAgrees(cfg, s) && HoldsCurrent(s) && s.height < U64_MAX
    ensures DiskAgrees(cfg, OnPrevote(cfg, s, sv))
  {
    if Accepts(cfg, s, sv) {
      CountDisk(cfg, s, sv);
      CastPrecommitDisk(cfg, Count(cfg, s, sv).(locked := Some(sv.vote.blockHash)), sv.vote.blockHash);
    }
  }

  lemma CastPrevoteDisk(cfg: Config, s: NodeState, bh: Hash)
    requires DiskAgrees(cfg, s) && HoldsCurrent(s) && s.height < U64_MAX
    ensures DiskAgrees(cfg, CastPrevote(cfg, s, bh))
  {
    var sv := Ballot(s, Prevote, bh);
    PrevoteDisk(cfg, Sign(s, sv.vote), sv);
  }

  lemma ProposalDisk(cfg: Config, s: NodeState, p: Proposal)
    requires cfg.validators != [] && DiskAgrees(cfg, s) && HoldsCurrent(s) && s.height < U64_MAX
    ensures DiskAgrees(cfg, HandleProposal(cfg, s, p))
  {
    CastPrevoteDisk(cfg, s, ZERO_HASH);
    if Fits(cfg, s, p.block) {
      var s1 := s.(rs := s.rs.(proposal := Some(p)));
      CastPrevoteDisk(cfg, s1, Choice(s1, BlockHash(p.block.header)));
    }
  }

  lemma ProposeDisk(cfg: Config, s: NodeState, now: u64)
    requires cfg.validators != [] && DiskAgrees(cfg, s) && HoldsCurrent(s) && s.height < U64_MAX
    ensures DiskAgrees(cfg, MaybePropose(cfg, s, now))
  {
    if Proposes(cfg, s) {
      var p := SignProposal(s, BuildBlock(cfg, s, now));
      ProposalDisk(cfg, Send(s.(rs := s.rs.(proposed := true, proposal := Some(p))), ProposalMessage(p)), p);
    }
  }

  lemma TimerDisk(cfg: Config, s: NodeState)
    requires DiskAgrees(cfg, s) && HoldsCurrent(s) && s.height < U64_MAX
    ensures DiskAgrees(cfg, Expire(cfg, s))
  {
    if s.phase.Proposing? && s.rs.proposal.None? {
      CastPrevoteDisk(cfg, s, ZERO_HASH);
    } else if s.phase.Prevoting? {
      CastPrecommitDisk(cfg, s, ZERO_HASH);
    }
  }

  lemma NextDisk(cfg: Config, n: Net, a: Action, i: NodeId)
    requires cfg.validators != [] && Inv(cfg, QuorumsOf(cfg), n) && Enabled(cfg, n, a) && Bounded(n)
    requires i in n.nodes && DiskAgrees(cfg, n.nodes[i])
    ensures DiskAgrees(cfg, Next(cfg, n, a).nodes[i])
  {
    var s := n.nodes[i];
    assert Sound(cfg, QuorumsOf(cfg), n, i);
    if !a.DeviantVote? && !a.DeviantProposal? && a.node == i {
      match a {
        case Deliver(_, sv) =>
          if sv.vote.kind.Prevote? { PrevoteDisk(cfg, s, sv); } else { PrecommitDisk(cfg, s, sv); }
        case Offer(_, p) => ProposalDisk(cfg, s, p);
        case Propose(_, now) => ProposeDisk(cfg, s, now);
        case Timer(_) => TimerDisk(cfg, s);
        case Submit(_, _, _) =>
      }
    }
  }

  lemma {:induction false} RunDisk(cfg: Config, n: Net, acts: seq<Action>, i: NodeId)
    requires cfg.validators != [] && Runs(cfg, n, acts) && Inv(cfg, QuorumsOf(cfg), n) && Bounded(n)
    requires i in n.nodes && DiskAgrees(cfg, n.nodes[i])
    ensures i in After(cfg, n, acts).nodes && DiskAgrees(cfg, After(cfg, n, acts).nodes[i])
    decreases |acts|
  {
    if acts != [] {
      NextNodes(cfg, n, acts[0]);
      NextDisk(cfg, n, acts[0], i);
      NextKeeps(cfg, n, acts[0]);
      RunDisk(cfg, Next(cfg, n, acts[0]), acts[1..], i);
    }
  }

  // ---- What comes back ----

  /** No validator was slashed at the current height, that is, since the last commit. */
  ghost predicate NoneSlashedHere(s: NodeState) {
    forall k :: 0 <= k < |s.slashes.slashed| ==> s.slashes.slashed[k].evidence.height < s.height
  }

  lemma PenalComesBack(cfg: Config, s: NodeState)
    requires DiskAgrees(cfg, s)
    ensures Penal(StoredSlashes(cfg, s)) == Penal(s.slashes) <==> NoneSlashedHere(s)
  {
    var stored, records := StoredSlashes(cfg, s).slashed, s.slashes.slashed;
    assert |stored| < |records| ==> records[|stored|].evidence.height == s.height;
    if NoneSlashedHere(s) {
      assert stored == records;
    }
  }

  lemma RestartNode(cfg: Config, s: NodeState)
    requires Linked(s.chain) && Replay(s.chain, cfg.skew) == Ok(s.store) && s.height == |s.chain| + 1
    requires DiskAgrees(cfg, s) && |s.chain| < U64_MAX
    ensures Booted(cfg, s.id, s.disk).Some?
    ensures var b := Booted(cfg, s.id, s.disk).value;
            && b.store == s.store && b.height == s.height && b.locked.None? && b.slashes == StoredSlashes(cfg, s)
            && (Penal(b.slashes) == Penal(s.slashes) <==> NoneSlashedHere(s))
  {
    PenalComesBack(cfg, s);
    if s.disk.Some? {
      RestartRoundTrip(s.chain, s.store, s.disk.value.slashing, cfg.skew);
      ReplayIndexed(s.chain, cfg.skew);
    }
  }

  /** From every state a run can reach, what the store holds starts a node at the same height with
  the same blocks, index, ledger and contexts, and without a lock; nothing is stored exactly
  before the first commit. Stakes, jail and slashing records come back exactly when no one was
  slashed since the last commit. */
  lemma RestartFromAnyState(cfg: Config, correct: set<NodeId>, acts: seq<Action>, i: NodeId)
    requires cfg.validators != [] && Runs(cfg, Start(cfg, correct), acts) && i in correct
    ensures i in After(cfg, Start(cfg, correct), acts).nodes
    ensures var s := After(cfg, Start(cfg, correct), acts).nodes[i];
            var b := Booted(cfg, i, s.disk);
            && (s.disk.None? <==> s.chain == [])
            && b.Some? && b.value.store == s.store && b.value.height == s.height && b.value.locked.None?
            && (Penal(b.value.slashes) == Penal(s.slashes) <==> NoneSlashedHere(s))
  {
    var start := Start(cfg, correct);
    StartInv(cfg, correct);
    RunInv(cfg, start, acts);
    assert DiskAgrees(cfg, start.nodes[i]);
    RunDisk(cfg, start, acts, i);
    var n := After(cfg, start, acts);
    assert Sound(cfg, QuorumsOf(cfg), n, i);
    RunBounded(cfg, start, acts);
    RestartNode(cfg, n.nodes[i]);
  }

  lemma {:induction false} RunBounded(cfg: Config, n: Net, acts: seq<Action>)
    requires cfg.validators != [] && Runs(cfg, n, acts) && Bounded(n)
    ensures Bounded(After(cfg, n, acts))
    decreases |acts|
  {
    if acts != [] {
      RunBounded(cfg, Next(cfg, n, acts[0]), acts[1..]);
    }
  }

  /** The failing case: two conflicting precommits of one validator at the current height. The node
  slashes and jails him; after a restart he has his stake back and is free. */
  lemma SlashForgotten(cfg: Config, s: NodeState, a: SignedVote, b: SignedVote)
    requires DiskAgrees(cfg, s) && NoneSlashedHere(s) && s.rs.proposal.None? && s.height < U64_MAX
    requires Accepts(cfg, s, a) && Accepts(cfg, s, b) && a.vote.kind.Precommit? && b.vote.kind.Precommit?
    requires a.vote.validator == b.vote.validator && a.vote.blockHash != b.vote.blockHash
    requires Seen(s.slashes.votes, KeyOf(a.vote), a.vote.validator).None?
    requires cfg.slashing.enabled && cfg.slashing.jailDuration > 0 && StakeOf(s.slashes.stakes, a.vote.validator) > 0
    ensures var s' := HandleVote(cfg, HandleVote(cfg, s, a), b);
            && IsJailed(s'.slashes.jailed, a.vote.validator, s'.height)
            && |s'.slashes.slashed| == |s.slashes.slashed| + 1
            && !IsJailed(StoredSlashes(cfg, s').jailed, a.vote.validator, s'.height)
            && StoredSlashes(cfg, s').slashed == s.slashes.slashed
            && StakeOf(StoredSlashes(cfg, s').stakes, a.vote.validator) == StakeOf(s.slashes.stakes, a.vote.validator)
  {
    PenalComesBack(cfg, s);
    var s1 := Count(cfg, s, a);
    FirstRecorded(cfg, s, a);
    assert HandleVote(cfg, s, a) == s1 && Accepts(cfg, s1, b);
    SecondPunished(cfg, s1, a, b);
    assert HandleVote(cfg, s1, b) == Count(cfg, s1, b);
  }

  lemma FirstRecorded(cfg: Config, s: NodeState, a: SignedVote)
    requires Accepts(cfg, s, a) && cfg.slashing.enabled && Seen(s.slashes.votes, KeyOf(a.vote), a.vote.validator).None?
    ensures var s1 := Count(cfg, s, a);
            && s1.slashes == s.slashes.(votes := s1.slashes.votes) && s1.disk == s.disk
            && Seen(s1.slashes.votes, KeyOf(a.vote), a.vote.validator) == Some(a)
  {
    SeenAfter(s.slashes.votes, a);
  }

  lemma SecondPunished(cfg: Config, s: NodeState, a: SignedVote, b: SignedVote)
    requires Accepts(cfg, s, b) && cfg.slashing.enabled && cfg.slashing.jailDuration > 0 && s.height < U64_MAX
    requires KeyOf(a.vote) == KeyOf(b.vote) && a.vote.validator == b.vote.validator && a.vote.blockHash != b.vote.blockHash
    requires Seen(s.slashes.votes, KeyOf(a.vote), a.vote.validator) == Some(a) && StakeOf(s.slashes.stakes, b.vote.validator) > 0
    ensures var s1 := Count(cfg, s, b);
            && IsJailed(s1.slashes.jailed, b.vote.validator, s.height) && |s1.slashes.slashed| == |s.slashes.slashed| + 1
            && s1.disk == s.disk
  {
  }

  lemma SeenAfter(book: VoteBook, a: SignedVote)
    requires Seen(book, KeyOf(a.vote), a.vote.validator).None?
    ensures Seen(RecordVotes(book, a), KeyOf(a.vote), a.vote.validator) == Some(a)
  {
  }
}
