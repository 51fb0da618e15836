/** Stakes, double-sign detection, slashing and jail. */
module Slashing {
  import opened Base
  import opened Blocks

  datatype SlashingConfig = SlashingConfig(
    enabled: bool,
    doubleSignPercent: u64,
    invalidProposalPercent: u64,
    jailDuration: u64)

  datatype Evidence =
    | DoubleSign(validator: NodeId, height: u64, round: u64, vote1: SignedVote, vote2: SignedVote)
    | InvalidProposal(validator: NodeId, height: u64, proposal: Proposal, reason: string)

  datatype SlashingRecord = SlashingRecord(evidence: Evidence, amount: u64, jailUntil: u64)

  datatype SlashError = Disabled | NoStake | StillJailed(until: u64) | NotJailed

  type VoteKey = (u64, u64, VoteType)

  /** Votes seen per height, round and type, then per validator. */
  type VoteBook = map<VoteKey, map<NodeId, SignedVote>>

  datatype Slashes = Slashes(
    stakes: map<NodeId, u64>,
    original: map<NodeId, u64>,
    slashed: seq<SlashingRecord>,
    jailed: map<NodeId, u64>,
    votes: VoteBook)

  function Fresh(stakes: map<NodeId, u64>): Slashes {
    Slashes(stakes, stakes, [], map[], map[])
  }

  function KeyOf(v: Vote): VoteKey {
    (v.height, v.round, v.kind)
  }

  predicate IsJailed(jailed: map<NodeId, u64>, id: NodeId, height: u64) {
    id in jailed && height < jailed[id]
  }

  function StakeOf(stakes: map<NodeId, u64>, id: NodeId): u64 {
    if id in stakes then stakes[id] else 0
  }

  function TotalSlashed(st: Slashes, id: NodeId): u64 {
    SatSub(StakeOf(st.original, id), StakeOf(st.stakes, id))
  }

  // ---- Recording votes ----

  function Seen(book: VoteBook, key: VoteKey, id: NodeId): Option<SignedVote> {
    if key in book && id in book[key] then Some(book[key][id]) else None
  }

  function Put(book: VoteBook, sv: SignedVote): VoteBook {
    var key := KeyOf(sv.vote);
    var votes := if key in book then book[key] else map[];
    book[key := votes[sv.vote.validator := sv]]
  }

  /** Only the last hundred heights are kept. */
  function Prune(book: VoteBook, height: u64): VoteBook {
    if height > 100 then map key | key in book && key.0 > height - 100 :: book[key] else book
  }

  function RecordVotes(book: VoteBook, sv: SignedVote): VoteBook {
    match Seen(book, KeyOf(sv.vote), sv.vote.validator)
    case None => Prune(Put(book, sv), sv.vote.height)
    case Some(first) =>
      if first.vote.blockHash != sv.vote.blockHash then Put(book, sv) else Prune(book, sv.vote.height)
  }

  function Detect(book: VoteBook, sv: SignedVote): Option<Evidence> {
    match Seen(book, KeyOf(sv.vote), sv.vote.validator)
    case None => None
    case Some(first) =>
      if first.vote.blockHash != sv.vote.blockHash
      then Some(DoubleSign(sv.vote.validator, sv.vote.height, sv.vote.round, first, sv))
      else None
  }

  // ---- Slashing ----

  function Percent(config: SlashingConfig, evidence: Evidence): u64 {
    if evidence.DoubleSign? then config.doubleSignPercent else config.invalidProposalPercent
  }

  function SlashAmount(stake: u64, percent: u64): u64 {
    SatMul(stake, percent) / 100
  }

  function SlashCheck(st: Slashes, evidence: Evidence, config: SlashingConfig): Option<SlashError> {
    if !config.enabled then Some(Disabled)
    else if StakeOf(st.stakes, evidence.validator) == 0 then Some(NoStake)
    else None
  }

  function Take(st: Slashes, r: SlashingRecord): Slashes {
    var id := r.evidence.validator;
    st.(stakes := st.stakes[id := SatSub(StakeOf(st.stakes, id), r.amount)],
        jailed := st.jailed[id := r.jailUntil],
        slashed := st.slashed + [r])
  }

  function RecordFor(st: Slashes, evidence: Evidence, config: SlashingConfig, height: u64): SlashingRecord {
    SlashingRecord(
      evidence,
      SlashAmount(StakeOf(st.stakes, evidence.validator), Percent(config, evidence)),
      SatAdd(height, config.jailDuration))
  }

  function Slash(st: Slashes, evidence: Evidence, config: SlashingConfig, height: u64): Slashes {
    if SlashCheck(st, evidence, config).Some? then st else Take(st, RecordFor(st, evidence, config, height))
  }

  /** What a node does with a vote at its own height before counting it. */
  function Observe(st: Slashes, config: SlashingConfig, height: u64, sv: SignedVote): Slashes {
    if IsJailed(st.jailed, sv.vote.validator, height) || !config.enabled then st
    else
      var st' := st.(votes := RecordVotes(st.votes, sv));
      match Detect(st.votes, sv)
      case None => st'
      case Some(evidence) => Slash(st', evidence, config, height)
  }

  function Release(st: Slashes, id: NodeId, height: u64): Slashes {
    if id in st.jailed && st.jailed[id] <= height then st.(jailed := st.jailed - {id}) else st
  }

  class SlashingState {
    var stakes: map<NodeId, u64>
    var original: map<NodeId, u64>
    var slashed: seq<SlashingRecord>
    var jailed: map<NodeId, u64>
    var votes: VoteBook

    function State(): Slashes
      reads this
    {
      Slashes(stakes, original, slashed, jailed, votes)
    }

    constructor (initialStakes: map<NodeId, u64>)
      ensures State() == Fresh(initialStakes)
    {
      stakes, original, slashed, jailed, votes := initialStakes, initialStakes, [], map[], map[];
    }

    method RecordVote(sv: SignedVote, config: SlashingConfig) returns (evidence: Option<Evidence>)
      modifies this
      ensures evidence == if config.enabled then Detect(old(votes), sv) else None
      ensures State() == if config.enabled
                         then old(State()).(votes := RecordVotes(old(votes), sv))
                         else old(State())
    {
      if !config.enabled {
        return None;
      }
      var v := sv.vote;
      var key := KeyOf(v);
      var book := if key in votes then votes[key] else map[];
      if v.validator in book {
        var existing := book[v.validator];
        if existing.vote.blockHash != v.blockHash {
          votes := votes[key := book[v.validator := sv]];
          return Some(DoubleSign(v.validator, v.height, v.round, existing, sv));
        }
      } else {
        votes := votes[key := book[v.validator := sv]];
      }
      if v.height > 100 {
        var oldHeight := v.height - 100;
        votes := map k | k in votes && k.0 > oldHeight :: votes[k];
      }
      return None;
    }

    method ApplySlash(evidence: Evidence, config: SlashingConfig, height: u64)
      returns (r: Result<SlashingRecord, SlashError>)
      modifies this
      ensures State() == Slash(old(State()), evidence, config, height)
      ensures r.Err? ==> SlashCheck(old(State()), evidence, config) == Some(r.error)
      ensures r.Ok? ==> SlashCheck(old(State()), evidence, config).None? && r.value == RecordFor(old(State()), evidence, config, height)
    {
      if !config.enabled {
        return Err(Disabled);
      }
      var id := evidence.validator;
      var percent := if evidence.DoubleSign? then config.doubleSignPercent else config.invalidProposalPercent;
      var stake := StakeOf(stakes, id);
      if stake == 0 {
        return Err(NoStake);
      }
      var amount := SatMul(stake, percent) / 100;
      stakes := stakes[id := SatSub(stake, amount)];
      var until := SatAdd(height, config.jailDuration);
      jailed := jailed[id := until];
      var record := SlashingRecord(evidence, amount, until);
      slashed := slashed + [record];
      return Ok(record);
    }

    method Unjail(id: NodeId, height: u64) returns (r: Option<SlashError>)
      modifies this
      ensures State() == Release(old(State()), id, height)
      ensures r == if id !in old(jailed) then Some(NotJailed)
                   else if IsJailed(old(jailed), id, height) then Some(StillJailed(old(jailed)[id]))
                   else None
    {
      if id !in jailed {
        return Some(NotJailed);
      }
      if jailed[id] > height {
        return Some(StillJailed(jailed[id]));
      }
      jailed := jailed - {id};
      return None;
    }

    /** The records that name a validator, in order. */
    method SlashingHistory(id: NodeId) returns (records: seq<SlashingRecord>)
      ensures records == RecordsOf(slashed, id)
    {
      records := [];
      for i := 0 to |slashed|
        invariant records == RecordsOf(slashed[..i], id)
      {
        assert slashed[..i + 1][..i] == slashed[..i];
        if slashed[i].evidence.validator == id {
          records := records + [slashed[i]];
        }
      }
      assert slashed[..|slashed|] == slashed;
    }
  }

  function RecordsOf(records: seq<SlashingRecord>, id: NodeId): seq<SlashingRecord> {
    if records == [] then []
    else
      var last := records[|records| - 1];
      RecordsOf(records[..|records| - 1], id) + if last.evidence.validator == id then [last] else []
  }

  // ---- Detection is exact ----

  function Feed(book: VoteBook, votes: seq<SignedVote>): VoteBook {
    if votes == [] then book else RecordVotes(Feed(book, votes[..|votes| - 1]), votes[|votes| - 1])
  }

  function Reports(book: VoteBook, votes: seq<SignedVote>): seq<Evidence> {
    if votes == [] then []
    else
      var init, last := votes[..|votes| - 1], votes[|votes| - 1];
      match Detect(Feed(book, init), last)
      case None => Reports(book, init)
      case Some(evidence) => Reports(book, init) + [evidence]
  }

  ghost predicate By(sv: SignedVote, key: VoteKey, id: NodeId) {
    KeyOf(sv.vote) == key && sv.vote.validator == id
  }

  ghost predicate Conflict(a: SignedVote, b: SignedVote, key: VoteKey, id: NodeId) {
    By(a, key, id) && By(b, key, id) && a.vote.blockHash != b.vote.blockHash
  }

  ghost predicate Accuses(e: Evidence, key: VoteKey, id: NodeId) {
    e.DoubleSign? && e.validator == id && e.height == key.0 && e.round == key.1 && Conflict(e.vote1, e.vote2, key, id)
  }

  /** What the book holds was recorded, under its own key. */
  ghost predicate Filed(book: VoteBook, recorded: set<SignedVote>) {
    forall key, id :: key in book && id in book[key] ==> book[key][id] in recorded && By(book[key][id], key, id)
  }

  lemma RecordFiles(book: VoteBook, sv: SignedVote, recorded: set<SignedVote>)
    requires Filed(book, recorded)
    ensures Filed(RecordVotes(book, sv), recorded + {sv})
  {
    assert Filed(Put(book, sv), recorded + {sv});
  }

  lemma {:induction false} FeedFiles(book: VoteBook, votes: seq<SignedVote>, recorded: set<SignedVote>)
    requires Filed(book, recorded)
    ensures Filed(Feed(book, votes), recorded + set i | 0 <= i < |votes| :: votes[i])
  {
    if votes != [] {
      var n := |votes| - 1;
      FeedFiles(book, votes[..n], recorded);
      var before := recorded + set i | 0 <= i < |votes[..n]| :: votes[..n][i];
      RecordFiles(Feed(book, votes[..n]), votes[n], before);
      assert before + {votes[n]} == recorded + set i | 0 <= i < |votes| :: votes[i] by {
        forall i | 0 <= i < n ensures votes[..n][i] == votes[i] {}
        assert forall i :: 0 <= i < |votes| ==> votes[i] in before + {votes[n]};
      }
    }
  }

  /** Evidence never names a validator without two recorded votes of his for one height, round
  and type and different blocks. */
  lemma {:induction false} EvidenceSound(votes: seq<SignedVote>, k: nat)
    requires k < |Reports(map[], votes)|
    ensures var e := Reports(map[], votes)[k];
            e.DoubleSign? && Accuses(e, KeyOf(e.vote2.vote), e.validator) && e.vote1 in votes && e.vote2 in votes
  {
    var n := |votes| - 1;
    var init, last := votes[..n], votes[n];
    if k < |Reports(map[], init)| {
      EvidenceSound(init, k);
    } else {
      FeedFiles(map[], init, {});
      var book := Feed(map[], init);
      var first := Seen(book, KeyOf(last.vote), last.vote.validator).value;
      assert By(first, KeyOf(last.vote), last.vote.validator) && first in init;
      assert last in votes;
    }
  }

  /** The last vote of `id` under `key`. */
  ghost function LastBy(votes: seq<SignedVote>, key: VoteKey, id: NodeId): Option<SignedVote> {
    if votes == [] then None
    else if By(votes[|votes| - 1], key, id) then Some(votes[|votes| - 1])
    else LastBy(votes[..|votes| - 1], key, id)
  }

  /** No vote is so far ahead that the key's height is forgotten. */
  ghost predicate Remembered(votes: seq<SignedVote>, key: VoteKey) {
    forall i :: 0 <= i < |votes| ==> votes[i].vote.height < key.0 + 100
  }

  lemma RecordSeen(book: VoteBook, sv: SignedVote, key: VoteKey, id: NodeId)
    requires sv.vote.height < key.0 + 100
    ensures var before, after := Seen(book, key, id), Seen(RecordVotes(book, sv), key, id);
            if By(sv, key, id)
            then after.Some? && after.value.vote.blockHash == sv.vote.blockHash && (after == before || after.value == sv)
            else after == before
  {
  }

  lemma {:induction false} FeedRemembers(votes: seq<SignedVote>, key: VoteKey, id: NodeId)
    requires Remembered(votes, key)
    ensures var last, seen := LastBy(votes, key, id), Seen(Feed(map[], votes), key, id);
            && (seen.Some? <==> last.Some?)
            && (seen.Some? ==> By(seen.value, key, id) && seen.value.vote.blockHash == last.value.vote.blockHash)
  {
    if votes != [] {
      var n := |votes| - 1;
      FeedRemembers(votes[..n], key, id);
      RecordSeen(Feed(map[], votes[..n]), votes[n], key, id);
    }
  }

  lemma {:induction false} LastByIn(votes: seq<SignedVote>, key: VoteKey, id: NodeId)
    ensures LastBy(votes, key, id).Some? ==>
            LastBy(votes, key, id).value in votes && By(LastBy(votes, key, id).value, key, id)
    ensures LastBy(votes, key, id).None? ==> forall sv :: sv in votes ==> !By(sv, key, id)
  {
    if votes != [] {
      LastByIn(votes[..|votes| - 1], key, id);
    }
  }

  ghost predicate Accused(reports: seq<Evidence>, key: VoteKey, id: NodeId) {
    exists k :: 0 <= k < |reports| && Accuses(reports[k], key, id)
  }

  ghost predicate DoubleSigned(votes: seq<SignedVote>, key: VoteKey, id: NodeId) {
    exists a, b :: a in votes && b in votes && Conflict(a, b, key, id)
  }

  /** One more vote creates a conflict exactly when there was one or it differs from the last. */
  lemma DoubleSignedLast(votes: seq<SignedVote>, sv: SignedVote, key: VoteKey, id: NodeId)
    requires !DoubleSigned(votes, key, id)
    ensures var last := LastBy(votes, key, id);
            DoubleSigned(votes + [sv], key, id) <==> last.Some? && Conflict(last.value, sv, key, id)
  {
    LastByIn(votes, key, id);
    var last := LastBy(votes, key, id);
    if last.Some? && Conflict(last.value, sv, key, id) {
      assert last.value in votes + [sv] && sv in votes + [sv];
    }
    if DoubleSigned(votes + [sv], key, id) {
      var a, b :| a in votes + [sv] && b in votes + [sv] && Conflict(a, b, key, id);
      var other := if a == sv then b else a;
      assert a in votes || a == sv;
      assert b in votes || b == sv;
      assert other in votes && Conflict(other, sv, key, id);
      assert !Conflict(other, last.value, key, id);
    }
  }

  lemma DoubleSignedMore(votes: seq<SignedVote>, sv: SignedVote, key: VoteKey, id: NodeId)
    requires DoubleSigned(votes, key, id)
    ensures DoubleSigned(votes + [sv], key, id)
  {
    var a, b :| a in votes && b in votes && Conflict(a, b, key, id);
    assert a in votes + [sv] && b in votes + [sv];
  }

  lemma {:induction false} DetectionRemembered(votes: seq<SignedVote>, key: VoteKey, id: NodeId)
    requires Remembered(votes, key)
    ensures Accused(Reports(map[], votes), key, id) <==> DoubleSigned(votes, key, id)
  {
    if votes != [] {
      var n := |votes| - 1;
      var init, sv := votes[..n], votes[n];
      assert votes == init + [sv];
      DetectionRemembered(init, key, id);
      FeedRemembers(init, key, id);
      DetectionStep(init, sv, key, id);
      if DoubleSigned(init, key, id) {
        DoubleSignedMore(init, sv, key, id);
      } else {
        LastByIn(init, key, id);
        DoubleSignedLast(init, sv, key, id);
      }
    }
  }

  /** No vote of this height, round and type comes after one a hundred heights ahead, which would
  make the book forget the earlier ones. */
  ghost predicate InTime(votes: seq<SignedVote>, key: VoteKey) {
    forall i, j :: 0 <= i < j < |votes| && KeyOf(votes[j].vote) == key ==> votes[i].vote.height < key.0 + 100
  }

  /** Whatever else is recorded and in whatever order, a validator is reported exactly when he
  voted for two different blocks. */
  lemma {:induction false} DetectionExact(votes: seq<SignedVote>, key: VoteKey, id: NodeId)
    requires InTime(votes, key)
    ensures Accused(Reports(map[], votes), key, id) <==> DoubleSigned(votes, key, id)
  {
    if votes != [] {
      var n := |votes| - 1;
      var init, sv := votes[..n], votes[n];
      if KeyOf(sv.vote) == key {
        DetectionRemembered(votes, key, id);
      } else {
        DetectionExact(init, key, id);
        OtherVote(init, sv, key, id);
        assert votes == init + [sv];
      }
    }
  }

  /** A vote of another height, round or type changes nothing. */
  lemma OtherVote(init: seq<SignedVote>, sv: SignedVote, key: VoteKey, id: NodeId)
    requires KeyOf(sv.vote) != key
    ensures DoubleSigned(init + [sv], key, id) <==> DoubleSigned(init, key, id)
    ensures Accused(Reports(map[], init + [sv]), key, id) <==> Accused(Reports(map[], init), key, id)
  {
    assert (init + [sv])[..|init|] == init;
    if DoubleSigned(init, key, id) {
      DoubleSignedMore(init, sv, key, id);
    }
    var found := Detect(Feed(map[], init), sv);
    if found.Some? {
      AccusedAppend(Reports(map[], init), found.value, key, id);
    }
  }

  ghost predicate ByHeight(votes: seq<SignedVote>) {
    forall i, j :: 0 <= i < j < |votes| ==> votes[i].vote.height <= votes[j].vote.height
  }

  /** A node counts votes at its own height, which only rises: nothing is forgotten too early. */
  lemma ByHeightInTime(votes: seq<SignedVote>, key: VoteKey)
    requires ByHeight(votes)
    ensures InTime(votes, key)
  {
  }

  /** Out of order the book does forget: a conflict around a vote far ahead goes unreported. */
  lemma ForgottenConflict(a: SignedVote, far: SignedVote, b: SignedVote, id: NodeId)
    requires Conflict(a, b, KeyOf(a.vote), id) && a.vote.height > 0 && far.vote.height >= a.vote.height + 100
    ensures var votes := [a] + [far] + [b];
            DoubleSigned(votes, KeyOf(a.vote), id) && !Accused(Reports(map[], votes), KeyOf(a.vote), id)
  {
    var votes := [a] + [far] + [b];
    assert votes[0] == a && votes[2] == b && a in votes && b in votes;
    var book := RecordVotes(map[], a);
    assert [] + [a] == [a];
    FeedSnoc([], a);
    FarAhead(book, a, far, id);
    FeedSnoc([a], far);
    assert Detect(RecordVotes(book, far), b).None?;
    FeedSnoc([a] + [far], b);
  }

  lemma FarAhead(book: VoteBook, a: SignedVote, far: SignedVote, id: NodeId)
    requires book == RecordVotes(map[], a) && a.vote.validator == id
    requires a.vote.height > 0 && far.vote.height >= a.vote.height + 100
    ensures Detect(book, far).None? && Seen(RecordVotes(book, far), KeyOf(a.vote), id).None?
  {
    assert Seen(book, KeyOf(far.vote), far.vote.validator).None?;
  }

  lemma FeedSnoc(init: seq<SignedVote>, sv: SignedVote)
    ensures Feed(map[], init + [sv]) == RecordVotes(Feed(map[], init), sv)
    ensures Detect(Feed(map[], init), sv).None? ==> Reports(map[], init + [sv]) == Reports(map[], init)
  {
    assert (init + [sv])[..|init|] == init;
  }

  lemma DetectionStep(init: seq<SignedVote>, sv: SignedVote, key: VoteKey, id: NodeId)
    requires var seen := Seen(Feed(map[], init), key, id); seen.Some? ==> By(seen.value, key, id)
    ensures Accused(Reports(map[], init + [sv]), key, id) <==>
            || Accused(Reports(map[], init), key, id)
            || (var seen := Seen(Feed(map[], init), key, id); seen.Some? && Conflict(seen.value, sv, key, id))
  {
    assert (init + [sv])[..|init|] == init;
    var found := Detect(Feed(map[], init), sv);
    if found.Some? {
      AccusedAppend(Reports(map[], init), found.value, key, id);
    }
  }

  lemma AccusedAppend(reports: seq<Evidence>, e: Evidence, key: VoteKey, id: NodeId)
    ensures Accused(reports + [e], key, id) <==> Accused(reports, key, id) || Accuses(e, key, id)
  {
    if Accused(reports, key, id) {
      var k :| 0 <= k < |reports| && Accuses(reports[k], key, id);
      assert (reports + [e])[k] == reports[k];
    }
    if Accuses(e, key, id) {
      assert (reports + [e])[|reports|] == e;
    }
  }
}
