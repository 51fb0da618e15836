/** What slashing does to a validator's stake over a whole run of votes and releases. */
module Stakes {
  import opened Base
  import opened Blocks
  import opened Slashing

  /** A vote is handled at its own height; a release happens at some height. */
  datatype Act = Handle(sv: SignedVote) | Unjailing(id: NodeId, at: u64)

  function HeightOf(a: Act): u64 {
    match a case Handle(sv) => sv.vote.height case Unjailing(_, at) => at
  }

  function Step(st: Slashes, config: SlashingConfig, a: Act): Slashes {
    match a
    case Handle(sv) => Observe(st, config, sv.vote.height, sv)
    case Unjailing(id, at) => Release(st, id, at)
  }

  function Run(st: Slashes, config: SlashingConfig, acts: seq<Act>): Slashes {
    if acts == [] then st else Step(Run(st, config, acts[..|acts| - 1]), config, acts[|acts| - 1])
  }

  ghost predicate Rising(acts: seq<Act>) {
    forall i, j :: 0 <= i < j < |acts| ==> HeightOf(acts[i]) <= HeightOf(acts[j])
  }

  function Sum(records: seq<SlashingRecord>): nat {
    if records == [] then 0 else Sum(records[..|records| - 1]) + records[|records| - 1].amount
  }

  function Pow(base: nat, k: nat): nat {
    if k == 0 then 1 else base * Pow(base, k - 1)
  }

  /** The three books of one validator: the loss is what was recorded, each slash took at most
  its share, and slashes are a jail term apart. */
  ghost predicate Balanced(st: Slashes, id: NodeId) {
    id in st.original && id in st.stakes && st.original[id] == st.stakes[id] + Sum(RecordsOf(st.slashed, id))
  }

  ghost predicate Proportional(st: Slashes, percent: nat, id: NodeId)
    requires percent <= 100
  {
    var k := |RecordsOf(st.slashed, id)|;
    StakeOf(st.original, id) * Pow(100 - percent, k) <= StakeOf(st.stakes, id) * Pow(100, k)
  }

  ghost predicate Served(st: Slashes, config: SlashingConfig, now: u64, id: NodeId, r: SlashingRecord) {
    var until := SatAdd(r.evidence.height, config.jailDuration);
    r.evidence.height <= now && (until <= now || (id in st.jailed && until <= st.jailed[id]))
  }

  ghost predicate Spaced(st: Slashes, config: SlashingConfig, id: NodeId) {
    var rs := RecordsOf(st.slashed, id);
    forall i, j :: 0 <= i < j < |rs| ==>
      SatAdd(rs[i].evidence.height, config.jailDuration) <= rs[j].evidence.height
  }

  ghost predicate Terms(st: Slashes, config: SlashingConfig, now: u64, id: NodeId) {
    && Spaced(st, config, id)
    && forall i :: 0 <= i < |RecordsOf(st.slashed, id)| ==> Served(st, config, now, id, RecordsOf(st.slashed, id)[i])
  }

  lemma RecordsAppend(records: seq<SlashingRecord>, r: SlashingRecord, id: NodeId)
    ensures RecordsOf(records + [r], id) ==
            if r.evidence.validator == id then RecordsOf(records, id) + [r] else RecordsOf(records, id)
  {
    assert (records + [r])[..|records|] == records;
    assert RecordsOf(records, id) + [] == RecordsOf(records, id);
  }

  lemma SumAppend(records: seq<SlashingRecord>, r: SlashingRecord)
    ensures Sum(records + [r]) == Sum(records) + r.amount
  {
    assert (records + [r])[..|records|] == records;
  }

  // ---- One slash ----

  lemma Quotient(m: nat, p: nat, s: nat)
    requires m <= p <= 100 * s
    ensures 100 * (m / 100) <= p && m / 100 <= s
  {
  }

  lemma AmountBound(stake: u64, percent: u64)
    requires percent <= 100
    ensures SlashAmount(stake, percent) <= stake
    ensures 100 * (stake - SlashAmount(stake, percent)) >= stake * (100 - percent)
  {
    MulNonNegative(stake, percent);
    MulMono(stake, percent, 100);
    Quotient(SatMul(stake, percent), stake * percent, stake);
    assert stake * (100 - percent) == stake * 100 - stake * percent;
  }

  lemma TakeBalanced(st: Slashes, r: SlashingRecord, id: NodeId)
    requires Balanced(st, id) && r.amount <= StakeOf(st.stakes, r.evidence.validator)
    ensures Balanced(Take(st, r), id)
  {
    RecordsAppend(st.slashed, r, id);
    SumAppend(RecordsOf(st.slashed, id), r);
  }

  lemma SlashBalanced(st: Slashes, e: Evidence, config: SlashingConfig, height: u64, id: NodeId)
    requires Balanced(st, id) && Percent(config, e) <= 100
    ensures Balanced(Slash(st, e, config, height), id)
  {
    if SlashCheck(st, e, config).None? {
      AmountBound(StakeOf(st.stakes, e.validator), Percent(config, e));
      TakeBalanced(st, RecordFor(st, e, config, height), id);
    }
  }

  lemma ShareBound(original: nat, stake: nat, stake': nat, percent: nat, a: nat, b: nat)
    requires percent <= 100 && original * a <= stake * b && stake * (100 - percent) <= 100 * stake'
    ensures original * ((100 - percent) * a) <= stake' * (100 * b)
  {
    var q := 100 - percent;
    calc {
      original * (q * a);
      q * (original * a);
    <= { MulMono(q, original * a, stake * b); }
      q * (stake * b);
      (stake * q) * b;
    <= { MulMono(b, stake * q, 100 * stake'); }
      (100 * stake') * b;
      stake' * (100 * b);
    }
  }

  lemma MulMono(c: nat, x: nat, y: nat)
    requires x <= y
    ensures c * x <= c * y
  {
  }

  lemma TakeProportional(st: Slashes, r: SlashingRecord, percent: nat, id: NodeId)
    requires percent <= 100 && Proportional(st, percent, id)
    requires var stake := StakeOf(st.stakes, r.evidence.validator);
             r.amount <= stake && stake * (100 - percent) <= 100 * (stake - r.amount)
    ensures Proportional(Take(st, r), percent, id)
  {
    RecordsAppend(st.slashed, r, id);
    if r.evidence.validator == id {
      var stake := StakeOf(st.stakes, id);
      var k := |RecordsOf(st.slashed, id)|;
      ShareBound(StakeOf(st.original, id), stake, stake - r.amount, percent, Pow(100 - percent, k), Pow(100, k));
    }
  }

  lemma SlashProportional(st: Slashes, e: Evidence, config: SlashingConfig, height: u64, id: NodeId)
    requires Percent(config, e) <= 100 && Proportional(st, Percent(config, e), id)
    ensures Proportional(Slash(st, e, config, height), Percent(config, e), id)
  {
    if SlashCheck(st, e, config).None? {
      AmountBound(StakeOf(st.stakes, e.validator), Percent(config, e));
      TakeProportional(st, RecordFor(st, e, config, height), Percent(config, e), id);
    }
  }

  lemma TakeTerms(st: Slashes, r: SlashingRecord, config: SlashingConfig, now: u64, id: NodeId)
    requires Terms(st, config, now, id) && !IsJailed(st.jailed, r.evidence.validator, now)
    requires r.evidence.height == now && r.jailUntil == SatAdd(now, config.jailDuration)
    ensures Terms(Take(st, r), config, now, id)
  {
    RecordsAppend(st.slashed, r, id);
    var rs := RecordsOf(st.slashed, id);
    forall i | 0 <= i < |rs|
      ensures Served(Take(st, r), config, now, id, rs[i])
      ensures r.evidence.validator == id ==> SatAdd(rs[i].evidence.height, config.jailDuration) <= now
    {
      assert Served(st, config, now, id, rs[i]);
    }
  }

  lemma SlashTerms(st: Slashes, e: Evidence, config: SlashingConfig, now: u64, id: NodeId)
    requires Terms(st, config, now, id) && !IsJailed(st.jailed, e.validator, now) && e.height == now
    ensures Terms(Slash(st, e, config, now), config, now, id)
  {
    if SlashCheck(st, e, config).None? {
      TakeTerms(st, RecordFor(st, e, config, now), config, now, id);
    }
  }

  // ---- Whole runs ----

  lemma LaterTerms(st: Slashes, config: SlashingConfig, now: u64, later: u64, id: NodeId)
    requires Terms(st, config, now, id) && now <= later
    ensures Terms(st, config, later, id)
  {
    var rs := RecordsOf(st.slashed, id);
    forall i | 0 <= i < |rs| ensures Served(st, config, later, id, rs[i]) {
      assert Served(st, config, now, id, rs[i]);
    }
  }

  ghost predicate Account(st: Slashes, config: SlashingConfig, now: u64, id: NodeId)
    requires config.doubleSignPercent <= 100
  {
    Balanced(st, id) && Proportional(st, config.doubleSignPercent, id) && Terms(st, config, now, id)
  }

  lemma ObserveKeeps(st: Slashes, config: SlashingConfig, sv: SignedVote, id: NodeId)
    requires config.doubleSignPercent <= 100 && Account(st, config, sv.vote.height, id)
    ensures Account(Observe(st, config, sv.vote.height, sv), config, sv.vote.height, id)
  {
    if !IsJailed(st.jailed, sv.vote.validator, sv.vote.height) && config.enabled {
      var st' := st.(votes := RecordVotes(st.votes, sv));
      assert Account(st', config, sv.vote.height, id);
      var found := Detect(st.votes, sv);
      if found.Some? {
        SlashBalanced(st', found.value, config, sv.vote.height, id);
        SlashProportional(st', found.value, config, sv.vote.height, id);
        SlashTerms(st', found.value, config, sv.vote.height, id);
      }
    }
  }

  lemma ReleaseKeeps(st: Slashes, config: SlashingConfig, freed: NodeId, now: u64, id: NodeId)
    requires config.doubleSignPercent <= 100 && Account(st, config, now, id)
    ensures Account(Release(st, freed, now), config, now, id)
  {
    var rs := RecordsOf(st.slashed, id);
    forall i | 0 <= i < |rs| ensures Served(Release(st, freed, now), config, now, id, rs[i]) {
      assert Served(st, config, now, id, rs[i]);
    }
  }

  /** Over any run with rising heights: stake lost equals stake recorded as slashed, k slashes
  leave at least (1 - p)^k of the stake, and slashes of one validator are a jail term apart. */
  lemma {:induction false} AccountsHold(stakes: map<NodeId, u64>, config: SlashingConfig, acts: seq<Act>, id: NodeId)
    requires id in stakes && config.doubleSignPercent <= 100 && Rising(acts)
    ensures Account(Run(Fresh(stakes), config, acts), config, if acts == [] then 0 else HeightOf(acts[|acts| - 1]), id)
  {
    if acts != [] {
      var n := |acts| - 1;
      var init := acts[..n];
      AccountsHold(stakes, config, init, id);
      var now := if n == 0 then 0 else HeightOf(init[n - 1]);
      var st := Run(Fresh(stakes), config, init);
      LaterTerms(st, config, now, HeightOf(acts[n]), id);
      match acts[n] {
        case Handle(sv) => ObserveKeeps(st, config, sv, id);
        case Unjailing(freed, at) => ReleaseKeeps(st, config, freed, at, id);
      }
    }
  }

  lemma {:induction false} PowPositive(base: nat, k: nat)
    requires base > 0
    ensures Pow(base, k) > 0
  {
    if k > 0 {
      PowPositive(base, k - 1);
      MulPositive(base, Pow(base, k - 1));
    }
  }

  lemma MulPositive(a: nat, b: nat)
    requires a > 0 && b > 0
    ensures a * b > 0
  {
  }

  lemma ShareKeepsPositive(original: nat, stake: nat, a: nat, b: nat)
    requires original > 0 && a > 0 && original * a <= stake * b
    ensures stake > 0
  {
    MulPositive(original, a);
  }

  lemma StakeLeft(st: Slashes, percent: nat, id: NodeId)
    requires percent < 100 && Proportional(st, percent, id) && StakeOf(st.original, id) > 0
    ensures StakeOf(st.stakes, id) > 0
  {
    var k := |RecordsOf(st.slashed, id)|;
    PowPositive(100 - percent, k);
    ShareKeepsPositive(StakeOf(st.original, id), StakeOf(st.stakes, id), Pow(100 - percent, k), Pow(100, k));
  }

  /** A percentage below 100 never takes the last of a stake, and the total reported as slashed
  is the sum of the records. */
  lemma StakeSurvives(stakes: map<NodeId, u64>, config: SlashingConfig, acts: seq<Act>, id: NodeId)
    requires id in stakes && stakes[id] > 0 && config.doubleSignPercent < 100 && Rising(acts)
    ensures var st := Run(Fresh(stakes), config, acts);
            && StakeOf(st.stakes, id) > 0
            && TotalSlashed(st, id) == Sum(RecordsOf(st.slashed, id))
  {
    AccountsHold(stakes, config, acts, id);
    OriginalKept(stakes, config, acts);
    var st := Run(Fresh(stakes), config, acts);
    StakeLeft(st, config.doubleSignPercent, id);
  }

  lemma {:induction false} OriginalKept(stakes: map<NodeId, u64>, config: SlashingConfig, acts: seq<Act>)
    ensures Run(Fresh(stakes), config, acts).original == stakes
  {
    if acts != [] {
      OriginalKept(stakes, config, acts[..|acts| - 1]);
    }
  }

  // ---- One slash, exactly ----

  /** Refused when slashing is off or nothing is left, and then nothing changes. */
  lemma SlashRefused(st: Slashes, e: Evidence, config: SlashingConfig, height: u64)
    ensures SlashCheck(st, e, config) ==
            if !config.enabled then Some(Disabled) else if StakeOf(st.stakes, e.validator) == 0 then Some(NoStake) else None
    ensures SlashCheck(st, e, config).Some? ==> Slash(st, e, config, height) == st
  {
  }

  /** Otherwise the record says the percentage of the kind of evidence, rounded down; the stake
  loses that much or all it has; the validator is in jail up to the end of the term and no longer;
  and no one else is touched. */
  lemma SlashExact(st: Slashes, e: Evidence, config: SlashingConfig, height: u64, percent: u64)
    requires config.enabled && StakeOf(st.stakes, e.validator) > 0
    requires percent == if e.DoubleSign? then config.doubleSignPercent else config.invalidProposalPercent
    ensures var st', stake := Slash(st, e, config, height), StakeOf(st.stakes, e.validator);
            var due := if stake * percent > U64_MAX then U64_MAX else stake * percent;
            && |st'.slashed| == |st.slashed| + 1 && st.slashed <= st'.slashed && st'.slashed[|st.slashed|].evidence == e
            && (var amount := st'.slashed[|st.slashed|].amount;
                && 100 * amount <= due < 100 * (amount + 1)
                && StakeOf(st'.stakes, e.validator) == if amount > stake then 0 else stake - amount)
    ensures var st' := Slash(st, e, config, height);
            && (forall h: u64 :: IsJailed(st'.jailed, e.validator, h) <==> h < height + config.jailDuration && h < U64_MAX)
            && (forall id :: id != e.validator ==> StakeOf(st'.stakes, id) == StakeOf(st.stakes, id))
            && (forall id, h: u64 :: id != e.validator ==> (IsJailed(st'.jailed, id, h) <==> IsJailed(st.jailed, id, h)))
            && st'.original == st.original && st'.votes == st.votes
  {
    MulNonNegative(StakeOf(st.stakes, e.validator), percent);
  }

  /** A release frees the validator if his term is over, and changes nothing else. */
  lemma ReleaseExact(st: Slashes, id: NodeId, height: u64, x: NodeId, h: u64)
    ensures var st' := Release(st, id, height);
            && (IsJailed(st'.jailed, x, h) <==> IsJailed(st.jailed, x, h) && (x == id ==> IsJailed(st.jailed, id, height)))
            && st' == st.(jailed := st'.jailed)
  {
  }

  /** The history of a validator holds every record that names him, as often as it was made. */
  lemma {:induction false} HistoryExact(records: seq<SlashingRecord>, id: NodeId, r: SlashingRecord)
    ensures multiset(RecordsOf(records, id))[r] == if r.evidence.validator == id then multiset(records)[r] else 0
  {
    if records != [] {
      var n := |records| - 1;
      HistoryExact(records[..n], id, r);
      assert records == records[..n] + [records[n]];
    }
  }

  /** A slash records what it takes, and keeps the books of the slashed validator in balance,
  exactly when the product of stake and percentage stays below a hundred times the stake and one.
  Up to 100 percent it always does. */
  lemma RecordedIsTaken(st: Slashes, e: Evidence, config: SlashingConfig, height: u64)
    requires SlashCheck(st, e, config).None? && Balanced(st, e.validator)
    ensures var stake, product := StakeOf(st.stakes, e.validator), SatMul(StakeOf(st.stakes, e.validator), Percent(config, e));
            Balanced(Slash(st, e, config, height), e.validator) <==> product < 100 * (stake + 1)
    ensures Percent(config, e) <= 100 ==> Balanced(Slash(st, e, config, height), e.validator)
  {
    var stake, r := StakeOf(st.stakes, e.validator), RecordFor(st, e, config, height);
    RecordsAppend(st.slashed, r, e.validator);
    SumAppend(RecordsOf(st.slashed, e.validator), r);
    Hundredth(SatMul(stake, Percent(config, e)), stake);
    if Percent(config, e) <= 100 {
      AmountBound(stake, Percent(config, e));
    }
  }

  lemma Hundredth(product: nat, stake: nat)
    ensures product / 100 <= stake <==> product < 100 * (stake + 1)
  {
  }

  /** The failing case: at 200 percent a stake of 10 is gone, 20 are on record, and the books of
  the validator do not balance. */
  lemma Overcharge(e: Evidence, config: SlashingConfig, height: u64)
    requires config.enabled && Percent(config, e) == 200
    ensures var st := Fresh(map[e.validator := 10]);
            var st' := Slash(st, e, config, height);
            && Balanced(st, e.validator) && StakeOf(st'.stakes, e.validator) == 0
            && |st'.slashed| == 1 && st'.slashed[0].amount == 20 && !Balanced(st', e.validator)
  {
    var st := Fresh(map[e.validator := 10]);
    var r := RecordFor(st, e, config, height);
    RecordsAppend([], r, e.validator);
    SumAppend([], r);
    assert [] + [r] == [r];
  }
}
