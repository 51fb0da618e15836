/** The overlay that watches authors: an author whose consecutive tips lie on different branches
is quarantined, and slashed where the policy says so. */
module Sybil {
  import opened Base
  import opened Events
  import opened Ledgers
  import opened Walks

  datatype EquivocationPolicy = Quarantine | Slash

  datatype SybilConfig = SybilConfig(
    warmupTicks: u64, quarantineTicks: u64, policy: EquivocationPolicy, scale: u64, maxLinkWalk: nat, slashPercent: u64)

  datatype AuthorState = AuthorState(
    firstSeen: u64, seenBy: set<nat>, lastTip: Option<Hash>, quarantinedUntil: u64, slashedWeight: u64)

  type Authors = map<PublicKey, AuthorState>

  /** One call of `observe_event`: the ledger then, the tick, the observer, author and hash. */
  datatype Observation = Observation(events: map<Hash, Event>, tick: u64, observer: nat, author: PublicKey, tip: Hash)

  function Min(a: u64, b: u64): u64 {
    if a < b then a else b
  }

  function Max(a: u64, b: u64): u64 {
    if a < b then b else a
  }

  /** The product wraps at 64 bits, as it does in a release build. */
  function SlashAmount(cfg: SybilConfig): u64 {
    (cfg.scale * cfg.slashPercent) % (U64_MAX + 1) / 100
  }

  function Penalised(st: AuthorState, tick: u64, cfg: SybilConfig): AuthorState {
    var st1 := st.(quarantinedUntil := Max(st.quarantinedUntil, SatAdd(tick, cfg.quarantineTicks)));
    if cfg.policy.Slash? then
      st1.(slashedWeight := Min(SatAdd(st.slashedWeight, SlashAmount(cfg)), cfg.scale))
    else st1
  }

  function Known(authors: Authors, author: PublicKey, tick: u64): AuthorState {
    if author in authors then authors[author] else AuthorState(tick, {}, None, 0, 0)
  }

  ghost predicate Linked(events: map<Hash, Event>, a: Hash, b: Hash, n: nat) {
    Within(events, a, b, n) || Within(events, b, a, n)
  }

  /** The tip is not linked, within the walk's bound, to the author's previous tip. */
  ghost predicate Forks(authors: Authors, o: Observation, cfg: SybilConfig) {
    && o.author in authors && authors[o.author].lastTip.Some?
    && !Linked(o.events, authors[o.author].lastTip.value, o.tip, cfg.maxLinkWalk)
  }

  ghost function Observe(authors: Authors, o: Observation, cfg: SybilConfig): Authors {
    var st := Known(authors, o.author, o.tick);
    var st1 := st.(seenBy := st.seenBy + {o.observer});
    var st2 := if Forks(authors, o, cfg) then Penalised(st1, o.tick, cfg) else st1;
    authors[o.author := st2.(lastTip := Some(o.tip))]
  }

  ghost function ObserveAll(authors: Authors, os: seq<Observation>, cfg: SybilConfig): Authors
    decreases |os|
  {
    if os == [] then authors else ObserveAll(Observe(authors, os[0], cfg), os[1..], cfg)
  }

  // ---- Weights ----

  /** `ln_1p(seen) / ln_1p(8)`: some real function of the number of observers. */
  const SeenTerm: nat -> real

  function Clamp(x: real): (r: real)
    ensures 0.0 <= r <= 1.0
  {
    if x < 0.0 then 0.0 else if x > 1.0 then 1.0 else x
  }

  function Ratio(a: u64, b: u64): real
    requires b > 0
  {
    a as real / b as real
  }

  function Warmup(st: AuthorState, tick: u64, cfg: SybilConfig): real {
    var ageTerm := Clamp(Ratio(SatSub(tick, st.firstSeen), Max(cfg.warmupTicks, 1)));
    var seenTerm := if st.seenBy == {} then 0.0 else Clamp(SeenTerm(|st.seenBy|));
    Clamp(0.65 * ageTerm + 0.35 * seenTerm)
  }

  /** The share of the weight that was slashed; with a zero scale the quotient is not a number
  in the source and the rounded weight is zero anyway. */
  function Penalty(st: AuthorState, cfg: SybilConfig): (r: real)
    ensures 0.0 <= r <= 1.0
  {
    if cfg.scale == 0 then 1.0 else Clamp(Ratio(st.slashedWeight, cfg.scale))
  }

  function Weight(authors: Authors, author: PublicKey, tick: u64, cfg: SybilConfig): real {
    if author !in authors || tick < authors[author].quarantinedUntil then 0.0
    else
      var st := authors[author];
      Clamp(Warmup(st, tick, cfg) * (1.0 - Penalty(st, cfg)))
  }

  /** Half away from zero, for what is never negative. */
  function Round(x: real): int {
    (x + 0.5).Floor
  }

  /** A weight in units of the scale, rounded and kept within it. */
  function Fixed(weight: real, scale: u64): (w: u64)
    ensures w <= scale
  {
    var w := Round(weight * scale as real);
    if w < 0 then 0 else if w > scale then scale else w
  }

  function WeightFp(authors: Authors, author: PublicKey, tick: u64, cfg: SybilConfig): (w: u64)
    ensures w <= cfg.scale
  {
    Fixed(Weight(authors, author, tick, cfg), cfg.scale)
  }

  class SybilOverlay {
    const cfg: SybilConfig
    var authors: Authors

    constructor (cfg: SybilConfig)
      ensures this.cfg == cfg && authors == map[]
    {
      this.cfg, authors := cfg, map[];
    }

    method ObserveEvent(ledger: LedgerStore, tick: u64, observer: nat, ev: Event, tip: Hash)
      modifies this
      ensures authors == Observe(old(authors), Observation(ledger.events, tick, observer, ev.author, tip), cfg)
    {
      var st := if ev.author in authors then authors[ev.author] else AuthorState(tick, {}, None, 0, 0);
      st := st.(seenBy := st.seenBy + {observer});
      if st.lastTip.Some? && st.lastTip.value != tip {
        var prev := st.lastTip.value;
        var linked := IsAncestorByWalk(ledger, prev, tip, cfg.maxLinkWalk);
        if !linked {
          linked := IsAncestorByWalk(ledger, tip, prev, cfg.maxLinkWalk);
        }
        if !linked {
          st := ApplyQuarantineAndSlash(st, tick);
        }
      } else if st.lastTip.Some? {
        assert Up(ledger.events, tip, 0) == Some(tip);
      }
      authors := authors[ev.author := st.(lastTip := Some(tip))];
    }

    method ApplyQuarantineAndSlash(st: AuthorState, tick: u64) returns (r: AuthorState)
      ensures r == Penalised(st, tick, cfg)
    {
      var until := SatAdd(tick, cfg.quarantineTicks);
      r := st.(quarantinedUntil := Max(st.quarantinedUntil, until));
      if cfg.policy == Slash {
        r := r.(slashedWeight := SatAdd(r.slashedWeight, SlashAmount(cfg)));
        r := r.(slashedWeight := Min(r.slashedWeight, cfg.scale));
      }
    }
  }

  // ---- When quarantine fires ----

  ghost predicate SameBranch(events: map<Hash, Event>, a: Hash, b: Hash) {
    IsAncestor(events, a, b) || IsAncestor(events, b, a)
  }

  /** With a bound of at least the ledger's size, an observation is taken for a fork exactly when
  the author's two consecutive tips lie on different branches. */
  lemma ForksExact(authors: Authors, o: Observation, cfg: SybilConfig)
    requires cfg.maxLinkWalk >= |o.events|
    ensures Forks(authors, o, cfg) <==>
            && o.author in authors && authors[o.author].lastTip.Some?
            && !SameBranch(o.events, authors[o.author].lastTip.value, o.tip)
  {
    if o.author in authors && authors[o.author].lastTip.Some? {
      var prev := authors[o.author].lastTip.value;
      LongEnough(o.events, prev, o.tip, cfg.maxLinkWalk);
      LongEnough(o.events, o.tip, prev, cfg.maxLinkWalk);
    }
  }

  /** With a smaller bound no fork is missed, but an author who moves along one branch is taken
  for a fork exactly when the two tips are further apart in height than the bound. */
  lemma FalseAlarmExact(authors: Authors, o: Observation, cfg: SybilConfig, l: Ledger)
    requires WellFormed(l) && ZERO_HASH !in l.events && o.events == l.events
    requires o.author in authors && authors[o.author].lastTip.Some?
    requires authors[o.author].lastTip.value in l.events && o.tip in l.events
    ensures var prev := authors[o.author].lastTip.value;
            var h, h' := Height(l.events, prev, |l.events|), Height(l.events, o.tip, |l.events|);
            Forks(authors, o, cfg) <==>
              (SameBranch(o.events, prev, o.tip) ==> h - h' > cfg.maxLinkWalk || h' - h > cfg.maxLinkWalk)
  {
    var prev, n := authors[o.author].lastTip.value, cfg.maxLinkWalk;
    WithinHeight(l, prev, o.tip, n);
    WithinHeight(l, o.tip, prev, n);
    assert Linked(o.events, prev, o.tip, n) ==> SameBranch(o.events, prev, o.tip);
  }

  lemma WithinHeight(l: Ledger, a: Hash, h: Hash, n: nat)
    requires WellFormed(l) && ZERO_HASH !in l.events && a in l.events && h in l.events
    ensures IsAncestor(l.events, a, h) ==> Height(l.events, a, |l.events|) <= Height(l.events, h, |l.events|)
    ensures Within(l.events, a, h, n) <==>
            IsAncestor(l.events, a, h) && Height(l.events, h, |l.events|) - Height(l.events, a, |l.events|) <= n
  {
    forall k: nat | Up(l.events, h, k) == Some(a)
      ensures Height(l.events, a, |l.events|) == Height(l.events, h, |l.events|) - k
    {
      UpIsAncestor(l.events, h, k, a);
      AncestorLower(l, h, k);
    }
  }

  // ---- Over every run of observations ----

  ghost predicate NoEarlier(before: Authors, after: Authors) {
    forall a :: a in before ==>
      && a in after && before[a].quarantinedUntil <= after[a].quarantinedUntil
      && before[a].firstSeen == after[a].firstSeen && before[a].seenBy <= after[a].seenBy
  }

  lemma {:induction false} RunNoEarlier(authors: Authors, os: seq<Observation>, cfg: SybilConfig)
    ensures NoEarlier(authors, ObserveAll(authors, os, cfg))
    decreases |os|
  {
    if os != [] {
      RunNoEarlier(Observe(authors, os[0], cfg), os[1..], cfg);
    }
  }

  /** Once an author forks, its weight is zero until the quarantine is over, whatever else is
  observed before or after. */
  lemma QuarantineHolds(authors: Authors, o: Observation, later: seq<Observation>, cfg: SybilConfig, tick: u64)
    requires Forks(authors, o, cfg) && tick < SatAdd(o.tick, cfg.quarantineTicks)
    ensures WeightFp(ObserveAll(Observe(authors, o, cfg), later, cfg), o.author, tick, cfg) == 0
  {
    RunNoEarlier(Observe(authors, o, cfg), later, cfg);
  }

  // ---- How long exactly ----

  ghost function Until(authors: Authors, a: PublicKey): u64 {
    if a in authors then authors[a].quarantinedUntil else 0
  }

  /** The ends of quarantine that the forks of an author call for: the tick of each, and the
  quarantine's length after it. */
  ghost function ForkEnds(authors: Authors, os: seq<Observation>, cfg: SybilConfig, a: PublicKey): set<int>
    decreases |os|
  {
    if os == [] then {}
    else
      (if os[0].author == a && Forks(authors, os[0], cfg) then {os[0].tick + cfg.quarantineTicks} else {})
      + ForkEnds(Observe(authors, os[0], cfg), os[1..], cfg, a)
  }

  ghost predicate Covers(until: u64, ends: set<int>) {
    forall e :: e in ends ==> e <= until || until == U64_MAX
  }

  /** Over every run the quarantine ends with the latest of these, or with the end it had before,
  and 2^64 - 1 stands for anything later. */
  lemma {:induction false} QuarantineExact(authors: Authors, os: seq<Observation>, cfg: SybilConfig, a: PublicKey)
    ensures var until, ends := Until(ObserveAll(authors, os, cfg), a), ForkEnds(authors, os, cfg, a);
            && Until(authors, a) <= until && Covers(until, ends)
            && (until == Until(authors, a) || exists e :: e in ends && until == Capped(e, U64_MAX))
    decreases |os|
  {
    if os != [] {
      var next := Observe(authors, os[0], cfg);
      QuarantineExact(next, os[1..], cfg, a);
      UntilStep(authors, os[0], cfg, a);
      var until, rest := Until(ObserveAll(next, os[1..], cfg), a), ForkEnds(next, os[1..], cfg, a);
      var end := os[0].tick + cfg.quarantineTicks;
      assert ObserveAll(authors, os, cfg) == ObserveAll(next, os[1..], cfg);
      if os[0].author == a && Forks(authors, os[0], cfg) {
        assert ForkEnds(authors, os, cfg, a) == {end} + rest;
        assert end <= until || until == U64_MAX;
      } else {
        assert ForkEnds(authors, os, cfg, a) == rest && Until(next, a) == Until(authors, a);
      }
    }
  }

  lemma UntilStep(authors: Authors, o: Observation, cfg: SybilConfig, a: PublicKey)
    ensures var until := Until(Observe(authors, o, cfg), a);
            if o.author == a && Forks(authors, o, cfg)
            then until >= Until(authors, a) && until >= Capped(o.tick + cfg.quarantineTicks, U64_MAX)
                 && (until == Until(authors, a) || until == Capped(o.tick + cfg.quarantineTicks, U64_MAX))
            else until == Until(authors, a)
  {
  }

  /** From the end on, the weight is that of an author who was never in quarantine. */
  lemma FreeAgain(authors: Authors, a: PublicKey, tick: u64, cfg: SybilConfig)
    requires a in authors && tick >= Until(authors, a)
    ensures WeightFp(authors, a, tick, cfg) == WeightFp(authors[a := authors[a].(quarantinedUntil := 0)], a, tick, cfg)
  {
    var st := authors[a];
    var free := st.(quarantinedUntil := 0);
    assert Warmup(free, tick, cfg) == Warmup(st, tick, cfg) && Penalty(free, cfg) == Penalty(st, cfg);
    assert Weight(authors[a := free], a, tick, cfg) == Weight(authors, a, tick, cfg);
  }

  // ---- What is known of an author ----

  ghost function Of(os: seq<Observation>, a: PublicKey): seq<Observation> {
    if os == [] then [] else Of(os[..|os| - 1], a) + if os[|os| - 1].author == a then [os[|os| - 1]] else []
  }

  ghost function Observers(os: seq<Observation>): set<nat> {
    set o | o in os :: o.observer
  }

  lemma ObserversSnoc(os: seq<Observation>, o: Observation)
    ensures Observers(os + [o]) == Observers(os) + {o.observer}
  {
    assert o in os + [o] && forall x :: x in os ==> x in os + [o];
  }

  lemma {:induction false} ObserveSnoc(authors: Authors, os: seq<Observation>, o: Observation, cfg: SybilConfig)
    ensures ObserveAll(authors, os + [o], cfg) == Observe(ObserveAll(authors, os, cfg), o, cfg)
    decreases |os|
  {
    if os == [] {
      assert os + [o] == [o] && [o][1..] == [];
    } else {
      assert (os + [o])[0] == os[0] && (os + [o])[1..] == os[1..] + [o];
      ObserveSnoc(Observe(authors, os[0], cfg), os[1..], o, cfg);
    }
  }

  /** From an empty overlay: an author is known exactly when observed, since the tick of the first
  observation, by exactly the observers so far, and with the tip of the last. */
  lemma {:induction false} KnownExactly(os: seq<Observation>, cfg: SybilConfig, a: PublicKey)
    ensures var authors, mine := ObserveAll(map[], os, cfg), Of(os, a);
            && (a in authors <==> mine != [])
            && (mine != [] ==>
                && authors[a].firstSeen == mine[0].tick && authors[a].lastTip == Some(mine[|mine| - 1].tip)
                && authors[a].seenBy == Observers(mine))
    decreases |os|
  {
    if os != [] {
      var n := |os| - 1;
      var before, o := os[..n], os[n];
      KnownExactly(before, cfg, a);
      ObserveSnoc(map[], before, o, cfg);
      assert os == before + [o];
      if o.author == a {
        ObserversSnoc(Of(before, a), o);
      } else {
        assert Of(os, a) == Of(before, a);
      }
    }
  }

  // ---- Full, partial and slashed weight ----

  lemma ClampFull(x: real)
    ensures x >= 1.0 ==> Clamp(x) == 1.0
    ensures x <= 0.0 ==> Clamp(x) == 0.0
  {
  }

  lemma RatioFull(a: u64, b: u64)
    requires b > 0
    ensures a >= b ==> Ratio(a, b) >= 1.0
    ensures a == 0 ==> Ratio(a, b) == 0.0
  {
    var x: real, y: real := a as real, b as real;
    assert y > 0.0;
    if a >= b { assert x / y >= 1.0; }
  }

  /** Old enough, and seen by enough. */
  ghost predicate Aged(st: AuthorState, tick: u64, cfg: SybilConfig) {
    tick >= st.firstSeen && tick - st.firstSeen >= cfg.warmupTicks && tick > st.firstSeen
  }

  ghost predicate WellSeen(st: AuthorState) {
    st.seenBy != {} && SeenTerm(|st.seenBy|) >= 1.0
  }

  /** An author fully warmed up weighs the scale, less what was slashed of it. */
  lemma WarmedUp(authors: Authors, a: PublicKey, tick: u64, cfg: SybilConfig)
    requires a in authors && tick >= authors[a].quarantinedUntil && authors[a].slashedWeight <= cfg.scale
    requires Aged(authors[a], tick, cfg) && WellSeen(authors[a])
    ensures WeightFp(authors, a, tick, cfg) == cfg.scale - authors[a].slashedWeight
  {
    var st := authors[a];
    RatioFull(SatSub(tick, st.firstSeen), Max(cfg.warmupTicks, 1));
    ClampFull(Ratio(SatSub(tick, st.firstSeen), Max(cfg.warmupTicks, 1)));
    ClampFull(SeenTerm(|st.seenBy|));
    assert Warmup(st, tick, cfg) == 1.0;
    if cfg.scale > 0 {
      ShareLeft(st.slashedWeight, cfg.scale);
    }
  }

  lemma PartOfOne(x: real, y: real)
    requires 0.0 <= x <= y && y > 0.0
    ensures 0.0 <= x / y <= 1.0
  {
    var q := x / y;
    assert q * y == x;
    if q > 1.0 {
      GrowsWith(q, y);
    }
  }

  lemma GrowsWith(q: real, y: real)
    requires q > 1.0 && y > 0.0
    ensures q * y > y
  {
    assert (q - 1.0) * y > 0.0;
  }

  /** Rounding a whole number changes nothing. */
  lemma ShareLeft(slashed: u64, scale: u64)
    requires 0 < scale && slashed <= scale
    ensures 0.0 <= Ratio(slashed, scale) <= 1.0
    ensures (1.0 - Ratio(slashed, scale)) * scale as real == (scale - slashed) as real
    ensures Round((scale - slashed) as real) == scale - slashed
  {
    var x: real, y: real := slashed as real, scale as real;
    assert (x / y) * y == x;
    assert (1.0 - x / y) * y == y - x;
    PartOfOne(x, y);
  }

  /** Age alone counts for 65 of a hundred, observers alone for 35. */
  lemma WarmupParts(authors: Authors, a: PublicKey, tick: u64, cfg: SybilConfig)
    requires a in authors && tick >= authors[a].quarantinedUntil && authors[a].slashedWeight == 0 && cfg.scale > 0
    requires authors[a].seenBy != {}
    ensures Aged(authors[a], tick, cfg) && SeenTerm(|authors[a].seenBy|) <= 0.0 ==>
            WeightFp(authors, a, tick, cfg) == (0.65 * cfg.scale as real + 0.5).Floor
    ensures tick == authors[a].firstSeen && WellSeen(authors[a]) ==>
            WeightFp(authors, a, tick, cfg) == (0.35 * cfg.scale as real + 0.5).Floor
  {
    var st := authors[a];
    var age := Ratio(SatSub(tick, st.firstSeen), Max(cfg.warmupTicks, 1));
    RatioFull(SatSub(tick, st.firstSeen), Max(cfg.warmupTicks, 1));
    ClampFull(age);
    ClampFull(SeenTerm(|st.seenBy|));
    ShareLeft(0, cfg.scale);
    assert Ratio(0, cfg.scale) == 0.0 by { RatioFull(0, cfg.scale); }
    PartOfScale(0.65, cfg.scale);
    PartOfScale(0.35, cfg.scale);
  }

  lemma PartOfScale(part: real, scale: u64)
    requires 0.0 <= part < 0.7
    ensures 0 <= (part * scale as real + 0.5).Floor <= scale
  {
    var y: real := scale as real;
    var z := part * y + 0.5;
    assert y >= 0.0 && part * y >= 0.0 && part * y <= 0.7 * y;
    assert 0.7 * y <= y && z < y + 1.0;
    assert z.Floor as real <= z < (scale + 1) as real;
  }

  /** How often an author was caught in a run. */
  ghost function Caught(authors: Authors, os: seq<Observation>, cfg: SybilConfig, a: PublicKey): nat
    decreases |os|
  {
    if os == [] then 0
    else
      (if os[0].author == a && Forks(authors, os[0], cfg) then 1 else 0)
      + Caught(Observe(authors, os[0], cfg), os[1..], cfg, a)
  }

  ghost function Slashed(authors: Authors, a: PublicKey): u64 {
    if a in authors then authors[a].slashedWeight else 0
  }

  ghost function Capped(x: int, cap: u64): int {
    if x > cap then cap else x
  }

  /** While the product fits 64 bits, an amount is the stated percentage of the scale, rounded down. */
  lemma AmountExact(cfg: SybilConfig, amount: u64)
    requires amount == SlashAmount(cfg) && cfg.scale * cfg.slashPercent <= U64_MAX
    ensures 100 * amount <= cfg.scale * cfg.slashPercent < 100 * (amount + 1)
  {
    MulNonNegative(cfg.scale, cfg.slashPercent);
  }

  lemma CappedStep(s: int, amount: u64, n: nat, cap: u64)
    ensures Capped(Capped(s + amount, cap) + n * amount, cap) == Capped(s + (n + 1) * amount, cap)
  {
    MulNonNegative(n, amount);
    assert (n + 1) * amount == n * amount + amount;
  }

  lemma SlashedStep(authors: Authors, o: Observation, cfg: SybilConfig, a: PublicKey, amount: u64)
    requires cfg.policy == Slash && Slashed(authors, a) <= cfg.scale && amount == SlashAmount(cfg)
    ensures Slashed(Observe(authors, o, cfg), a) ==
            if o.author == a && Forks(authors, o, cfg) then Capped(Slashed(authors, a) + amount, cfg.scale)
            else Slashed(authors, a)
  {
  }

  /** What has been slashed is one amount per fork, up to the whole weight. */
  lemma {:induction false} SlashedExact(
      authors: Authors, os: seq<Observation>, cfg: SybilConfig, a: PublicKey, amount: u64)
    requires cfg.policy == Slash && Slashed(authors, a) <= cfg.scale && amount == SlashAmount(cfg)
    ensures Slashed(ObserveAll(authors, os, cfg), a) ==
            Capped(Slashed(authors, a) + Caught(authors, os, cfg, a) * amount, cfg.scale)
    decreases |os|
  {
    if os != [] {
      var next := Observe(authors, os[0], cfg);
      SlashedStep(authors, os[0], cfg, a, amount);
      SlashedExact(next, os[1..], cfg, a, amount);
      CappedStep(Slashed(authors, a), amount, Caught(next, os[1..], cfg, a), cfg.scale);
    }
  }

  /** The quarantine policy never slashes. */
  lemma {:induction false} QuarantineNeverSlashes(authors: Authors, os: seq<Observation>, cfg: SybilConfig, a: PublicKey)
    requires cfg.policy == Quarantine
    ensures Slashed(ObserveAll(authors, os, cfg), a) == Slashed(authors, a)
    decreases |os|
  {
    if os != [] {
      QuarantineNeverSlashes(Observe(authors, os[0], cfg), os[1..], cfg, a);
    }
  }

  /** An author whose slashes add up to the scale has no weight at any tick of any later state. */
  lemma FullySlashed(authors: Authors, os: seq<Observation>, cfg: SybilConfig, a: PublicKey, amount: u64, tick: u64)
    requires cfg.policy == Slash && Slashed(authors, a) <= cfg.scale && amount == SlashAmount(cfg)
    requires Caught(authors, os, cfg, a) * amount >= cfg.scale
    ensures WeightFp(ObserveAll(authors, os, cfg), a, tick, cfg) == 0
  {
    SlashedExact(authors, os, cfg, a, amount);
    NothingLeft(ObserveAll(authors, os, cfg), a, tick, cfg);
  }

  lemma RatioWhole(b: u64)
    requires b > 0
    ensures Ratio(b, b) == 1.0
  {
    var x: real := b as real;
    assert x != 0.0 && x / x == 1.0;
  }

  lemma NothingLeft(authors: Authors, a: PublicKey, tick: u64, cfg: SybilConfig)
    requires Slashed(authors, a) == cfg.scale
    ensures WeightFp(authors, a, tick, cfg) == 0
  {
    if a in authors && cfg.scale > 0 {
      RatioWhole(cfg.scale);
    }
  }
}
