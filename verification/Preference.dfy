/** Chain scores and the preferred tip. */
module Preference {
  import opened Base
  import opened Events
  import opened Ledgers
  import opened Walks
  import Sybil

  // ---- Sums ----

  ghost function EventSum(events: map<Hash, Event>, hashes: seq<Hash>, weigh: Event -> u64): nat {
    if hashes == [] then 0
    else
      var h := hashes[|hashes| - 1];
      EventSum(events, hashes[..|hashes| - 1], weigh) + if h in events then weigh(events[h]) else 0
  }

  ghost function WeightSum(authors: set<PublicKey>, weigh: PublicKey -> u64): nat {
    if authors == {} then 0
    else
      var a :| a in authors;
      weigh(a) + WeightSum(authors - {a}, weigh)
  }

  lemma {:induction false} WeightSumRemove(authors: set<PublicKey>, weigh: PublicKey -> u64, x: PublicKey)
    requires x in authors
    ensures WeightSum(authors, weigh) == weigh(x) + WeightSum(authors - {x}, weigh)
  {
    var a :| a in authors && WeightSum(authors, weigh) == weigh(a) + WeightSum(authors - {a}, weigh);
    if a != x {
      WeightSumRemove(authors - {a}, weigh, x);
      WeightSumRemove(authors - {x}, weigh, a);
      assert authors - {a} - {x} == authors - {x} - {a};
    }
  }

  lemma WeightSumAdd(authors: set<PublicKey>, weigh: PublicKey -> u64, x: PublicKey)
    ensures WeightSum(authors + {x}, weigh) == WeightSum(authors, weigh) + if x in authors then 0 else weigh(x)
  {
    if x in authors {
      assert authors + {x} == authors;
    } else {
      WeightSumRemove(authors + {x}, weigh, x);
      assert authors + {x} - {x} == authors;
    }
  }

  lemma {:induction false} UnitSum(authors: set<PublicKey>)
    ensures WeightSum(authors, OneEach) == |authors|
  {
    if authors != {} {
      var a :| a in authors && WeightSum(authors, OneEach) == OneEach(a) + WeightSum(authors - {a}, OneEach);
      UnitSum(authors - {a});
    }
  }

  ghost function AuthorsOf(events: map<Hash, Event>, hashes: seq<Hash>): set<PublicKey> {
    set h | h in hashes && h in events :: events[h].author
  }

  lemma AuthorsSplit(events: map<Hash, Event>, hashes: seq<Hash>, i: nat)
    requires i < |hashes|
    ensures AuthorsOf(events, hashes[i..]) == AuthorsOf(events, hashes[i + 1..]) +
            if hashes[i] in events then {events[hashes[i]].author} else {}
  {
    assert hashes[i..] == [hashes[i]] + hashes[i + 1..];
  }

  // ---- Scores ----

  /** Every event counts. */
  method ScoreChain(ledger: LedgerStore, hashes: seq<Hash>, weigh: Event -> u64) returns (s: u64)
    ensures s == Saturated(EventSum(ledger.events, hashes, weigh))
  {
    s := 0;
    for i := 0 to |hashes|
      invariant s == Saturated(EventSum(ledger.events, hashes[..i], weigh))
    {
      assert hashes[..i + 1][..i] == hashes[..i];
      if hashes[i] in ledger.events {
        s := SatAdd(s, weigh(ledger.events[hashes[i]]));
      }
    }
    assert hashes[..|hashes|] == hashes;
  }

  /** One per author on the chain, whatever the number of its events. */
  method ScoreLatestPerAuthorUnit(ledger: LedgerStore, hashes: seq<Hash>) returns (s: u64)
    ensures s == Saturated(|AuthorsOf(ledger.events, hashes)|)
    ensures s == Saturated(WeightSum(AuthorsOf(ledger.events, hashes), OneEach))
  {
    var seen: set<PublicKey> := {};
    s := 0;
    for i := |hashes| downto 0
      invariant seen == AuthorsOf(ledger.events, hashes[i..]) && s == Saturated(|seen|)
    {
      AuthorsSplit(ledger.events, hashes, i);
      if hashes[i] in ledger.events && ledger.events[hashes[i]].author !in seen {
        seen := seen + {ledger.events[hashes[i]].author};
        s := SatAdd(s, 1);
      }
    }
    assert hashes[0..] == hashes;
    UnitSum(seen);
  }

  ghost function Weights(overlay: Sybil.Authors, tick: u64, cfg: Sybil.SybilConfig): PublicKey -> u64 {
    a => Sybil.WeightFp(overlay, a, tick, cfg)
  }

  /** The weight of each author on the chain, once. */
  method ScoreLatestPerAuthorSybil(ledger: LedgerStore, hashes: seq<Hash>, overlay: Sybil.SybilOverlay, tick: u64)
    returns (s: u64)
    ensures s == Saturated(WeightSum(AuthorsOf(ledger.events, hashes), Weights(overlay.authors, tick, overlay.cfg)))
  {
    var seen: set<PublicKey> := {};
    ghost var weigh := Weights(overlay.authors, tick, overlay.cfg);
    s := 0;
    for i := |hashes| downto 0
      invariant seen == AuthorsOf(ledger.events, hashes[i..]) && s == Saturated(WeightSum(seen, weigh))
    {
      AuthorsSplit(ledger.events, hashes, i);
      if hashes[i] in ledger.events && ledger.events[hashes[i]].author !in seen {
        var a := ledger.events[hashes[i]].author;
        WeightSumAdd(seen, weigh, a);
        seen := seen + {a};
        s := SatAdd(s, Sybil.WeightFp(overlay.authors, a, tick, overlay.cfg));
      }
    }
    assert hashes[0..] == hashes;
  }

  /** An event adds its author's weight, and nothing when the author is on the chain already. */
  lemma ExtendScore(events: map<Hash, Event>, hashes: seq<Hash>, weigh: PublicKey -> u64, h: Hash)
    requires h in events
    ensures WeightSum(AuthorsOf(events, hashes + [h]), weigh) == WeightSum(AuthorsOf(events, hashes), weigh) +
            if events[h].author in AuthorsOf(events, hashes) then 0 else weigh(events[h].author)
  {
    assert AuthorsOf(events, hashes + [h]) == AuthorsOf(events, hashes) + {events[h].author};
    WeightSumAdd(AuthorsOf(events, hashes), weigh, events[h].author);
  }

  /** An author that forked adds nothing to any chain while the quarantine lasts. */
  lemma ForkerAddsNothing(
      authors: Sybil.Authors, o: Sybil.Observation, later: seq<Sybil.Observation>, cfg: Sybil.SybilConfig, tick: u64,
      on: set<PublicKey>)
    requires Sybil.Forks(authors, o, cfg) && tick < SatAdd(o.tick, cfg.quarantineTicks)
    ensures var weigh := Weights(Sybil.ObserveAll(Sybil.Observe(authors, o, cfg), later, cfg), tick, cfg);
            WeightSum(on + {o.author}, weigh) == WeightSum(on - {o.author}, weigh)
  {
    var weigh := Weights(Sybil.ObserveAll(Sybil.Observe(authors, o, cfg), later, cfg), tick, cfg);
    Sybil.QuarantineHolds(authors, o, later, cfg, tick);
    WeightSumAdd(on - {o.author}, weigh, o.author);
    assert on - {o.author} + {o.author} == on + {o.author};
  }

  // ---- The preferred tip ----

  predicate Beats(s: u64, t: Hash, s': u64, t': Hash) {
    s > s' || (s == s' && Less(t, t'))
  }

  lemma BeatsTransitive(s: u64, t: Hash, s': u64, t': Hash, s'': u64, t'': Hash)
    requires Beats(s, t, s', t') && Beats(s', t', s'', t'')
    ensures Beats(s, t, s'', t'')
  {
    if s == s' == s'' {
      LessTransitive(t, t', t'');
    }
  }

  /** What is counted along a chain: every event, every author once, or nothing. */
  datatype Policy = EveryEvent(weight: Event -> u64) | EveryAuthor(share: PublicKey -> u64) | Nothing

  datatype Scoring = Scoring(events: map<Hash, Event>, policy: Policy, maxSteps: nat)

  ghost function Score(p: Scoring, tip: Hash): u64 {
    var c := ChainFrom(p.events, tip, p.maxSteps);
    match p.policy
    case EveryEvent(weigh) => Saturated(EventSum(p.events, c, weigh))
    case EveryAuthor(weigh) => Saturated(WeightSum(AuthorsOf(p.events, c), weigh))
    case Nothing => 0
  }

  /** Highest score, and the smallest hash among those. */
  ghost predicate Preferred(tips: set<Hash>, p: Scoring, t: Hash) {
    t in tips && forall u :: u in tips ==> u == t || Beats(Score(p, t), t, Score(p, u), u)
  }

  lemma PreferredUnique(tips: set<Hash>, p: Scoring, t: Hash, u: Hash)
    requires Preferred(tips, p, t) && Preferred(tips, p, u)
    ensures t == u
  {
    LessTotal(t, u);
  }

  ghost predicate Best(tips: set<Hash>, p: Scoring, r: Option<(Hash, u64)>) {
    if r.None? then tips == {} else Preferred(tips, p, r.value.0) && r.value.1 == Score(p, r.value.0)
  }

  function Contest(r: Option<(Hash, u64)>, t: Hash, s: u64): Option<(Hash, u64)> {
    if r.None? || Beats(s, t, r.value.1, r.value.0) then Some((t, s)) else r
  }

  /** One more tip is compared with the best so far. */
  lemma Contend(tips: set<Hash>, rest: set<Hash>, p: Scoring, r: Option<(Hash, u64)>, t: Hash)
    requires Best(tips - rest, p, r) && t in rest && rest <= tips
    ensures Best(tips - (rest - {t}), p, Contest(r, t, Score(p, t)))
  {
    var s := Score(p, t);
    assert tips - (rest - {t}) == (tips - rest) + {t};
    if r.Some? {
      var best := r.value.0;
      LessTotal(t, best);
      if Beats(s, t, r.value.1, best) {
        forall u | u in tips - rest ensures Beats(s, t, Score(p, u), u) {
          if u != best { BeatsTransitive(s, t, r.value.1, best, Score(p, u), u); }
        }
      }
    }
  }

  datatype PolicyKind = Unit | LatestPerAuthorUnit | LatestPerAuthorSybil

  function One(e: Event): u64 {
    1
  }

  function OneEach(a: PublicKey): u64 {
    1
  }

  /** The stateless entry has no overlay to ask, so the last kind scores nothing. */
  function PolicyOf(kind: PolicyKind): Policy {
    match kind
    case Unit => EveryEvent(One)
    case LatestPerAuthorUnit => EveryAuthor(OneEach)
    case LatestPerAuthorSybil => Nothing
  }

  /** The number of events on a tip's chain, and of their authors. */
  ghost function Length(events: map<Hash, Event>, tip: Hash, maxSteps: nat): u64 {
    Saturated(|ChainFrom(events, tip, maxSteps)|)
  }

  ghost function Voices(events: map<Hash, Event>, tip: Hash, maxSteps: nat): u64 {
    Saturated(|AuthorsOf(events, ChainFrom(events, tip, maxSteps))|)
  }

  /** What each stateless policy answers: the tip with the longest chain and its length, the tip
  with the most authors and their number, or the tip with the smallest hash and zero; among
  equals always the smallest hash. */
  ghost predicate Answers(events: map<Hash, Event>, tips: set<Hash>, kind: PolicyKind, maxSteps: nat, t: Hash, s: u64) {
    match kind
    case Unit =>
      && s == Length(events, t, maxSteps)
      && forall u :: u in tips ==> u == t || Beats(s, t, Length(events, u, maxSteps), u)
    case LatestPerAuthorUnit =>
      && s == Voices(events, t, maxSteps)
      && forall u :: u in tips ==> u == t || Beats(s, t, Voices(events, u, maxSteps), u)
    case LatestPerAuthorSybil => s == 0 && forall u :: u in tips ==> u == t || Less(t, u)
  }

  lemma ScoreOfKind(p: Scoring, t: Hash)
    ensures p.policy == EveryEvent(One) ==> Score(p, t) == Length(p.events, t, p.maxSteps)
    ensures p.policy == EveryAuthor(OneEach) ==> Score(p, t) == Voices(p.events, t, p.maxSteps)
    ensures p.policy == Nothing ==> Score(p, t) == 0
  {
    UnitScore(p.events, t, p.maxSteps);
    UnitSum(AuthorsOf(p.events, ChainFrom(p.events, t, p.maxSteps)));
  }

  lemma KindAnswers(events: map<Hash, Event>, tips: set<Hash>, kind: PolicyKind, maxSteps: nat, r: Option<(Hash, u64)>)
    requires Best(tips, Scoring(events, PolicyOf(kind), maxSteps), r) && r.Some?
    ensures r.value.0 in tips && Answers(events, tips, kind, maxSteps, r.value.0, r.value.1)
  {
    var p, t, s := Scoring(events, PolicyOf(kind), maxSteps), r.value.0, r.value.1;
    ScoreOfKind(p, t);
    match kind {
      case Unit =>
        forall u | u in tips ensures u == t || Beats(s, t, Length(events, u, maxSteps), u) { ScoreOfKind(p, u); }
      case LatestPerAuthorUnit =>
        forall u | u in tips ensures u == t || Beats(s, t, Voices(events, u, maxSteps), u) { ScoreOfKind(p, u); }
      case LatestPerAuthorSybil =>
        forall u | u in tips ensures u == t || Less(t, u) { ScoreOfKind(p, u); }
    }
  }

  /** The tips are a hash set: any order of iteration gives the same result. */
  method SelectPreferredTip(ledger: LedgerStore, weigh: Event -> u64, maxSteps: nat)
    returns (r: Option<(Hash, u64)>, chain: seq<Hash>)
    ensures Best(ledger.tips, Scoring(ledger.events, EveryEvent(weigh), maxSteps), r)
    ensures r.Some? ==> chain == ChainFrom(ledger.events, r.value.0, maxSteps)
  {
    var tips, rest := ledger.tips, ledger.tips;
    ghost var p := Scoring(ledger.events, EveryEvent(weigh), maxSteps);
    r, chain := None, [];
    while rest != {}
      invariant rest <= tips && Best(tips - rest, p, r)
      invariant r.Some? ==> chain == ChainFrom(ledger.events, r.value.0, maxSteps)
      decreases |rest|
    {
      var tip :| tip in rest;
      var c := BuildChainFromTip(ledger, tip, maxSteps);
      var s := ScoreChain(ledger, c, weigh);
      Contend(tips, rest, p, r, tip);
      if r.None? || Beats(s, tip, r.value.1, r.value.0) {
        r, chain := Some((tip, s)), c;
      }
      rest := rest - {tip};
    }
    assert tips - {} == tips;
  }

  method SelectPreferredTipScore(ledger: LedgerStore, kind: PolicyKind, maxSteps: nat)
    returns (r: Option<(Hash, u64)>)
    ensures r.None? <==> ledger.tips == {}
    ensures r.Some? ==> r.value.0 in ledger.tips && Answers(ledger.events, ledger.tips, kind, maxSteps, r.value.0, r.value.1)
    ensures r.Some? && kind == Unit && Sufficient(ledger.State(), maxSteps) ==> Highest(ledger.State(), r.value.0)
  {
    var tips, rest := ledger.tips, ledger.tips;
    ghost var p := Scoring(ledger.events, PolicyOf(kind), maxSteps);
    r := None;
    while rest != {}
      invariant rest <= tips && Best(tips - rest, p, r)
      decreases |rest|
    {
      var tip :| tip in rest;
      var c := BuildChainFromTip(ledger, tip, maxSteps);
      var s: u64 := 0;
      match kind {
        case Unit => s := ScoreChain(ledger, c, One);
        case LatestPerAuthorUnit => s := ScoreLatestPerAuthorUnit(ledger, c);
        case LatestPerAuthorSybil =>
      }
      Contend(tips, rest, p, r, tip);
      if r.None? || Beats(s, tip, r.value.1, r.value.0) {
        r := Some((tip, s));
      }
      rest := rest - {tip};
    }
    assert tips - {} == tips;
    if r.Some? {
      KindAnswers(ledger.events, tips, kind, maxSteps, r);
      if kind == Unit && Sufficient(ledger.State(), maxSteps) {
        PreferredIsHighest(ledger.State(), maxSteps, r.value.0);
      }
    }
  }

  method SelectPreferredTipSybil(ledger: LedgerStore, overlay: Sybil.SybilOverlay, tick: u64, maxSteps: nat)
    returns (r: Option<(Hash, u64)>)
    ensures var weigh := Weights(overlay.authors, tick, overlay.cfg);
            Best(ledger.tips, Scoring(ledger.events, EveryAuthor(weigh), maxSteps), r)
  {
    var tips, rest := ledger.tips, ledger.tips;
    ghost var p := Scoring(ledger.events, EveryAuthor(Weights(overlay.authors, tick, overlay.cfg)), maxSteps);
    r := None;
    while rest != {}
      invariant rest <= tips && Best(tips - rest, p, r)
      decreases |rest|
    {
      var tip :| tip in rest;
      var c := BuildChainFromTip(ledger, tip, maxSteps);
      var s := ScoreLatestPerAuthorSybil(ledger, c, overlay, tick);
      Contend(tips, rest, p, r, tip);
      if r.None? || Beats(s, tip, r.value.1, r.value.0) {
        r := Some((tip, s));
      }
      rest := rest - {tip};
    }
    assert tips - {} == tips;
  }

  // ---- The unit policy prefers the highest chain ----

  lemma EventSumSnoc(events: map<Hash, Event>, c: seq<Hash>, h: Hash)
    requires h in events
    ensures EventSum(events, c + [h], One) == EventSum(events, c, One) + 1
  {
    assert (c + [h])[..|c|] == c;
  }

  lemma {:induction false} UnitScore(events: map<Hash, Event>, h: Hash, n: nat)
    ensures EventSum(events, ChainFrom(events, h, n), One) == |ChainFrom(events, h, n)|
    decreases n
  {
    if n > 0 && h in events {
      UnitScore(events, events[h].prevHash, n - 1);
      EventSumSnoc(events, ChainFrom(events, events[h].prevHash, n - 1), h);
    }
  }

  lemma UnitScoreIsHeight(l: Ledger, n: nat, h: Hash)
    requires WellFormed(l) && ZERO_HASH !in l.events && |l.events| <= n && |l.events| <= U64_MAX && h in l.events
    ensures Score(Scoring(l.events, EveryEvent(One), n), h) == Height(l.events, h, |l.events|)
  {
    ReachesMore(l.events, h, |l.events|, l.events, n);
    ChainComplete(l.events, h, n);
    HeightIndependent(l.events, h, |l.events|, n);
    UnitScore(l.events, h, n);
  }

  /** Above every event stands a tip. */
  lemma {:induction false} TipAbove(l: Ledger, h: Hash) returns (t: Hash)
    requires WellFormed(l) && h in l.events
    ensures t in l.tips && t in l.events && Height(l.events, h, |l.events|) <= Height(l.events, t, |l.events|)
    decreases |l.events| - Height(l.events, h, |l.events|)
  {
    if h in l.tips {
      t := h;
    } else {
      var g :| g in l.events && IsChild(l.events[g], h);
      HeightIndependent(l.events, h, |l.events| - 1, |l.events|);
      HeightIndependent(l.events, g, |l.events|, |l.events|);
      t := TipAbove(l, g);
    }
  }

  /** A well-formed ledger without the zero hash, walked far enough. */
  ghost predicate Sufficient(l: Ledger, n: nat) {
    WellFormed(l) && ZERO_HASH !in l.events && |l.events| <= n && |l.events| <= U64_MAX
  }

  ghost predicate Highest(l: Ledger, t: Hash)
    requires WellFormed(l)
  {
    t in l.events && forall h :: h in l.events ==> Height(l.events, h, |l.events|) <= Height(l.events, t, |l.events|)
  }

  lemma PreferredIsHighest(l: Ledger, n: nat, t: Hash)
    requires Sufficient(l, n) && Preferred(l.tips, Scoring(l.events, PolicyOf(Unit), n), t)
    ensures Highest(l, t)
  {
    forall h | h in l.events ensures Height(l.events, h, |l.events|) <= Height(l.events, t, |l.events|) {
      UnitPrefersHighest(l, n, t, h);
    }
  }

  /** With a bound of at least the ledger's size, the unit policy prefers a tip that no event of
  the ledger stands higher than, and the one with the smallest hash among those. */
  lemma UnitPrefersHighest(l: Ledger, n: nat, t: Hash, h: Hash)
    requires WellFormed(l) && ZERO_HASH !in l.events && |l.events| <= n && |l.events| <= U64_MAX && h in l.events
    requires Preferred(l.tips, Scoring(l.events, EveryEvent(One), n), t)
    ensures Height(l.events, h, |l.events|) <= Height(l.events, t, |l.events|)
    ensures h in l.tips && Height(l.events, h, |l.events|) == Height(l.events, t, |l.events|) ==> t == h || Less(t, h)
  {
    var u := TipAbove(l, h);
    UnitScoreIsHeight(l, n, t);
    UnitScoreIsHeight(l, n, u);
    UnitScoreIsHeight(l, n, h);
  }
}
