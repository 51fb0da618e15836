/** The linkage-aware ledger: an append-only forest of events with one parent each,
an incrementally kept set of tips, and a Merkle commitment to the accepted set. */
module Ledgers {
  import opened Base
  import opened Events
  import opened Merkle

  datatype LinkError = Duplicate | MissingParent

  datatype Ledger = Ledger(events: map<Hash, Event>, tips: set<Hash>)

  const EMPTY: Ledger := Ledger(map[], {})

  function Link(l: Ledger, e: Event): Ledger {
    var tips := if e.prevHash != ZERO_HASH then l.tips - {e.prevHash} else l.tips;
    Ledger(l.events[HashEvent(e) := e], tips + {HashEvent(e)})
  }

  function LinkCheck(known: set<Hash>, e: Event): Option<LinkError> {
    if HashEvent(e) in known then Some(Duplicate)
    else if e.prevHash != ZERO_HASH && e.prevHash !in known then Some(MissingParent)
    else None
  }

  function TryAdd(l: Ledger, e: Event): Ledger {
    if LinkCheck(l.events.Keys, e).None? then Link(l, e) else l
  }

  class LedgerStore {
    var events: map<Hash, Event>
    var tips: set<Hash>

    function State(): Ledger
      reads this
    {
      Ledger(events, tips)
    }

    constructor ()
      ensures State() == EMPTY
    {
      events, tips := map[], {};
    }

    method TryAddEvent(event: Event) returns (r: Result<Hash, LinkError>)
      modifies this
      ensures State() == TryAdd(old(State()), event)
      ensures r == match LinkCheck(old(events.Keys), event)
                   case None => Ok(HashEvent(event))
                   case Some(err) => Err(err)
    {
      var hash := HashEvent(event);
      if hash in events {
        return Err(Duplicate);
      }
      if event.prevHash != ZERO_HASH && event.prevHash !in events {
        return Err(MissingParent);
      }
      events := events[hash := event];
      if event.prevHash != ZERO_HASH {
        tips := tips - {event.prevHash};
      }
      tips := tips + {hash};
      return Ok(hash);
    }

    /** The commitment depends on the set of hashes alone, not on how the map is iterated. */
    method MerkleRoot() returns (root: Option<Hash>)
      ensures root == SetRoot(events.Keys)
    {
      if events == map[] {
        return None;
      }
      var level := AscendingHashes(events.Keys);
      AscendingUnique(level, Sorted(events.Keys));
      assert level != [] by {
        var h :| h in events.Keys;
        assert h in level;
      }
      var r := MerkleRootHashes(level);
      return Some(r);
    }
  }

  // ---- Well-formedness over every run ----

  ghost predicate IsChild(e: Event, h: Hash) {
    e.prevHash != ZERO_HASH && e.prevHash == h
  }

  ghost function Childless(events: map<Hash, Event>): set<Hash> {
    set h | h in events && forall g :: g in events ==> !IsChild(events[g], h)
  }

  /** Following parents from `h` ends at a genesis event within `n` events. */
  ghost predicate Reaches(events: map<Hash, Event>, h: Hash, n: nat)
    decreases n
  {
    n > 0 && h in events && (events[h].prevHash == ZERO_HASH || Reaches(events, events[h].prevHash, n - 1))
  }

  ghost predicate Keyed(events: map<Hash, Event>) {
    forall h :: h in events ==> HashEvent(events[h]) == h
  }

  ghost predicate ParentsPresent(events: map<Hash, Event>) {
    forall h :: h in events ==> events[h].prevHash == ZERO_HASH || events[h].prevHash in events
  }

  ghost predicate WellFormed(l: Ledger) {
    && Keyed(l.events)
    && ParentsPresent(l.events)
    && (forall h :: h in l.events ==> Reaches(l.events, h, |l.events|))
    && l.tips == Childless(l.events)
  }

  lemma {:induction false} ReachesMore(events: map<Hash, Event>, h: Hash, n: nat, more: map<Hash, Event>, m: nat)
    requires Reaches(events, h, n) && n <= m
    requires forall g :: g in events ==> g in more && more[g] == events[g]
    ensures Reaches(more, h, m)
    decreases n
  {
    if events[h].prevHash != ZERO_HASH {
      ReachesMore(events, events[h].prevHash, n - 1, more, m - 1);
    }
  }

  lemma LinkTips(l: Ledger, e: Event)
    requires WellFormed(l) && LinkCheck(l.events.Keys, e).None?
    ensures Link(l, e).tips == Childless(Link(l, e).events)
  {
    var h, events := HashEvent(e), Link(l, e).events;
    forall x | x in events
      ensures x in Link(l, e).tips <==> x in Childless(events)
    {
      assert events[h] == e;
      if x != h && x in l.tips && x in Link(l, e).tips {
        forall g | g in events ensures !IsChild(events[g], x) {
          assert g == h || events[g] == l.events[g];
        }
      }
      if x != h && x in l.events && x !in l.tips {
        var g :| g in l.events && IsChild(l.events[g], x);
        assert events[g] == l.events[g];
      }
    }
  }

  lemma LinkReaches(l: Ledger, e: Event, g: Hash)
    requires WellFormed(l) && LinkCheck(l.events.Keys, e).None? && g in Link(l, e).events
    ensures Reaches(Link(l, e).events, g, |l.events| + 1)
  {
    var h, events := HashEvent(e), Link(l, e).events;
    if g != h {
      ReachesMore(l.events, g, |l.events|, events, |l.events| + 1);
    } else if e.prevHash != ZERO_HASH {
      ReachesMore(l.events, e.prevHash, |l.events|, events, |l.events|);
    }
  }

  lemma LinkKeeps(l: Ledger, e: Event)
    requires WellFormed(l) && LinkCheck(l.events.Keys, e).None?
    ensures WellFormed(Link(l, e))
  {
    assert |Link(l, e).events| == |l.events| + 1;
    forall g | g in Link(l, e).events
      ensures Reaches(Link(l, e).events, g, |Link(l, e).events|)
    {
      LinkReaches(l, e, g);
    }
    LinkTips(l, e);
  }

  function AddAll(l: Ledger, es: seq<Event>): Ledger
    decreases |es|
  {
    if es == [] then l else AddAll(TryAdd(l, es[0]), es[1..])
  }

  /** Whatever is offered, in whatever order, the ledger stays a well-formed forest. */
  lemma {:induction false} RunsWellFormed(l: Ledger, es: seq<Event>)
    requires WellFormed(l)
    ensures WellFormed(AddAll(l, es))
    decreases |es|
  {
    if es != [] {
      if LinkCheck(l.events.Keys, es[0]).None? {
        LinkKeeps(l, es[0]);
      }
      RunsWellFormed(TryAdd(l, es[0]), es[1..]);
    }
  }

  lemma EmptyWellFormed()
    ensures WellFormed(EMPTY)
  {
  }

  /** How many events stand on the way from `h` down to its genesis event. */
  ghost function Height(events: map<Hash, Event>, h: Hash, n: nat): nat
    requires Reaches(events, h, n)
    decreases n
  {
    if events[h].prevHash == ZERO_HASH then 1 else 1 + Height(events, events[h].prevHash, n - 1)
  }

  lemma {:induction false} HeightIndependent(events: map<Hash, Event>, h: Hash, n: nat, m: nat)
    requires Reaches(events, h, n) && Reaches(events, h, m)
    ensures Height(events, h, n) == Height(events, h, m) <= n
    decreases n
  {
    if events[h].prevHash != ZERO_HASH {
      HeightIndependent(events, events[h].prevHash, n - 1, m - 1);
    }
  }

  /** `k` parent edges below `h`. */
  ghost function Ancestor(events: map<Hash, Event>, h: Hash, k: nat): Option<Hash>
    decreases k
  {
    if k == 0 then Some(h)
    else if h !in events || events[h].prevHash == ZERO_HASH then None
    else Ancestor(events, events[h].prevHash, k - 1)
  }

  lemma {:induction false} AncestorLower(l: Ledger, h: Hash, k: nat)
    requires WellFormed(l) && h in l.events && Ancestor(l.events, h, k).Some?
    ensures var a := Ancestor(l.events, h, k).value;
            a in l.events && Height(l.events, a, |l.events|) == Height(l.events, h, |l.events|) - k
    decreases k
  {
    if k > 0 {
      var p := l.events[h].prevHash;
      AncestorLower(l, p, k - 1);
      HeightIndependent(l.events, p, |l.events|, |l.events| - 1);
    }
  }

  /** No event is its own proper ancestor. */
  lemma Acyclic(l: Ledger, h: Hash, k: nat)
    requires WellFormed(l) && h in l.events && k > 0
    ensures Ancestor(l.events, h, k) != Some(h)
  {
    if Ancestor(l.events, h, k).Some? {
      AncestorLower(l, h, k);
    }
  }

  /** The state is a function of the accepted events: order leaves no trace. */
  lemma SameAccepted(a: Ledger, b: Ledger)
    requires WellFormed(a) && WellFormed(b)
    requires a.events.Values == b.events.Values
    ensures a == b
  {
    forall h | h in a.events ensures h in b.events && b.events[h] == a.events[h] {
      assert a.events[h] in b.events.Values;
    }
    forall h | h in b.events ensures h in a.events {
      assert b.events[h] in a.events.Values;
    }
    assert a.events == b.events;
  }

  // ---- Sorted leaves ----

  ghost predicate Ascending(s: seq<Hash>) {
    forall i, j :: 0 <= i < j < |s| ==> Less(s[i], s[j])
  }

  ghost predicate IsLeast(m: Hash, hs: set<Hash>) {
    m in hs && forall x :: x in hs ==> x == m || Less(m, x)
  }

  lemma LeastWith(hs: set<Hash>, y: Hash, m: Hash)
    requires IsLeast(m, hs - {y}) && y in hs
    ensures IsLeast(y, hs) || IsLeast(m, hs)
  {
    LessTotal(y, m);
    if Less(y, m) {
      forall x | x in hs ensures x == y || Less(y, x) {
        if x != y && x != m { LessTransitive(y, m, x); }
      }
    }
  }

  lemma {:induction false} LeastExists(hs: set<Hash>)
    requires hs != {}
    ensures exists m :: IsLeast(m, hs)
  {
    var y :| y in hs;
    if hs == {y} {
      assert IsLeast(y, hs);
    } else {
      LeastExists(hs - {y});
      var m :| IsLeast(m, hs - {y});
      LeastWith(hs, y, m);
    }
  }

  ghost function Sorted(hs: set<Hash>): (s: seq<Hash>)
    ensures forall x :: x in s <==> x in hs
    ensures Ascending(s)
  {
    if hs == {} then []
    else
      LeastExists(hs);
      var m :| IsLeast(m, hs);
      [m] + Sorted(hs - {m})
  }

  lemma {:induction false} AscendingUnique(s: seq<Hash>, t: seq<Hash>)
    requires Ascending(s) && Ascending(t)
    requires forall x :: x in s <==> x in t
    ensures s == t
  {
    assert s != [] ==> s[0] in t;
    assert t != [] ==> t[0] in s;
    if s != [] && t != [] {
      AscendingHead(s, t[0]);
      AscendingHead(t, s[0]);
      LessTotal(s[0], t[0]);
      forall x ensures x in s[1..] <==> x in t[1..] {
        AscendingTail(s, x);
        AscendingTail(t, x);
      }
      AscendingUnique(s[1..], t[1..]);
    }
  }

  lemma AscendingHead(s: seq<Hash>, x: Hash)
    requires s != [] && Ascending(s) && x in s
    ensures x == s[0] || Less(s[0], x)
  {
  }

  lemma AscendingTail(s: seq<Hash>, x: Hash)
    requires s != [] && Ascending(s)
    ensures x in s[1..] <==> x in s && x != s[0]
  {
    if x in s[1..] {
      var i :| 0 <= i < |s[1..]| && s[1..][i] == x;
      assert s[i + 1] == x && Less(s[0], s[i + 1]);
      LessTotal(s[0], x);
    }
  }

  /** A `BTreeSet` of the hashes, read in order: insertion at the right place, one by one. */
  method AscendingHashes(hs: set<Hash>) returns (s: seq<Hash>)
    ensures Ascending(s) && forall x :: x in s <==> x in hs
  {
    s := [];
    var rest := hs;
    while rest != {}
      invariant rest <= hs && Ascending(s)
      invariant forall x :: x in s <==> x in hs - rest
      decreases |rest|
    {
      var h :| h in rest;
      var k := 0;
      while k < |s| && Less(s[k], h)
        invariant 0 <= k <= |s|
        invariant forall i :: 0 <= i < k ==> Less(s[i], h)
      {
        k := k + 1;
      }
      InsertAscending(s, k, h);
      s := s[..k] + [h] + s[k..];
      rest := rest - {h};
    }
  }

  lemma InsertAscending(s: seq<Hash>, k: nat, h: Hash)
    requires k <= |s| && Ascending(s) && h !in s
    requires forall i :: 0 <= i < k ==> Less(s[i], h)
    requires k < |s| ==> !Less(s[k], h)
    ensures Ascending(s[..k] + [h] + s[k..])
    ensures forall x :: x in s[..k] + [h] + s[k..] <==> x == h || x in s
  {
    forall j | k <= j < |s| ensures Less(h, s[j]) {
      LessTotal(h, s[k]);
      if j > k { LessTransitive(h, s[k], s[j]); }
    }
    var t := s[..k] + [h] + s[k..];
    forall x | x in s ensures x in t {
      var i :| 0 <= i < |s| && s[i] == x;
      assert x == t[if i < k then i else i + 1];
    }
  }

  // ---- The commitment ----

  ghost function SetRoot(hs: set<Hash>): Option<Hash> {
    if hs == {} then None
    else
      assert Sorted(hs) != [] by { var h :| h in hs; assert h in Sorted(hs); }
      Some(Root(Sorted(hs)))
  }

  ghost function Materials(l: Ledger): set<seq<byte>> {
    set h | h in l.events :: HashMaterial(l.events[h])
  }

  /** Every string hashed on the way from a ledger's events to its root. */
  ghost function RootInputs(l: Ledger): set<seq<byte>> {
    Materials(l) + Inputs(Sorted(l.events.Keys))
  }

  lemma {:induction false} InputsLength(level: seq<Hash>)
    ensures forall x :: x in Inputs(level) ==> |x| == 64
    decreases |level|
  {
    if |level| > 1 {
      InputsLength(Fold(level));
    }
  }

  /** An event hash is the digest of 169 bytes, an inner node the digest of 64. */
  lemma LeafApart(e: Event, level: seq<Hash>, inputs: set<seq<byte>>)
    requires HashMaterial(e) in inputs && Inputs(level) <= inputs && CollisionFree(inputs)
    ensures HashEvent(e) !in Upper(level)
  {
    if HashEvent(e) in Upper(level) {
      InputsLength(level);
      var left, right := UpperIsPair(level, HashEvent(e));
    }
  }

  lemma LeavesApart(l: Ledger, level: seq<Hash>, inputs: set<seq<byte>>)
    requires Keyed(l.events) && Materials(l) <= inputs && Inputs(level) <= inputs && CollisionFree(inputs)
    ensures Apart(Sorted(l.events.Keys), level)
  {
    forall x | x in Sorted(l.events.Keys)
      ensures x !in Upper(level)
    {
      LeafApart(l.events[x], level, inputs);
    }
  }

  lemma RootBindsKeys(a: Ledger, b: Ledger, inputs: set<seq<byte>>)
    requires Keyed(a.events) && Keyed(b.events)
    requires RootInputs(a) <= inputs && RootInputs(b) <= inputs && CollisionFree(inputs)
    requires SetRoot(a.events.Keys) == SetRoot(b.events.Keys)
    ensures a.events.Keys == b.events.Keys
  {
    var sa, sb := Sorted(a.events.Keys), Sorted(b.events.Keys);
    if a.events.Keys != {} && b.events.Keys != {} {
      AscendingDistinct(sa);
      AscendingDistinct(sb);
      LeavesApart(a, sb, inputs);
      LeavesApart(b, sa, inputs);
      RootBindsDistinct(sa, sb, inputs);
      assert forall x :: x in a.events.Keys <==> x in sa;
    }
  }

  /** The root binds the accepted set, whatever the two sizes. */
  lemma RootBindsLedger(a: Ledger, b: Ledger)
    requires WellFormed(a) && WellFormed(b)
    requires CollisionFree(RootInputs(a) + RootInputs(b))
    ensures SetRoot(a.events.Keys) == SetRoot(b.events.Keys) <==> a == b
  {
    if SetRoot(a.events.Keys) == SetRoot(b.events.Keys) {
      var inputs := RootInputs(a) + RootInputs(b);
      RootBindsKeys(a, b, inputs);
      SameKeys(a, b, inputs);
    }
  }

  lemma AscendingDistinct(s: seq<Hash>)
    requires Ascending(s)
    ensures Distinct(s)
  {
    forall i, j | 0 <= i < j < |s| ensures s[i] != s[j] {
      LessTotal(s[i], s[j]);
    }
  }

  lemma SameHashSameEvent(x: Event, y: Event, inputs: set<seq<byte>>)
    requires HashMaterial(x) in inputs && HashMaterial(y) in inputs && CollisionFree(inputs)
    requires HashEvent(x) == HashEvent(y)
    ensures x == y
  {
    MaterialInjective(x, y);
  }

  lemma SameKeys(a: Ledger, b: Ledger, inputs: set<seq<byte>>)
    requires WellFormed(a) && WellFormed(b) && a.events.Keys == b.events.Keys
    requires Materials(a) <= inputs && Materials(b) <= inputs && CollisionFree(inputs)
    ensures a == b
  {
    forall h | h in a.events ensures a.events[h] == b.events[h] {
      SameHashSameEvent(a.events[h], b.events[h], inputs);
    }
    assert a.events == b.events;
  }
}
