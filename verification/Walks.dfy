/** Bounded walks along parent edges: the ancestor test and the chain below a tip. */
module Walks {
  import opened Base
  import opened Events
  import opened Ledgers

  /** `k` parent edges up from `h`, through whatever the ledger holds. */
  function Up(events: map<Hash, Event>, h: Hash, k: nat): Option<Hash>
    decreases k
  {
    if k == 0 then Some(h)
    else if h !in events then None
    else Up(events, events[h].prevHash, k - 1)
  }

  lemma {:induction false} UpAdd(events: map<Hash, Event>, h: Hash, i: nat, j: nat)
    requires Up(events, h, i).Some?
    ensures Up(events, h, i + j) == Up(events, Up(events, h, i).value, j)
    decreases i
  {
    if i > 0 {
      UpAdd(events, events[h].prevHash, i - 1, j);
    }
  }

  lemma UpBefore(events: map<Hash, Event>, h: Hash, i: nat, k: nat)
    requires i < k && Up(events, h, k).Some?
    ensures Up(events, h, i).Some? && Up(events, h, i).value in events
    decreases i
  {
    if i > 0 {
      UpBefore(events, events[h].prevHash, i - 1, k - 1);
    }
  }

  /** Reachable in at most `n` parent edges. */
  ghost predicate Within(events: map<Hash, Event>, ancestor: Hash, h: Hash, n: nat) {
    exists k :: 0 <= k <= n && Up(events, h, k) == Some(ancestor)
  }

  ghost predicate IsAncestor(events: map<Hash, Event>, ancestor: Hash, h: Hash) {
    exists k: nat :: Up(events, h, k) == Some(ancestor)
  }

  /** An event that is its own parent is never left again. */
  lemma {:induction false} Stuck(events: map<Hash, Event>, h: Hash, k: nat)
    requires h in events && events[h].prevHash == h
    ensures Up(events, h, k) == Some(h)
    decreases k
  {
    if k > 0 {
      Stuck(events, h, k - 1);
    }
  }

  /** The walk answers exactly whether the ancestor is at most `maxSteps` edges away. */
  method IsAncestorByWalk(ledger: LedgerStore, ancestor: Hash, start: Hash, maxSteps: nat) returns (r: bool)
    ensures r <==> Within(ledger.events, ancestor, start, maxSteps)
  {
    var events, descendant := ledger.events, start;
    if ancestor == descendant {
      assert Up(events, start, 0) == Some(ancestor);
      return true;
    }
    for i := 0 to maxSteps
      invariant Up(events, start, i) == Some(descendant)
      invariant forall k :: 0 <= k <= i ==> Up(events, start, k) != Some(ancestor)
    {
      UpAdd(events, start, i, 1);
      if descendant !in events {
        forall k | 0 <= k <= maxSteps ensures Up(events, start, k) != Some(ancestor) {
          if k > i { UpAdd(events, start, i, k - i); }
        }
        return false;
      }
      var e := events[descendant];
      assert Up(events, descendant, 1) == Up(events, e.prevHash, 0);
      if e.prevHash == ancestor {
        assert Up(events, start, i + 1) == Some(ancestor);
        return true;
      }
      if e.prevHash == descendant {
        forall k | 0 <= k <= maxSteps ensures Up(events, start, k) != Some(ancestor) {
          if k > i {
            UpAdd(events, start, i, k - i);
            Stuck(events, descendant, k - i);
          }
        }
        return false;
      }
      descendant := e.prevHash;
    }
    return false;
  }

  // ---- How far a walk has to go ----

  lemma {:induction false} Pigeonhole(s: seq<Hash>, hs: set<Hash>) returns (i: nat, j: nat)
    requires |s| > |hs| && forall k :: 0 <= k < |s| ==> s[k] in hs
    ensures i < j < |s| && s[i] == s[j]
    decreases |s|
  {
    var n := |s| - 1;
    if x :| 0 <= x < n && s[x] == s[n] {
      i, j := x, n;
    } else {
      i, j := Pigeonhole(s[..n], hs - {s[n]});
    }
  }

  /** Between two visits of the same event a walk can be cut. */
  lemma CutLoop(events: map<Hash, Event>, h: Hash, i: nat, j: nat, k: nat)
    requires i < j < k && Up(events, h, k).Some? && Up(events, h, i) == Up(events, h, j)
    ensures Up(events, h, k - (j - i)) == Up(events, h, k)
  {
    UpBefore(events, h, i, k);
    UpAdd(events, h, i, k - j);
    UpAdd(events, h, j, k - j);
  }

  /** What is an ancestor at all is one within as many edges as there are events. */
  lemma {:induction false} WalkBound(events: map<Hash, Event>, ancestor: Hash, h: Hash, k: nat)
    requires Up(events, h, k) == Some(ancestor)
    ensures Within(events, ancestor, h, |events|)
    decreases k
  {
    if k > |events| {
      forall x | 0 <= x < k ensures Up(events, h, x).Some? && Up(events, h, x).value in events.Keys {
        UpBefore(events, h, x, k);
      }
      var visited: seq<Hash> := seq(k, x requires 0 <= x < k => Up(events, h, x).value);
      assert |events.Keys| == |events|;
      var i, j := Pigeonhole(visited, events.Keys);
      assert Up(events, h, i) == Up(events, h, j);
      CutLoop(events, h, i, j, k);
      WalkBound(events, ancestor, h, k - (j - i));
    }
  }

  lemma LongEnough(events: map<Hash, Event>, ancestor: Hash, h: Hash, n: nat)
    requires n >= |events|
    ensures Within(events, ancestor, h, n) <==> IsAncestor(events, ancestor, h)
  {
    if k: nat :| Up(events, h, k) == Some(ancestor) {
      WalkBound(events, ancestor, h, k);
    }
  }

  // ---- The chain below a tip ----

  /** From the oldest event reached to the tip. */
  function ChainFrom(events: map<Hash, Event>, tip: Hash, n: nat): (c: seq<Hash>)
    ensures |c| <= n
    decreases n
  {
    if n == 0 || tip !in events then [] else ChainFrom(events, events[tip].prevHash, n - 1) + [tip]
  }

  /** The chain lists the walk backwards, each element present, and stops only at the bound or
  at a hash the ledger does not have. */
  lemma {:induction false} ChainExact(events: map<Hash, Event>, tip: Hash, n: nat)
    ensures var c := ChainFrom(events, tip, n);
            && (forall i :: 0 <= i < |c| ==> c[i] in events && Up(events, tip, |c| - 1 - i) == Some(c[i]))
            && (|c| == n || exists x :: x !in events && Up(events, tip, |c|) == Some(x))
    decreases n
  {
    if n > 0 && tip in events {
      var p := events[tip].prevHash;
      ChainExact(events, p, n - 1);
      var c, d := ChainFrom(events, tip, n), ChainFrom(events, p, n - 1);
      assert c == d + [tip];
      forall i | 0 <= i < |c| ensures c[i] in events && Up(events, tip, |c| - 1 - i) == Some(c[i]) {
        if i < |d| {
          assert Up(events, tip, |c| - 1 - i) == Up(events, p, |d| - 1 - i);
        }
      }
      assert Up(events, tip, |c|) == Up(events, p, |d|);
    } else if n > 0 {
      assert Up(events, tip, 0) == Some(tip);
    }
  }

  method BuildChainFromTip(ledger: LedgerStore, tip: Hash, maxSteps: nat) returns (hashes: seq<Hash>)
    ensures hashes == ChainFrom(ledger.events, tip, maxSteps)
  {
    var rev: seq<Hash>, cur := [], tip;
    for i := 0 to maxSteps
      invariant ChainFrom(ledger.events, tip, maxSteps) ==
                ChainFrom(ledger.events, cur, maxSteps - i) + Reversed(rev)
    {
      if cur !in ledger.events {
        break;
      }
      ReversedSnoc(rev, cur);
      rev := rev + [cur];
      cur := ledger.events[cur].prevHash;
    }
    hashes := Reversed(rev);
  }

  function Reversed(s: seq<Hash>): seq<Hash> {
    seq(|s|, i requires 0 <= i < |s| => s[|s| - 1 - i])
  }

  lemma ReversedSnoc(s: seq<Hash>, x: Hash)
    ensures Reversed(s + [x]) == [x] + Reversed(s)
  {
  }

  /** When no event has the zero hash and the bound is the ledger's size, the chain of an event
  runs from its genesis event to itself: it is as long as the event is high. */
  lemma {:induction false} ChainComplete(events: map<Hash, Event>, h: Hash, n: nat)
    requires Reaches(events, h, n) && ZERO_HASH !in events
    ensures |ChainFrom(events, h, n)| == Height(events, h, n)
    ensures var g := ChainFrom(events, h, n)[0]; g in events && events[g].prevHash == ZERO_HASH
    decreases n
  {
    var p := events[h].prevHash;
    if p == ZERO_HASH {
      assert ChainFrom(events, p, n - 1) == [];
    } else {
      ChainComplete(events, p, n - 1);
    }
  }

  /** In a well-formed ledger without a zero hash, ancestors in this sense are the ledger's. */
  lemma {:induction false} UpIsAncestor(events: map<Hash, Event>, h: Hash, k: nat, a: Hash)
    requires ZERO_HASH !in events && a in events
    ensures Up(events, h, k) == Some(a) <==> Ancestor(events, h, k) == Some(a)
    decreases k
  {
    if k > 0 && h in events {
      if events[h].prevHash == ZERO_HASH {
        if k > 1 { assert Up(events, ZERO_HASH, k - 1) == None; }
      } else {
        UpIsAncestor(events, events[h].prevHash, k - 1, a);
      }
    }
  }
}
