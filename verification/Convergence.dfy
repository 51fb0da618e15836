/** Order-independent convergence: a node that is sent the events of another node's ledger, in any
order and with repetitions, ends with that ledger. */
module Convergence {
  import opened Base
  import opened Events
  import opened Ledgers
  import opened Apply
  import opened Pool

  /** Signed events whose timestamps, per author, lie within the skew of each other. */
  ghost predicate Admissible(events: set<Event>, skew: u64) {
    && (forall e :: e in events ==> Authentic(e))
    && (forall e, f :: e in events && f in events && e.author == f.author ==> f.timestamp <= SatAdd(e.timestamp, skew))
  }

  ghost predicate ContextFrom(ctx: Contexts, events: set<Event>, author: PublicKey) {
    LastSeen(ctx, author) == 0 || exists e :: e in events && e.author == author && e.timestamp == LastSeen(ctx, author)
  }

  /** Ledger, pool and contexts hold nothing but `events`. */
  ghost predicate From(p: NodePool, events: set<Event>) {
    p.ledger.events.Values <= events && WaitingFrom(p.pending, events) && ContextsFrom(p.ctx, events)
  }

  ghost predicate WaitingFrom(pending: Buckets, events: set<Event>) {
    forall k, m :: k in pending && m in pending[k] ==> m.event in events
  }

  ghost predicate EventsFrom(ms: seq<Message>, events: set<Event>) {
    forall m :: m in ms ==> m.event in events
  }

  ghost predicate ContextsFrom(ctx: Contexts, events: set<Event>) {
    forall a :: ContextFrom(ctx, events, a)
  }

  /** The event is in the ledger, or its message waits for the parent. */
  ghost predicate Covered(p: NodePool, m: Message) {
    HashEvent(m.event) in p.ledger.events || m in Bucket(p.pending, m.event.prevHash)
  }

  lemma ValidFrom(p: NodePool, m: Message, events: set<Event>, skew: u64)
    requires From(p, events) && Admissible(events, skew) && m.event in events
    ensures Pool.Valid(p, m, skew)
  {
    assert ContextFrom(p.ctx, events, m.event.author);
  }

  lemma TouchFrom(ctx: Contexts, e: Event, events: set<Event>)
    requires ContextsFrom(ctx, events) && e in events
    ensures ContextsFrom(Touch(ctx, e), events)
  {
    forall a ensures ContextFrom(Touch(ctx, e), events, a) {
      assert ContextFrom(ctx, events, a);
    }
  }

  lemma LinkFrom(p: NodePool, e: Event, events: set<Event>)
    requires From(p, events) && e in events
    ensures From(p.(ledger := Link(p.ledger, e)), events)
  {
    var l := Link(p.ledger, e);
    forall x | x in l.events.Values ensures x in events {
      var h :| h in l.events && l.events[h] == x;
      if h != HashEvent(e) { assert p.ledger.events[h] in p.ledger.events.Values; }
    }
  }

  lemma TakeCovers(p: NodePool, parent: Hash, events: set<Event>, m: Message)
    requires parent in p.pending && From(p, events)
    ensures From(TakeBucket(p, parent), events) && EventsFrom(p.pending[parent], events)
    ensures Covered(p, m) ==> Covered(TakeBucket(p, parent), m) || m in p.pending[parent]
  {
  }

  lemma {:induction false} DrainCovers(p: NodePool, parent: Hash, events: set<Event>, skew: u64, m: Message)
    requires TidyBut(p, parent) && parent in p.ledger.events && From(p, events) && Admissible(events, skew)
    ensures From(Drain(p, parent, skew), events)
    ensures Covered(p, m) ==> Covered(Drain(p, parent, skew), m)
    decreases Size(p.pending), 1, 0
  {
    if parent in p.pending {
      DrainStart(p, parent, skew);
      TakeCovers(p, parent, events, m);
      DrainLoopCovers(TakeBucket(p, parent), p.pending[parent], 0, parent, events, skew, m);
    }
  }

  lemma {:induction false} DrainLoopCovers(
      p: NodePool, bucket: seq<Message>, steps: nat, parent: Hash, events: set<Event>, skew: u64, m: Message)
    requires Draining(p, bucket, steps, parent)
    requires From(p, events) && EventsFrom(bucket, events) && Admissible(events, skew)
    ensures From(DrainLoop(p, bucket, steps, skew), events)
    ensures Covered(p, m) || m in bucket ==> Covered(DrainLoop(p, bucket, steps, skew), m)
    decreases Size(p.pending) + |bucket|, 0, |bucket|
  {
    if bucket != [] {
      var p1, rest := Release(p, bucket[0], skew), bucket[1..];
      BucketSplit(bucket, m);
      DrainStep(p, bucket, steps, parent, skew);
      ReleaseCovers(p, bucket[0], events, skew, m);
      DrainLoopCovers(p1, rest, steps + 1, parent, events, skew, m);
    }
  }

  lemma BucketSplit(bucket: seq<Message>, m: Message)
    requires bucket != []
    ensures bucket[0] in bucket && (m in bucket <==> m == bucket[0] || m in bucket[1..])
    ensures forall x :: x in bucket[1..] ==> x in bucket
  {
    assert bucket == [bucket[0]] + bucket[1..];
  }

  lemma {:induction false} ReleaseCovers(p: NodePool, child: Message, events: set<Event>, skew: u64, m: Message)
    requires Tidy(p) && child.event.prevHash in p.ledger.events
    requires From(p, events) && Admissible(events, skew) && child.event in events
    ensures From(Release(p, child, skew), events)
    ensures Covered(p, m) || m == child ==> Covered(Release(p, child, skew), m)
    decreases Size(p.pending), 3, 0
  {
    var e := child.event;
    ValidFrom(p, child, events, skew);
    TouchFrom(p.ctx, e, events);
    var p1 := p.(ctx := Touch(p.ctx, e));
    assert From(p1, events);
    if LinkCheck(p.ledger.events.Keys, e).None? {
      LinkCovers(p1, e, p.seen, events, skew, m);
    }
  }

  /** Linking an event and draining what waited for it. */
  lemma {:induction false} LinkCovers(p: NodePool, e: Event, seen: set<Hash>, events: set<Event>, skew: u64, m: Message)
    requires Tidy(p) && LinkCheck(p.ledger.events.Keys, e).None? && seen <= p.ledger.events.Keys + {HashEvent(e)}
    requires From(p, events) && Admissible(events, skew) && e in events
    ensures var r := Drain(p.(ledger := Link(p.ledger, e), seen := seen), HashEvent(e), skew);
            From(r, events) && (Covered(p, m) || m.event == e ==> Covered(r, m))
    decreases Size(p.pending), 2, 0
  {
    LinkTidy(p, e, HashEvent(e));
    LinkFrom(p, e, events);
    var p2 := p.(ledger := Link(p.ledger, e), seen := seen);
    assert TidyBut(p2, HashEvent(e)) && From(p2, events);
    DrainCovers(p2, HashEvent(e), events, skew, m);
  }

  lemma AcceptCovers(p: NodePool, sent: Message, events: set<Event>, skew: u64, m: Message)
    requires Tidy(p) && From(p, events) && Admissible(events, skew) && sent.event in events && p.total < MAX_PENDING
    ensures From(Accept(p, sent, skew), events)
    ensures Covered(p, m) || m == sent ==> Covered(Accept(p, sent, skew), m)
  {
    var e, h := sent.event, HashEvent(sent.event);
    if h !in p.seen {
      ValidFrom(p, sent, events, skew);
      TouchFrom(p.ctx, e, events);
      var p1 := p.(ctx := Touch(p.ctx, e));
      assert From(p1, events);
      match LinkCheck(p.ledger.events.Keys, e) {
        case Some(Duplicate) =>
        case Some(MissingParent) => QueueCovers(p1, sent, events, m);
        case None => LinkCovers(p1, e, Remember(p.seen, h), events, skew, m);
      }
    }
  }

  lemma QueueCovers(p: NodePool, sent: Message, events: set<Event>, m: Message)
    requires From(p, events) && sent.event in events && p.total < MAX_PENDING
    ensures From(Queue(p, sent), events)
    ensures Covered(p, m) || m == sent ==> Covered(Queue(p, sent), m)
  {
  }

  lemma {:induction false} RunCovers(p: NodePool, ms: seq<Message>, events: set<Event>, skew: u64, m: Message)
    requires Tidy(p) && From(p, events) && Admissible(events, skew) && p.total + |ms| <= MAX_PENDING
    requires EventsFrom(ms, events)
    ensures From(AcceptAll(p, ms, skew), events)
    ensures Covered(p, m) || m in ms ==> Covered(AcceptAll(p, ms, skew), m)
    decreases |ms|
  {
    if ms != [] {
      assert ms[0] in ms && ms == [ms[0]] + ms[1..];
      AcceptTidy(p, ms[0], skew);
      AcceptCovers(p, ms[0], events, skew, m);
      RunCovers(Accept(p, ms[0], skew), ms[1..], events, skew, m);
    }
  }

  // ---- The end of the run ----

  /** Every event of the source ledger was sent, and nothing else. */
  ghost predicate Sends(ms: seq<Message>, source: Ledger) {
    && EventsFrom(ms, source.events.Values)
    && (forall h :: h in source.events ==> exists m :: m in ms && m.event == source.events[h])
  }

  /** An event of the source is in the ledger, because its parent is: by induction from genesis. */
  lemma {:induction false} Arrived(p: NodePool, ms: seq<Message>, source: Ledger, h: Hash, n: nat)
    requires Tidy(p) && WellFormed(source) && Sends(ms, source) && Reaches(source.events, h, n)
    requires forall m :: m in ms ==> Covered(p, m)
    ensures h in p.ledger.events
    decreases n
  {
    var e := source.events[h];
    var m :| m in ms && m.event == e;
    assert Covered(p, m) && HashEvent(e) == h;
    if e.prevHash != ZERO_HASH {
      Arrived(p, ms, source, e.prevHash, n - 1);
    }
  }

  lemma WaitedFor(p: NodePool, source: Ledger, k: Hash)
    requires Tidy(p) && WellFormed(source) && WaitingFrom(p.pending, source.events.Values) && k in p.pending
    ensures k in source.events && k !in p.ledger.events
  {
    var m := p.pending[k][0];
    assert m in p.pending[k];
    var h :| h in source.events && source.events[h] == m.event;
    assert source.events[h].prevHash == k;
  }

  lemma NothingWaits(p: NodePool, source: Ledger)
    requires Tidy(p) && WellFormed(source) && From(p, source.events.Values)
    requires source.events.Keys <= p.ledger.events.Keys
    ensures p.pending == map[]
  {
    forall k ensures k !in p.pending {
      if k in p.pending {
        WaitedFor(p, source, k);
      }
    }
    assert p.pending.Keys == {};
  }

  lemma SameEvents(p: NodePool, source: Ledger)
    requires Tidy(p) && WellFormed(source) && From(p, source.events.Values)
    requires source.events.Keys <= p.ledger.events.Keys
    ensures p.ledger == source
  {
    var l := p.ledger;
    forall h | h in source.events ensures l.events[h] == source.events[h] {
      assert l.events[h] in l.events.Values && l.events[h] in source.events.Values;
      var g :| g in source.events && source.events[g] == l.events[h];
      assert HashEvent(source.events[g]) == g && HashEvent(l.events[h]) == h;
    }
    forall x ensures x in l.events.Values <==> x in source.events.Values {
      if x in source.events.Values {
        var h :| h in source.events && source.events[h] == x;
        assert l.events[h] == x;
      }
    }
    SameAccepted(l, source);
  }

  /** Convergence: whatever the order and however often each event is sent, up to 16384 messages,
  a fresh node ends with an empty pool and the source's events, tips and Merkle root. */
  lemma Converges(author: PublicKey, ms: seq<Message>, source: Ledger, skew: u64)
    requires WellFormed(source) && Sends(ms, source) && Admissible(source.events.Values, skew)
    requires |ms| <= 16384
    ensures var p := AcceptAll(FreshPool(author), ms, skew);
            && p.pending == map[] && p.total == 0 && p.ledger == source
            && SetRoot(p.ledger.events.Keys) == SetRoot(source.events.Keys)
  {
    var p, events := AcceptAll(FreshPool(author), ms, skew), source.events.Values;
    FreshTidy(author);
    assert From(FreshPool(author), events);
    RunTidy(FreshPool(author), ms, skew);
    forall m | m in ms ensures Covered(p, m) {
      RunCovers(FreshPool(author), ms, events, skew, m);
    }
    RunFrom(author, ms, events, skew);
    forall h | h in source.events ensures h in p.ledger.events {
      Arrived(p, ms, source, h, |source.events|);
    }
    NothingWaits(p, source);
    SameEvents(p, source);
  }

  lemma RunFrom(author: PublicKey, ms: seq<Message>, events: set<Event>, skew: u64)
    requires Admissible(events, skew) && |ms| <= MAX_PENDING && EventsFrom(ms, events)
    ensures From(AcceptAll(FreshPool(author), ms, skew), events)
  {
    FreshTidy(author);
    if ms != [] {
      assert From(FreshPool(author), events);
      RunCovers(FreshPool(author), ms, events, skew, ms[0]);
    }
  }

  /** So two fresh nodes that are sent the same events in different orders end equal. */
  lemma OrderDoesNotMatter(author: PublicKey, other: PublicKey, ms: seq<Message>, ms': seq<Message>, source: Ledger, skew: u64)
    requires WellFormed(source) && Sends(ms, source) && Sends(ms', source) && Admissible(source.events.Values, skew)
    requires |ms| <= 16384 && |ms'| <= 16384
    ensures AcceptAll(FreshPool(author), ms, skew).ledger == AcceptAll(FreshPool(other), ms', skew).ledger
    ensures AcceptAll(FreshPool(author), ms, skew).pending == AcceptAll(FreshPool(other), ms', skew).pending
  {
    Converges(author, ms, source, skew);
    Converges(other, ms', source, skew);
  }
}
