/** The simulator node: a ledger, a pool of events that wait for their parent, and a recursive
drain that links what a new event has been holding back. */
module Pool {
  import opened Base
  import opened Events
  import opened Ledgers
  import opened Apply

  const MAX_PENDING: nat := 16384
  const MAX_DRAIN: nat := 16384
  const MAX_SEEN: nat := 8192

  datatype Message = Message(sender: nat, receiver: nat, event: Event)

  type Buckets = map<Hash, seq<Message>>

  datatype NodePool = NodePool(ledger: Ledger, ctx: Contexts, seen: set<Hash>, pending: Buckets, total: nat)

  /** A new node, which has looked up its own author's context. */
  function FreshPool(author: PublicKey): NodePool {
    NodePool(EMPTY, map[author := 0], {}, map[], 0)
  }

  // ---- How much is waiting ----

  ghost function Size(pending: Buckets): nat
    decreases |pending.Keys|
  {
    if pending == map[] then 0
    else
      var k :| k in pending;
      assert (pending - {k}).Keys == pending.Keys - {k};
      |pending[k]| + Size(pending - {k})
  }

  lemma {:induction false} SizeRemove(pending: Buckets, x: Hash)
    requires x in pending
    ensures Size(pending) == |pending[x]| + Size(pending - {x})
    decreases |pending.Keys|
  {
    var k :| k in pending && Size(pending) == |pending[k]| + Size(pending - {k});
    if k != x {
      assert (pending - {k}).Keys == pending.Keys - {k};
      SizeRemove(pending - {k}, x);
      SizeRemove(pending - {x}, k);
      assert pending - {k} - {x} == pending - {x} - {k};
    }
  }

  function Bucket(pending: Buckets, k: Hash): seq<Message> {
    if k in pending then pending[k] else []
  }

  lemma SizePut(pending: Buckets, k: Hash, m: Message)
    ensures Size(pending[k := Bucket(pending, k) + [m]]) == Size(pending) + 1
  {
    var more := pending[k := Bucket(pending, k) + [m]];
    SizeRemove(more, k);
    if k in pending {
      SizeRemove(pending, k);
      assert more - {k} == pending - {k};
    } else {
      assert more - {k} == pending;
    }
  }

  // ---- The steps ----

  /** Looking up an author's context creates it. */
  function Ensured(ctx: Contexts, author: PublicKey): Contexts {
    ctx[author := LastSeen(ctx, author)]
  }

  function Queue(p: NodePool, m: Message): (r: NodePool)
    ensures Size(r.pending) <= Size(p.pending) + 1
  {
    if p.total >= MAX_PENDING then p
    else
      var k := m.event.prevHash;
      SizePut(p.pending, k, m);
      p.(pending := p.pending[k := Bucket(p.pending, k) + [m]], total := p.total + 1)
  }

  function Requeue(p: NodePool, ms: seq<Message>): (r: NodePool)
    ensures Size(r.pending) <= Size(p.pending) + |ms|
    decreases |ms|
  {
    if ms == [] then p else Requeue(Queue(p, ms[0]), ms[1..])
  }

  function Remember(seen: set<Hash>, h: Hash): set<Hash> {
    if |seen + {h}| > MAX_SEEN then {} else seen + {h}
  }

  function Valid(p: NodePool, m: Message, skew: u64): bool {
    Validate(m.event, LastSeen(p.ctx, m.event.author), skew).None?
  }

  function TakeBucket(p: NodePool, parent: Hash): NodePool
    requires parent in p.pending
  {
    var n := |p.pending[parent]|;
    p.(pending := p.pending - {parent}, total := if n > p.total then 0 else p.total - n)
  }

  function Drain(p: NodePool, parent: Hash, skew: u64): (r: NodePool)
    ensures Size(r.pending) <= Size(p.pending)
    decreases Size(p.pending), 1, 0
  {
    if parent !in p.pending then p
    else
      SizeRemove(p.pending, parent);
      DrainLoop(TakeBucket(p, parent), p.pending[parent], 0, skew)
  }

  function DrainLoop(p: NodePool, bucket: seq<Message>, steps: nat, skew: u64): (r: NodePool)
    ensures Size(r.pending) <= Size(p.pending) + |bucket|
    decreases Size(p.pending) + |bucket|, 0, |bucket|
  {
    if bucket == [] then p
    else if steps >= MAX_DRAIN then Requeue(p, bucket)
    else DrainLoop(Release(p, bucket[0], skew), bucket[1..], steps + 1, skew)
  }

  /** A waiting child is validated again and linked; what waits for it follows. */
  function Release(p: NodePool, child: Message, skew: u64): (r: NodePool)
    ensures Size(r.pending) <= Size(p.pending) + 1
    decreases Size(p.pending) + 1, 0, 0
  {
    var e := child.event;
    if !Valid(p, child, skew) then p.(ctx := Ensured(p.ctx, e.author))
    else
      var p1 := p.(ctx := Touch(p.ctx, e));
      match LinkCheck(p.ledger.events.Keys, e)
      case Some(Duplicate) => p1
      case Some(MissingParent) => Queue(p1, child)
      case None =>
        var p2 := p1.(ledger := Link(p.ledger, e));
        if HashEvent(e) in p.seen then p2 else Drain(p2, HashEvent(e), skew)
  }

  function Accept(p: NodePool, m: Message, skew: u64): (r: NodePool)
    ensures Size(r.pending) <= Size(p.pending) + 1
  {
    var e, h := m.event, HashEvent(m.event);
    if h in p.seen then p
    else if !Valid(p, m, skew) then p.(ctx := Ensured(p.ctx, e.author))
    else
      var p1 := p.(ctx := Touch(p.ctx, e));
      match LinkCheck(p.ledger.events.Keys, e)
      case Some(Duplicate) => p1
      case Some(MissingParent) => Queue(p1, m)
      case None => Drain(p1.(ledger := Link(p.ledger, e), seen := Remember(p.seen, h)), h, skew)
  }

  function AcceptAll(p: NodePool, ms: seq<Message>, skew: u64): NodePool
    decreases |ms|
  {
    if ms == [] then p else AcceptAll(Accept(p, ms[0], skew), ms[1..], skew)
  }

  // ---- The pool's invariant ----

  /** Messages wait under their own parent, which is not in the ledger; `parent` is excused. */
  ghost predicate WaitingBut(ledger: Ledger, pending: Buckets, parent: Hash) {
    forall k :: k in pending ==>
      && pending[k] != [] && k != ZERO_HASH && (k == parent || k !in ledger.events)
      && (forall m :: m in pending[k] ==> m.event.prevHash == k)
  }

  ghost predicate Counted(p: NodePool) {
    p.total == Size(p.pending) && p.total <= MAX_PENDING
  }

  ghost predicate TidyBut(p: NodePool, parent: Hash) {
    WellFormed(p.ledger) && p.seen <= p.ledger.events.Keys && Counted(p) && WaitingBut(p.ledger, p.pending, parent)
  }

  /** No bucket waits on a hash the ledger has, the count is exact and capped, and only accepted
  events are remembered as seen. (No bucket is keyed by the zero hash, so nothing is excused.) */
  ghost predicate Tidy(p: NodePool) {
    TidyBut(p, ZERO_HASH)
  }

  ghost predicate Children(ledger: Ledger, bucket: seq<Message>, parent: Hash) {
    parent in ledger.events && forall m :: m in bucket ==> m.event.prevHash == parent
  }

  lemma ChildrenLater(ledger: Ledger, later: Ledger, bucket: seq<Message>, parent: Hash)
    requires Children(ledger, bucket, parent) && bucket != [] && ledger.events.Keys <= later.events.Keys
    ensures Children(later, bucket[1..], parent)
  {
    assert parent in later.events.Keys;
  }

  lemma LinkTidy(p: NodePool, e: Event, parent: Hash)
    requires TidyBut(p, ZERO_HASH) && LinkCheck(p.ledger.events.Keys, e).None? && parent == HashEvent(e)
    ensures TidyBut(p.(ledger := Link(p.ledger, e)), parent)
  {
    LinkKeeps(p.ledger, e);
  }

  lemma QueueTidy(p: NodePool, m: Message)
    requires Tidy(p) && m.event.prevHash != ZERO_HASH && m.event.prevHash !in p.ledger.events
    ensures Tidy(Queue(p, m))
  {
    SizePut(p.pending, m.event.prevHash, m);
  }

  lemma TakeTidy(p: NodePool, parent: Hash)
    requires TidyBut(p, parent) && parent in p.pending && parent in p.ledger.events
    ensures Tidy(TakeBucket(p, parent)) && Children(p.ledger, p.pending[parent], parent)
    ensures TakeBucket(p, parent).total + |p.pending[parent]| == p.total
  {
    SizeRemove(p.pending, parent);
  }

  lemma NothingToDrain(p: NodePool, parent: Hash)
    requires TidyBut(p, parent) && parent !in p.pending
    ensures Tidy(p)
  {
  }

  /** Draining re-establishes the invariant; with the bound at the cap, it is never hit, no child
  is still missing its parent and none was seen before. */
  lemma {:induction false} DrainTidy(p: NodePool, parent: Hash, skew: u64)
    requires TidyBut(p, parent) && parent in p.ledger.events
    ensures Tidy(Drain(p, parent, skew))
    ensures p.ledger.events.Keys <= Drain(p, parent, skew).ledger.events.Keys
    decreases Size(p.pending), 1, 0
  {
    if parent !in p.pending {
      NothingToDrain(p, parent);
    } else {
      DrainStart(p, parent, skew);
      DrainLoopTidy(TakeBucket(p, parent), p.pending[parent], 0, parent, skew);
    }
  }

  /** Where the drain stands: `bucket` is what is left of the children of `parent`. */
  ghost predicate Draining(p: NodePool, bucket: seq<Message>, steps: nat, parent: Hash) {
    && Tidy(p) && Children(p.ledger, bucket, parent)
    && steps + |bucket| <= MAX_DRAIN && p.total + |bucket| <= MAX_PENDING
  }

  lemma DrainStart(p: NodePool, parent: Hash, skew: u64)
    requires TidyBut(p, parent) && parent in p.pending && parent in p.ledger.events
    ensures var p1, bucket := TakeBucket(p, parent), p.pending[parent];
            && Draining(p1, bucket, 0, parent) && |bucket| <= p.total
            && Size(p1.pending) + |bucket| == Size(p.pending)
            && Drain(p, parent, skew) == DrainLoop(p1, bucket, 0, skew)
  {
    SizeRemove(p.pending, parent);
    TakeTidy(p, parent);
  }

  lemma {:induction false} DrainLoopTidy(p: NodePool, bucket: seq<Message>, steps: nat, parent: Hash, skew: u64)
    requires Draining(p, bucket, steps, parent)
    ensures Tidy(DrainLoop(p, bucket, steps, skew))
    ensures p.ledger.events.Keys <= DrainLoop(p, bucket, steps, skew).ledger.events.Keys
    decreases Size(p.pending) + |bucket|, 0, |bucket|
  {
    if bucket != [] {
      DrainStep(p, bucket, steps, parent, skew);
      DrainLoopTidy(Release(p, bucket[0], skew), bucket[1..], steps + 1, parent, skew);
    }
  }

  lemma {:induction false} DrainStep(p: NodePool, bucket: seq<Message>, steps: nat, parent: Hash, skew: u64)
    requires Draining(p, bucket, steps, parent) && bucket != []
    ensures bucket[0].event.prevHash in p.ledger.events
    ensures var p1 := Release(p, bucket[0], skew);
            && Draining(p1, bucket[1..], steps + 1, parent) && p.ledger.events.Keys <= p1.ledger.events.Keys
            && DrainLoop(p, bucket, steps, skew) == DrainLoop(p1, bucket[1..], steps + 1, skew)
    decreases Size(p.pending) + |bucket|, 0, 0
  {
    assert bucket[0] in bucket;
    ReleaseTidy(p, bucket[0], skew);
    ChildrenLater(p.ledger, Release(p, bucket[0], skew).ledger, bucket, parent);
  }

  lemma {:induction false} ReleaseTidy(p: NodePool, child: Message, skew: u64)
    requires Tidy(p) && child.event.prevHash in p.ledger.events
    ensures Tidy(Release(p, child, skew)) && Release(p, child, skew).total <= p.total
    ensures p.ledger.events.Keys <= Release(p, child, skew).ledger.events.Keys
    decreases Size(p.pending), 2, 0
  {
    var e := child.event;
    if Valid(p, child, skew) && LinkCheck(p.ledger.events.Keys, e).None? {
      var p1 := p.(ctx := Touch(p.ctx, e));
      LinkTidy(p1, e, HashEvent(e));
      DrainTidy(p1.(ledger := Link(p.ledger, e)), HashEvent(e), skew);
    }
  }

  /** The state in which an accepted message's children are drained. */
  lemma AcceptLinks(p: NodePool, m: Message, skew: u64)
    requires Tidy(p) && LinkCheck(p.ledger.events.Keys, m.event).None? && Valid(p, m, skew)
    ensures var h := HashEvent(m.event);
            var p1 := p.(ctx := Touch(p.ctx, m.event), ledger := Link(p.ledger, m.event), seen := Remember(p.seen, h));
            TidyBut(p1, h) && h in p1.ledger.events && Accept(p, m, skew) == Drain(p1, h, skew)
  {
    LinkTidy(p, m.event, HashEvent(m.event));
  }

  lemma AcceptTidy(p: NodePool, m: Message, skew: u64)
    requires Tidy(p)
    ensures Tidy(Accept(p, m, skew))
  {
    var e, h := m.event, HashEvent(m.event);
    var p1 := p.(ctx := Touch(p.ctx, e));
    if h !in p.seen && Valid(p, m, skew) {
      match LinkCheck(p.ledger.events.Keys, e) {
        case Some(Duplicate) =>
        case Some(MissingParent) => QueueTidy(p1, m);
        case None =>
          AcceptLinks(p, m, skew);
          DrainTidy(p1.(ledger := Link(p.ledger, e), seen := Remember(p.seen, h)), h, skew);
      }
    }
  }

  /** Over every run of messages, from an empty node. */
  lemma {:induction false} RunTidy(p: NodePool, ms: seq<Message>, skew: u64)
    requires Tidy(p)
    ensures Tidy(AcceptAll(p, ms, skew))
    decreases |ms|
  {
    if ms != [] {
      AcceptTidy(p, ms[0], skew);
      RunTidy(Accept(p, ms[0], skew), ms[1..], skew);
    }
  }

  lemma FreshTidy(author: PublicKey)
    ensures Tidy(FreshPool(author))
  {
    EmptyWellFormed();
  }

  // ---- The cap and the cache ----

  /** However many messages come, at most 16384 wait, and at most 8192 hashes are remembered. */
  lemma {:induction false} RunCapped(p: NodePool, ms: seq<Message>, skew: u64)
    requires Tidy(p) && |p.seen| <= 8192
    ensures Size(AcceptAll(p, ms, skew).pending) <= 16384 && |AcceptAll(p, ms, skew).seen| <= 8192
    decreases |ms|
  {
    if ms != [] {
      AcceptTidy(p, ms[0], skew);
      AcceptCache(p, ms[0], skew);
      RunCapped(Accept(p, ms[0], skew), ms[1..], skew);
    }
  }

  lemma AcceptCache(p: NodePool, m: Message, skew: u64)
    requires |p.seen| <= 8192
    ensures |Accept(p, m, skew).seen| <= 8192
  {
    var e, h := m.event, HashEvent(m.event);
    if h !in p.seen && Valid(p, m, skew) && LinkCheck(p.ledger.events.Keys, e).None? {
      DrainSeen(p.(ctx := Touch(p.ctx, e), ledger := Link(p.ledger, e), seen := Remember(p.seen, h)), h, skew);
    }
  }

  /** Draining adds nothing to the cache. */
  lemma {:induction false} DrainSeen(p: NodePool, parent: Hash, skew: u64)
    ensures Drain(p, parent, skew).seen == p.seen
    decreases Size(p.pending), 1, 0
  {
    if parent in p.pending {
      SizeRemove(p.pending, parent);
      DrainLoopSeen(TakeBucket(p, parent), p.pending[parent], 0, skew);
    }
  }

  lemma {:induction false} DrainLoopSeen(p: NodePool, bucket: seq<Message>, steps: nat, skew: u64)
    ensures DrainLoop(p, bucket, steps, skew).seen == p.seen
    decreases Size(p.pending) + |bucket|, 0, |bucket|
  {
    if bucket != [] {
      if steps >= MAX_DRAIN {
        RequeueSeen(p, bucket);
      } else {
        ReleaseSeen(p, bucket[0], skew);
        DrainLoopSeen(Release(p, bucket[0], skew), bucket[1..], steps + 1, skew);
      }
    }
  }

  lemma {:induction false} RequeueSeen(p: NodePool, ms: seq<Message>)
    ensures Requeue(p, ms).seen == p.seen
    decreases |ms|
  {
    if ms != [] { RequeueSeen(Queue(p, ms[0]), ms[1..]); }
  }

  lemma {:induction false} ReleaseSeen(p: NodePool, child: Message, skew: u64)
    ensures Release(p, child, skew).seen == p.seen
    decreases Size(p.pending), 2, 0
  {
    var e := child.event;
    if Valid(p, child, skew) && LinkCheck(p.ledger.events.Keys, e).None? && HashEvent(e) !in p.seen {
      DrainSeen(p.(ctx := Touch(p.ctx, e), ledger := Link(p.ledger, e)), HashEvent(e), skew);
    }
  }

  /** An event that is in the ledger already changes neither ledger, pool nor cache. */
  lemma RepeatChangesNothing(p: NodePool, m: Message, skew: u64)
    requires HashEvent(m.event) in p.ledger.events
    ensures Accept(p, m, skew) == p.(ctx := Accept(p, m, skew).ctx)
  {
  }
}
