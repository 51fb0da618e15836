/** The simulator node as an object: its methods change the fields in place, each is proved to
do what the corresponding function of `Pool` says. */
module Runtime {
  import opened Base
  import opened Events
  import opened Ledgers
  import opened Apply
  import opened Pool

  class NodeRuntime {
    const skew: u64 := 1_000_000
    const ledger: LedgerStore
    var vctx: Contexts
    var seen: set<Hash>
    var pending: Buckets
    var total: nat
    var inbox: seq<Message>

    ghost function State(): NodePool
      reads this, ledger
    {
      NodePool(ledger.State(), vctx, seen, pending, total)
    }

    constructor (author: PublicKey)
      ensures State() == FreshPool(author) && Tidy(State()) && inbox == [] && fresh(ledger)
    {
      ledger := new LedgerStore();
      vctx, seen, pending, total, inbox := map[author := 0], {}, map[], 0, [];
      new;
      FreshTidy(author);
    }

    method InboxPush(m: Message)
      modifies `inbox
      ensures inbox == old(inbox) + [m]
    {
      inbox := inbox + [m];
    }

    /** All of the inbox, first in first out. */
    method ProcessInbox()
      requires Tidy(State())
      modifies this, ledger
      ensures State() == AcceptAll(old(State()), old(inbox), skew) && inbox == []
      ensures Tidy(State())
    {
      while inbox != []
        invariant Tidy(State())
        invariant AcceptAll(State(), inbox, skew) == AcceptAll(old(State()), old(inbox), skew)
        decreases |inbox|
      {
        var m := inbox[0];
        inbox := inbox[1..];
        AcceptTidy(State(), m, skew);
        AcceptOrQueue(m);
      }
    }

    method VctxFor(author: PublicKey) returns (last: u64)
      modifies `vctx
      ensures vctx == Ensured(old(vctx), author) && last == LastSeen(vctx, author) == LastSeen(old(vctx), author)
    {
      if author !in vctx {
        vctx := vctx[author := 0];
      }
      return vctx[author];
    }

    /** Validation, which advances the author's context when the event passes. */
    method ValidateEvent(e: Event) returns (r: Option<ValidationError>)
      modifies `vctx
      ensures r == Validate(e, LastSeen(old(vctx), e.author), skew)
      ensures vctx == if r.None? then Touch(old(vctx), e) else Ensured(old(vctx), e.author)
    {
      var last := VctxFor(e.author);
      r := Validate(e, last, skew);
      if r.None? && e.timestamp > last {
        vctx := vctx[e.author := e.timestamp];
      }
    }

    method AcceptOrQueue(m: Message)
      requires Tidy(State())
      modifies `vctx, `seen, `pending, `total, ledger
      ensures State() == Accept(old(State()), m, skew)
    {
      ghost var p := State();
      var h := HashEvent(m.event);
      if h in seen {
        return;
      }
      var v := ValidateEvent(m.event);
      if v.Some? {
        return;
      }
      var added := ledger.TryAddEvent(m.event);
      match added {
        case Ok(out) =>
          MarkSeen(out);
          AcceptLinks(p, m, skew);
          DrainPendingForParent(out);
        case Err(Duplicate) =>
        case Err(MissingParent) =>
          QueuePending(m);
      }
    }

    /** The cache is bounded, and simply emptied when it grows past the bound. */
    method MarkSeen(h: Hash)
      modifies `seen
      ensures seen == Remember(old(seen), h)
    {
      seen := seen + {h};
      if |seen| > MAX_SEEN {
        seen := {};
      }
    }

    method QueuePending(m: Message)
      modifies `pending, `total
      ensures State() == Queue(old(State()), m)
    {
      if total >= MAX_PENDING {
        return;
      }
      var parent := m.event.prevHash;
      pending := pending[parent := Bucket(pending, parent) + [m]];
      total := total + 1;
    }

    /** The bucket is moved out, its messages are linked one by one, and each linked message
    drains its own children. The count never underflows, no child still misses its parent, none
    was seen before, and nothing is left in the bucket when the bound on the steps is reached. */
    method DrainPendingForParent(parent: Hash)
      requires TidyBut(State(), parent) && parent in ledger.events
      modifies `vctx, `pending, `total, ledger
      ensures State() == Drain(old(State()), parent, skew)
      ensures Tidy(State()) && old(ledger.events.Keys) <= ledger.events.Keys
      decreases Size(pending), 1
    {
      ghost var goal, size, known := Drain(State(), parent, skew), Size(pending), ledger.events.Keys;
      if parent !in pending {
        return;
      }
      DrainStart(State(), parent, skew);
      var bucket := pending[parent];
      pending := pending - {parent};
      if |bucket| > total {
        assert false;
      } else {
        total := total - |bucket|;
      }
      assert State() == TakeBucket(old(State()), parent);
      var steps := 0;
      while bucket != [] && steps < MAX_DRAIN
        invariant Draining(State(), bucket, steps, parent)
        invariant Size(pending) + |bucket| <= size && known <= ledger.events.Keys
        invariant DrainLoop(State(), bucket, steps, skew) == goal
        decreases |bucket|
      {
        var child := bucket[0];
        DrainStep(State(), bucket, steps, parent, skew);
        bucket := bucket[1..];
        steps := steps + 1;
        ReleaseChild(child);
      }
      if bucket != [] {
        assert false;
      }
    }

    /** The body of the drain's loop. */
    method ReleaseChild(child: Message)
      requires Tidy(State()) && child.event.prevHash in ledger.events
      modifies `vctx, `pending, `total, ledger
      ensures State() == Release(old(State()), child, skew)
      decreases Size(pending), 2
    {
      ghost var p := State();
      var v := ValidateEvent(child.event);
      if v.Some? {
        return;
      }
      var added := ledger.TryAddEvent(child.event);
      match added {
        case Ok(out) =>
          if out in seen {
            assert false;
          }
          LinkTidy(p.(ctx := vctx), child.event, out);
          DrainPendingForParent(out);
        case Err(Duplicate) =>
        case Err(MissingParent) =>
          assert false;
      }
    }
  }
}
