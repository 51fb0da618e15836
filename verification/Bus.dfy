/** The simulator's message bus: a priority queue by (due tick, sequence number), drained tick by
tick under a delivery policy that may hold messages back. */
module Bus {
  import opened Base
  import opened Pool

  type Node = nat

  datatype Scheduled = Scheduled(due: u64, order: nat, msg: Message)

  /** The heap's order. */
  predicate Before(a: Scheduled, b: Scheduled) {
    a.due < b.due || (a.due == b.due && a.order < b.order)
  }

  /** Tick arithmetic wraps at 64 bits. */
  function Later(tick: u64, delay: u64): u64 {
    (tick + delay) % (U64_MAX + 1)
  }

  datatype Policy = Honest | FixedDelay(victim: Node, delay: u64) | Starvation(victim: Node) | Reorder(victim: Node)

  predicate Allows(p: Policy, m: Scheduled, now: u64) {
    match p
    case Honest => true
    case FixedDelay(victim, delay) => m.msg.receiver == victim ==> now >= Later(m.due, delay)
    case Starvation(victim) => m.msg.receiver != victim
    case Reorder(_) => true
  }

  predicate Ready(p: Policy, m: Scheduled, now: u64) {
    m.due <= now && Allows(p, m, now)
  }

  // ---- Histories ----

  /** What happened to a bus, call by call. */
  datatype Call = Sent(m: Scheduled) | Polled(now: u64, policy: Policy, out: seq<Scheduled>)

  ghost predicate InOrder(s: seq<Scheduled>) {
    forall i, j :: 0 <= i < j < |s| ==> Before(s[i], s[j])
  }

  ghost function Elements(s: seq<Scheduled>): set<Scheduled> {
    set m | m in s
  }

  ghost function After(q: set<Scheduled>, call: Call): set<Scheduled> {
    match call
    case Sent(m) => q + {m}
    case Polled(_, _, out) => q - Elements(out)
  }

  ghost function Left(h: seq<Call>): set<Scheduled> {
    if h == [] then {} else After(Left(h[..|h| - 1]), h[|h| - 1])
  }

  ghost function Count(h: seq<Call>): nat {
    if h == [] then 0 else Count(h[..|h| - 1]) + if h[|h| - 1].Sent? then 1 else 0
  }

  /** One call delivers exactly what is ready, in strict (due, order) order. */
  ghost predicate Delivers(q: set<Scheduled>, now: u64, policy: Policy, out: seq<Scheduled>) {
    InOrder(out) && forall m :: m in out <==> m in q && Ready(policy, m, now)
  }

  ghost predicate LegalCall(q: set<Scheduled>, n: nat, call: Call) {
    match call
    case Sent(m) => m.order == n
    case Polled(now, policy, out) => Delivers(q, now, policy, out)
  }

  ghost predicate Legal(h: seq<Call>) {
    h == [] || (
      var before := h[..|h| - 1];
      Legal(before) && LegalCall(Left(before), Count(before), h[|h| - 1]))
  }

  /** Sequence numbers identify messages. */
  ghost predicate Numbered(q: set<Scheduled>, n: nat) {
    && (forall m :: m in q ==> m.order < n)
    && (forall a, b :: a in q && b in q && a.order == b.order ==> a == b)
  }

  lemma {:induction false} LeftNumbered(h: seq<Call>)
    requires Legal(h)
    ensures Numbered(Left(h), Count(h))
  {
    if h != [] {
      LeftNumbered(h[..|h| - 1]);
    }
  }

  // ---- The bus ----

  predicate IsTop(m: Scheduled, q: set<Scheduled>) {
    m in q && forall x :: x in q ==> x == m || Before(m, x)
  }

  lemma {:induction false} TopExists(q: set<Scheduled>, n: nat)
    requires q != {} && Numbered(q, n)
    ensures exists m :: IsTop(m, q)
  {
    var x :| x in q;
    if q == {x} {
      assert IsTop(x, q);
    } else {
      TopExists(q - {x}, n);
      var m :| IsTop(m, q - {x});
      assert m in q && x.order != m.order;
      var top := if Before(x, m) then x else m;
      forall y | y in q ensures y == top || Before(top, y) {
        assert y == x || y in q - {x};
      }
      assert IsTop(top, q);
    }
  }

  /** Every method is one `Call`: it is legal where it is made and leaves what `After` says, so
  the histories below are those of a bus. */
  class MessageBus {
    const defaultDelay: u64
    var counter: nat
    var q: set<Scheduled>

    ghost predicate Valid()
      reads this
    {
      Numbered(q, counter)
    }

    constructor (defaultDelay: u64)
      ensures Valid() && q == Left([]) && counter == Count([]) && this.defaultDelay == defaultDelay
    {
      this.defaultDelay, counter, q := defaultDelay, 0, {};
    }

    method Send(sender: Node, receiver: Node, msg: Message, now: u64, delay: u64) returns (ghost sm: Scheduled)
      requires Valid()
      modifies this
      ensures Valid() && counter == old(counter) + 1
      ensures LegalCall(old(q), old(counter), Sent(sm)) && q == After(old(q), Sent(sm))
      ensures sm.due == Later(now, if delay == 0 then defaultDelay else delay)
      ensures sm.msg == msg.(sender := sender, receiver := receiver)
    {
      var due := Later(now, if delay == 0 then defaultDelay else delay);
      var scheduled := Scheduled(due, counter, msg.(sender := sender, receiver := receiver));
      counter := counter + 1;
      q := q + {scheduled};
      sm := scheduled;
    }

    /** `out` is what was pushed into the inboxes, in that order. */
    method Deliver(now: u64) returns (out: seq<Scheduled>)
      requires Valid()
      modifies `q
      ensures Valid()
      ensures LegalCall(old(q), counter, Polled(now, Honest, out)) && q == After(old(q), Polled(now, Honest, out))
    {
      out := [];
      while q != {}
        invariant Progress(old(q), q, out, [], now, Honest)
        decreases |q|
      {
        TopOf(old(q), q, out, [], now, Honest, counter);
        var top :| IsTop(top, q);
        if top.due > now {
          assert NothingDue(q, now);
          break;
        }
        Advance(old(q), q, out, [], now, Honest, top);
        q := q - {top};
        out := out + [top];
      }
      Settled(old(q), q, out, [], now, Honest, counter);
    }

    method DeliverWithPolicy(now: u64, policy: Policy) returns (out: seq<Scheduled>)
      requires Valid()
      modifies `q
      ensures Valid()
      ensures LegalCall(old(q), counter, Polled(now, policy, out)) && q == After(old(q), Polled(now, policy, out))
    {
      var deferred;
      out, deferred := PopDue(now, policy);
      Settled(old(q), q, out, deferred, now, policy, counter);
      Reinsert(deferred);
    }

    /** The first loop of the delivery: everything due is popped, and sorted by the policy. */
    method PopDue(now: u64, policy: Policy) returns (out: seq<Scheduled>, deferred: seq<Scheduled>)
      requires Valid()
      modifies `q
      ensures Progress(old(q), q, out, deferred, now, policy) && NothingDue(q, now)
    {
      out, deferred := [], [];
      while q != {}
        invariant Progress(old(q), q, out, deferred, now, policy)
        decreases |q|
      {
        TopOf(old(q), q, out, deferred, now, policy, counter);
        var top :| IsTop(top, q);
        if top.due > now {
          assert NothingDue(q, now);
          break;
        }
        Advance(old(q), q, out, deferred, now, policy, top);
        q := q - {top};
        if Allows(policy, top, now) {
          out := out + [top];
        } else {
          deferred := deferred + [top];
        }
      }
    }

    /** The second loop: what was held back is queued again. */
    method Reinsert(deferred: seq<Scheduled>)
      modifies `q
      ensures q == old(q) + Elements(deferred)
    {
      for i := 0 to |deferred|
        invariant q == old(q) + Elements(deferred[..i])
      {
        ElementsSnoc(deferred, i);
        q := q + {deferred[i]};
      }
      assert deferred[..|deferred|] == deferred;
    }
  }

  /** In the delivery loop: what was popped came before what is still queued. */
  ghost predicate Progress(
      all: set<Scheduled>, q: set<Scheduled>, out: seq<Scheduled>, deferred: seq<Scheduled>, now: u64, p: Policy)
  {
    && all == q + Elements(out) + Elements(deferred)
    && InOrder(out)
    && (forall m :: m in out ==> m !in q && Ready(p, m, now))
    && (forall m :: m in deferred ==> !Ready(p, m, now))
    && (forall m, x :: m in out && x in q ==> Before(m, x))
  }

  ghost predicate NothingDue(q: set<Scheduled>, now: u64) {
    forall m :: m in q ==> m.due > now
  }

  lemma Advance(
      all: set<Scheduled>, q: set<Scheduled>, out: seq<Scheduled>, deferred: seq<Scheduled>, now: u64, p: Policy,
      top: Scheduled)
    requires Progress(all, q, out, deferred, now, p) && IsTop(top, q) && top.due <= now
    ensures Allows(p, top, now) ==> Progress(all, q - {top}, out + [top], deferred, now, p)
    ensures !Allows(p, top, now) ==> Progress(all, q - {top}, out, deferred + [top], now, p)
  {
    assert Elements(out + [top]) == Elements(out) + {top};
    assert Elements(deferred + [top]) == Elements(deferred) + {top};
  }

  lemma TopOf(
      all: set<Scheduled>, q: set<Scheduled>, out: seq<Scheduled>, deferred: seq<Scheduled>, now: u64, p: Policy, n: nat)
    requires Progress(all, q, out, deferred, now, p) && Numbered(all, n) && q != {}
    ensures exists top :: IsTop(top, q)
  {
    TopExists(q, n);
  }

  lemma Settled(
      all: set<Scheduled>, q: set<Scheduled>, out: seq<Scheduled>, deferred: seq<Scheduled>, now: u64, p: Policy, n: nat)
    requires Progress(all, q, out, deferred, now, p) && NothingDue(q, now) && Numbered(all, n)
    ensures var call := Polled(now, p, out);
            LegalCall(all, n, call) && q + Elements(deferred) == After(all, call) && Numbered(After(all, call), n)
  {
  }

  lemma ElementsSnoc(s: seq<Scheduled>, i: nat)
    requires i < |s|
    ensures Elements(s[..i + 1]) == Elements(s[..i]) + {s[i]}
  {
    assert s[..i + 1] == s[..i] + [s[i]];
  }

  // ---- Over every history ----

  /** A method's contract is what makes its call extend a history of the bus. */
  lemma HistoryGrows(h: seq<Call>, call: Call)
    requires Legal(h) && LegalCall(Left(h), Count(h), call)
    ensures Legal(h + [call]) && Left(h + [call]) == After(Left(h), call)
    ensures Count(h + [call]) == Count(h) + if call.Sent? then 1 else 0
    ensures Numbered(Left(h), Count(h))
  {
    assert (h + [call])[..|h|] == h;
    LeftNumbered(h);
  }

  ghost function SentIn(h: seq<Call>): multiset<Scheduled> {
    if h == [] then multiset{}
    else SentIn(h[..|h| - 1]) + if h[|h| - 1].Sent? then multiset{h[|h| - 1].m} else multiset{}
  }

  ghost function DeliveredIn(h: seq<Call>): multiset<Scheduled> {
    if h == [] then multiset{}
    else DeliveredIn(h[..|h| - 1]) + if h[|h| - 1].Polled? then multiset(h[|h| - 1].out) else multiset{}
  }

  lemma InOrderOnce(s: seq<Scheduled>)
    requires InOrder(s)
    ensures multiset(s) == multiset(Elements(s))
    decreases |s|
  {
    if s != [] {
      var n := |s| - 1;
      InOrderOnce(s[..n]);
      assert s == s[..n] + [s[n]];
      assert s[n] !in s[..n];
      assert Elements(s) == Elements(s[..n]) + {s[n]};
    }
  }

  lemma RemoveSome(q: set<Scheduled>, out: set<Scheduled>)
    requires out <= q
    ensures multiset(q) == multiset(q - out) + multiset(out)
  {
  }

  /** Nothing is lost and nothing is made up: sent is delivered plus pending. */
  lemma {:induction false} Conservation(h: seq<Call>)
    requires Legal(h)
    ensures SentIn(h) == DeliveredIn(h) + multiset(Left(h))
  {
    if h != [] {
      var before, last := h[..|h| - 1], h[|h| - 1];
      Conservation(before);
      LeftNumbered(before);
      if last.Polled? {
        InOrderOnce(last.out);
        assert Elements(last.out) <= Left(before);
        RemoveSome(Left(before), Elements(last.out));
      }
    }
  }

  lemma {:induction false} SentOnce(h: seq<Call>, m: Scheduled)
    requires Legal(h)
    ensures SentIn(h)[m] <= 1 && (m in SentIn(h) ==> m.order < Count(h))
  {
    if h != [] {
      SentOnce(h[..|h| - 1], m);
    }
  }

  /** No message is delivered twice, or delivered and still pending. */
  lemma DeliveredOnce(h: seq<Call>, m: Scheduled)
    requires Legal(h)
    ensures DeliveredIn(h)[m] + (if m in Left(h) then 1 else 0) <= 1
  {
    Conservation(h);
    SentOnce(h, m);
  }

  lemma {:induction false} LegalPrefix(h: seq<Call>, i: nat)
    requires Legal(h) && i <= |h|
    ensures Legal(h[..i])
  {
    if i < |h| {
      LegalPrefix(h[..|h| - 1], i);
      assert h[..|h| - 1][..i] == h[..i];
    } else {
      assert h[..i] == h;
    }
  }

  /** Whatever a call delivers was sent before, is due, is allowed, and had not been delivered. */
  lemma NeverEarly(h: seq<Call>, i: nat, m: Scheduled)
    requires Legal(h) && i < |h| && h[i].Polled? && m in h[i].out
    ensures m.due <= h[i].now && Allows(h[i].policy, m, h[i].now)
    ensures m in SentIn(h[..i]) && m !in DeliveredIn(h[..i])
  {
    LegalPrefix(h, i + 1);
    assert h[..i + 1][..i] == h[..i];
    LegalPrefix(h, i);
    Conservation(h[..i]);
    DeliveredOnce(h[..i], m);
    assert m in Left(h[..i]);
  }

  // ---- Exact arrival ----

  /** When a message is to arrive under `FixedDelay(victim, delay)`. */
  ghost function Arrival(m: Scheduled, victim: Node, delay: u64): nat {
    m.due + if m.msg.receiver == victim then delay else 0
  }

  /** The policy holds a message back until that tick exactly when the tick fits into 64 bits;
  past that the sum wraps and the message goes out early. */
  lemma DelayExact(m: Scheduled, victim: Node, delay: u64)
    ensures (forall now: u64 :: Ready(FixedDelay(victim, delay), m, now) <==> now >= Arrival(m, victim, delay)) <==>
            Arrival(m, victim, delay) <= U64_MAX
  {
    var p := FixedDelay(victim, delay);
    if Arrival(m, victim, delay) > U64_MAX {
      assert Ready(p, m, U64_MAX);
    }
  }

  ghost predicate OnTime(last: int, call: Call, victim: Node, delay: u64) {
    match call
    case Sent(m) => m.due > last && Arrival(m, victim, delay) <= U64_MAX
    case Polled(now, policy, out) => now == last + 1 && policy == FixedDelay(victim, delay)
  }

  /** Polled at every tick from `first` on, with messages due only later than the last poll and
  no tick that wraps. */
  ghost predicate EveryTick(h: seq<Call>, first: u64, victim: Node, delay: u64) {
    h == [] || (
      var before := h[..|h| - 1];
      EveryTick(before, first, victim, delay) && OnTime(LastTick(before, first), h[|h| - 1], victim, delay))
  }

  ghost function LastTick(h: seq<Call>, first: u64): int {
    if h == [] then first - 1
    else if h[|h| - 1].Polled? then h[|h| - 1].now
    else LastTick(h[..|h| - 1], first)
  }

  lemma {:induction false} StillWaiting(h: seq<Call>, first: u64, victim: Node, delay: u64, m: Scheduled)
    requires Legal(h) && EveryTick(h, first, victim, delay) && m in Left(h)
    ensures LastTick(h, first) < Arrival(m, victim, delay) <= U64_MAX
  {
    var before, last := h[..|h| - 1], h[|h| - 1];
    if last.Polled? || m != last.m {
      StillWaiting(before, first, victim, delay, m);
    }
    if last.Polled? {
      assert Delivers(Left(before), last.now, last.policy, last.out);
      assert m !in last.out;
    }
  }

  /** Under a fixed delay, with a poll at every tick, each message arrives exactly at its due tick
  plus the victim's delay: never before, never after. */
  lemma ExactArrival(h: seq<Call>, first: u64, victim: Node, delay: u64, i: nat, m: Scheduled)
    requires Legal(h) && EveryTick(h, first, victim, delay) && i < |h| && h[i].Polled?
    ensures m in h[i].out <==> m in SentIn(h[..i]) && Arrival(m, victim, delay) == h[i].now
  {
    EveryTickPrefix(h, first, victim, delay, i + 1);
    LegalPrefix(h, i + 1);
    ArrivesLast(h[..i + 1], first, victim, delay, m);
    assert h[..i + 1][..i] == h[..i];
  }

  lemma {:induction false} EveryTickPrefix(h: seq<Call>, first: u64, victim: Node, delay: u64, i: nat)
    requires EveryTick(h, first, victim, delay) && i <= |h|
    ensures EveryTick(h[..i], first, victim, delay)
  {
    if i < |h| {
      EveryTickPrefix(h[..|h| - 1], first, victim, delay, i);
      assert h[..|h| - 1][..i] == h[..i];
    } else {
      assert h[..i] == h;
    }
  }

  lemma ArrivesLast(h: seq<Call>, first: u64, victim: Node, delay: u64, m: Scheduled)
    requires Legal(h) && EveryTick(h, first, victim, delay) && h != [] && h[|h| - 1].Polled?
    ensures var before, last := h[..|h| - 1], h[|h| - 1];
            m in last.out <==> m in SentIn(before) && Arrival(m, victim, delay) == last.now
  {
    var before, last := h[..|h| - 1], h[|h| - 1];
    assert m in last.out <==> m in Left(before) && Ready(last.policy, m, last.now);
    assert m in SentIn(before) <==> m in DeliveredIn(before) || m in Left(before) by { Conservation(before); }
    if m in Left(before) {
      StillWaiting(before, first, victim, delay, m);
    } else if m in SentIn(before) {
      Delivered(before, first, victim, delay, m);
    }
  }

  lemma {:induction false} Delivered(h: seq<Call>, first: u64, victim: Node, delay: u64, m: Scheduled)
    requires Legal(h) && EveryTick(h, first, victim, delay) && m in DeliveredIn(h)
    ensures Arrival(m, victim, delay) <= LastTick(h, first)
  {
    var before, last := h[..|h| - 1], h[|h| - 1];
    if m in DeliveredIn(before) {
      Delivered(before, first, victim, delay, m);
    } else {
      assert m in Left(before);
      StillWaiting(before, first, victim, delay, m);
    }
  }

  /** Under the honest policy, and under the reordering one, nothing that is due is left. */
  lemma NothingHeldBack(q: set<Scheduled>, n: nat, now: u64, policy: Policy, out: seq<Scheduled>, m: Scheduled)
    requires (policy.Honest? || policy.Reorder?) && LegalCall(q, n, Polled(now, policy, out)) && m in q
    ensures m in out <==> m.due <= now
    ensures m in After(q, Polled(now, policy, out)) <==> m.due > now
  {
  }

  // ---- Starvation ----

  ghost predicate Starved(h: seq<Call>, victim: Node) {
    forall i :: 0 <= i < |h| ==> (h[i].Polled? ==> h[i].policy == Starvation(victim))
  }

  /** A starved node gets nothing, and everything sent to it stays queued. */
  lemma {:induction false} StarvedGetsNothing(h: seq<Call>, victim: Node, m: Scheduled)
    requires Legal(h) && Starved(h, victim) && m.msg.receiver == victim
    ensures m !in DeliveredIn(h) && (m in SentIn(h) <==> m in Left(h))
  {
    if h != [] {
      StarvedGetsNothing(h[..|h| - 1], victim, m);
      var last := h[|h| - 1];
      if last.Polled? {
        assert Delivers(Left(h[..|h| - 1]), last.now, last.policy, last.out);
      }
    }
  }
}
