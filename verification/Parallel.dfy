/** The parallel build of block application: every transaction is checked against the
state before the block, then all are entered in order. It agrees with the
single-threaded build on some blocks and not on others; the lemmas here say on which. */
module Parallel {
  import opened Base
  import opened Events
  import opened Ledgers
  import opened Apply

  predicate AllChecked(b: Books, txs: seq<seq<byte>>, skew: u64) {
    forall i :: 0 <= i < |txs| ==> Check(Known(b), b.ctx, txs[i], skew).None?
  }

  /** The application loop: it stops, without undoing anything, at the first event that does not link. */
  function EnterLinked(b: Books, txs: seq<seq<byte>>): (Books, bool)
    requires AllDecode(txs)
    decreases |txs|
  {
    if txs == [] then (b, true)
    else if LinkCheck(Known(b), Ev(txs[0])).Some? then (Books(b.ledger, Touch(b.ctx, Ev(txs[0]))), false)
    else EnterLinked(Enter(b, Ev(txs[0])), txs[1..])
  }

  lemma CheckedDecode(b: Books, txs: seq<seq<byte>>, skew: u64)
    requires AllChecked(b, txs, skew)
    ensures AllDecode(txs)
  {
    forall i | 0 <= i < |txs| ensures |txs[i]| == 169 {
      CheckExact(Known(b), b.ctx, txs[i], skew);
    }
  }

  /** The books afterwards, and whether the block was accepted. */
  function ApplyParallel(b: Books, txs: seq<seq<byte>>, skew: u64): (Books, bool) {
    if AllChecked(b, txs, skew) then
      CheckedDecode(b, txs, skew);
      EnterLinked(b, txs)
    else (b, false)
  }

  /** Every transaction entered, linked or not. */
  function EnterAll(b: Books, txs: seq<seq<byte>>): Books
    requires AllDecode(txs)
    decreases |txs|
  {
    if txs == [] then b else EnterAll(Enter(b, Ev(txs[0])), txs[1..])
  }

  lemma {:induction false} ApplyIsEnterAll(b: Books, txs: seq<seq<byte>>, skew: u64)
    requires ApplyTxs(b, txs, skew).Ok? && AllDecode(txs)
    ensures ApplyTxs(b, txs, skew).value == EnterAll(b, txs)
    decreases |txs|
  {
    if txs != [] {
      ApplyIsEnterAll(Enter(b, Ev(txs[0])), txs[1..], skew);
    }
  }

  lemma {:induction false} LinkedIsEnterAll(b: Books, txs: seq<seq<byte>>)
    requires AllDecode(txs) && EnterLinked(b, txs).1
    ensures EnterLinked(b, txs).0 == EnterAll(b, txs)
    decreases |txs|
  {
    if txs != [] {
      LinkedIsEnterAll(Enter(b, Ev(txs[0])), txs[1..]);
    }
  }

  ghost predicate AllNew(known: set<Hash>, txs: seq<seq<byte>>) {
    forall i :: 0 <= i < |txs| ==> New(known, txs, i)
  }

  lemma AllNewCons(known: set<Hash>, txs: seq<seq<byte>>)
    requires txs != []
    ensures AllNew(known, txs) <==> TxHash(txs[0]) !in known && AllNew(known + {TxHash(txs[0])}, txs[1..])
  {
    forall i | 0 < i < |txs|
      ensures New(known, txs, i) <==> New(known + {TxHash(txs[0])}, txs[1..], i - 1)
    {
      ShiftNew(known, txs, i);
    }
    if AllNew(known, txs) {
      forall k | 0 <= k < |txs[1..]| ensures New(known + {TxHash(txs[0])}, txs[1..], k) {
        assert New(known, txs, k + 1);
      }
      assert New(known, txs, 0);
    }
  }

  lemma {:induction false} LinkedExact(b: Books, txs: seq<seq<byte>>)
    requires AllDecode(txs)
    requires forall i :: 0 <= i < |txs| ==> ParentKnown(Known(b), txs[i])
    ensures EnterLinked(b, txs).1 <==> AllNew(Known(b), txs)
    decreases |txs|
  {
    if txs != [] {
      var e := Ev(txs[0]);
      MaterialDecode(txs[0]);
      AllNewCons(Known(b), txs);
      if LinkCheck(Known(b), e).None? {
        assert Known(Enter(b, e)) == Known(b) + {TxHash(txs[0])};
        LinkedExact(Enter(b, e), txs[1..]);
      }
    }
  }

  ghost predicate Repeats(txs: seq<seq<byte>>) {
    exists i, j :: 0 <= i < j < |txs| && TxHash(txs[i]) == TxHash(txs[j])
  }

  lemma NewUnlessRepeats(known: set<Hash>, txs: seq<seq<byte>>)
    requires forall i :: 0 <= i < |txs| ==> TxHash(txs[i]) !in known
    ensures AllNew(known, txs) <==> !Repeats(txs)
  {
    if Repeats(txs) {
      var i, j :| 0 <= i < j < |txs| && TxHash(txs[i]) == TxHash(txs[j]);
      assert !New(known, txs, j);
    }
  }

  /** The parallel build accepts exactly the blocks whose transactions are all good on their
  own, given the state before the block, and pairwise different. */
  lemma ParallelExact(b: Books, txs: seq<seq<byte>>, skew: u64)
    ensures ApplyParallel(b, txs, skew).1 <==> AllChecked(b, txs, skew) && !Repeats(txs)
    ensures ApplyParallel(b, txs, skew).1 ==>
            AllDecode(txs) && ApplyParallel(b, txs, skew).0 == EnterAll(b, txs)
  {
    if AllChecked(b, txs, skew) {
      CheckedDecode(b, txs, skew);
      forall i | 0 <= i < |txs| ensures TxHash(txs[i]) !in Known(b) && ParentKnown(Known(b), txs[i]) {
        CheckExact(Known(b), b.ctx, txs[i], skew);
      }
      LinkedExact(b, txs);
      NewUnlessRepeats(Known(b), txs);
      if EnterLinked(b, txs).1 {
        LinkedIsEnterAll(b, txs);
      }
    }
  }

  /** Blocks both builds accept leave the same ledger, tips and contexts. */
  lemma SameBooks(b: Books, txs: seq<seq<byte>>, skew: u64)
    requires ApplyTxs(b, txs, skew).Ok? && ApplyParallel(b, txs, skew).1
    ensures ApplyTxs(b, txs, skew).value == ApplyParallel(b, txs, skew).0
  {
    ParallelExact(b, txs, skew);
    ApplyIsEnterAll(b, txs, skew);
  }

  ghost predicate NoParentInBlock(txs: seq<seq<byte>>)
    requires AllDecode(txs)
  {
    forall i, j :: 0 <= i < |txs| && 0 <= j < |txs| && Ev(txs[i]).prevHash != ZERO_HASH ==>
      Ev(txs[i]).prevHash != TxHash(txs[j])
  }

  lemma ApplicableNew(known: set<Hash>, ctx: Contexts, txs: seq<seq<byte>>, skew: u64)
    requires AllApplicable(known, ctx, txs, skew)
    ensures AllNew(known, txs) && !Repeats(txs)
  {
    forall i | 0 <= i < |txs| ensures New(known, txs, i) && TxHash(txs[i]) !in known {
      assert Applicable(known, ctx, txs, i, skew);
    }
    NewUnlessRepeats(known, txs);
  }

  lemma ApplicableChecked(b: Books, txs: seq<seq<byte>>, skew: u64)
    requires AllApplicable(Known(b), b.ctx, txs, skew)
    ensures AllChecked(b, txs, skew) <==> forall i :: 0 <= i < |txs| ==> ParentKnown(Known(b), txs[i])
  {
    forall i | 0 <= i < |txs|
      ensures Check(Known(b), b.ctx, txs[i], skew).None? <==> ParentKnown(Known(b), txs[i])
    {
      assert Applicable(Known(b), b.ctx, txs, i, skew);
      CheckExact(Known(b), b.ctx, txs[i], skew);
    }
  }

  lemma ParentNotInBlock(known: set<Hash>, ctx: Contexts, txs: seq<seq<byte>>, skew: u64)
    requires AllApplicable(known, ctx, txs, skew)
    ensures NoParentInBlock(txs) <==> forall i :: 0 <= i < |txs| ==> ParentKnown(known, txs[i])
  {
    ApplicableNew(known, ctx, txs, skew);
    if NoParentInBlock(txs) {
      forall i | 0 <= i < |txs| ensures ParentKnown(known, txs[i]) {
        assert Applicable(known, ctx, txs, i, skew);
      }
    }
    if forall i :: 0 <= i < |txs| ==> ParentKnown(known, txs[i]) {
      forall i, j | 0 <= i < |txs| && 0 <= j < |txs| && Ev(txs[i]).prevHash != ZERO_HASH
        ensures Ev(txs[i]).prevHash != TxHash(txs[j])
      {
        assert New(known, txs, j) && ParentKnown(known, txs[i]);
      }
    }
  }

  /** Of the blocks the single-threaded build accepts, the parallel one accepts exactly those
  in which no transaction builds on another of the same block. */
  lemma SequentialButNotParallel(b: Books, txs: seq<seq<byte>>, skew: u64)
    requires ApplyTxs(b, txs, skew).Ok?
    ensures AllDecode(txs) && (ApplyParallel(b, txs, skew).1 <==> NoParentInBlock(txs))
  {
    ApplyExact(b, txs, skew);
    ParallelExact(b, txs, skew);
    ApplicableNew(Known(b), b.ctx, txs, skew);
    ApplicableChecked(b, txs, skew);
    ParentNotInBlock(Known(b), b.ctx, txs, skew);
  }

  /** Of the blocks the parallel build accepts, the single-threaded one accepts exactly those
  in which no author's clock runs back within the block by more than the skew. */
  lemma ParallelButNotSequential(b: Books, txs: seq<seq<byte>>, skew: u64)
    requires ApplyParallel(b, txs, skew).1
    ensures AllDecode(txs)
    ensures ApplyTxs(b, txs, skew).Ok? <==> forall i :: 0 <= i < |txs| ==> NoStepBack(txs, i, skew)
  {
    ApplyExact(b, txs, skew);
    ParallelExact(b, txs, skew);
    var known := Known(b);
    forall i | 0 <= i < |txs|
      ensures Applicable(known, b.ctx, txs, i, skew) <==> NoStepBack(txs, i, skew)
    {
      CheckExact(known, b.ctx, txs[i], skew);
      assert New(known, txs, i);
    }
  }

  lemma {:induction false} LinkedGrows(b: Books, txs: seq<seq<byte>>)
    requires AllDecode(txs)
    ensures Known(b) <= Known(EnterLinked(b, txs).0)
    decreases |txs|
  {
    if txs != [] && LinkCheck(Known(b), Ev(txs[0])).None? {
      LinkedGrows(Enter(b, Ev(txs[0])), txs[1..]);
    }
  }

  /** The parallel build is not all-or-nothing: it rejects a block after changing the books
  exactly when every transaction is good on its own and one of them is repeated. */
  lemma ParallelLeavesPartialState(b: Books, txs: seq<seq<byte>>, skew: u64)
    ensures !ApplyParallel(b, txs, skew).1 && ApplyParallel(b, txs, skew).0 != b <==>
            AllChecked(b, txs, skew) && Repeats(txs)
  {
    ParallelExact(b, txs, skew);
    if AllChecked(b, txs, skew) && Repeats(txs) {
      CheckedDecode(b, txs, skew);
      CheckExact(Known(b), b.ctx, txs[0], skew);
      MaterialDecode(txs[0]);
      LinkedGrows(Enter(b, Ev(txs[0])), txs[1..]);
      assert TxHash(txs[0]) in Known(EnterLinked(b, txs).0);
    }
  }

  /** On blocks of pairwise different transactions, none building on another, no clock running
  back beyond the skew, the two builds are the same function. */
  lemma ParallelAgrees(b: Books, txs: seq<seq<byte>>, skew: u64)
    requires !Repeats(txs)
    requires AllDecode(txs) ==> NoParentInBlock(txs)
    requires AllDecode(txs) ==> forall i :: 0 <= i < |txs| ==> NoStepBack(txs, i, skew)
    ensures ApplyParallel(b, txs, skew) ==
            match ApplyTxs(b, txs, skew) case Ok(b') => (b', true) case Err(_) => (b, false)
  {
    ParallelExact(b, txs, skew);
    ParallelLeavesPartialState(b, txs, skew);
    if ApplyTxs(b, txs, skew).Ok? {
      SequentialButNotParallel(b, txs, skew);
      SameBooks(b, txs, skew);
    } else if ApplyParallel(b, txs, skew).1 {
      ParallelButNotSequential(b, txs, skew);
    }
  }
}
