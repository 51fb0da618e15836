/** Event validation and the application of a block's transactions, as the single-threaded build
does it. */
module Apply {
  import opened Base
  import opened Events
  import opened Ledgers

  datatype ValidationError = InvalidVersion | InvalidSignature | TimestampNonMonotonic

  predicate Authentic(e: Event) {
    e.version == PROTOCOL_VERSION && Ed25519Verify(e.author, CanonicalBytes(e), e.signature)
  }

  /** `None` when the event is valid for an author last seen at `last`. */
  function Validate(e: Event, last: u64, skew: u64): Option<ValidationError> {
    if e.version != PROTOCOL_VERSION then Some(InvalidVersion)
    else if !Ed25519Verify(e.author, CanonicalBytes(e), e.signature) then Some(InvalidSignature)
    else if SatAdd(e.timestamp, skew) < last then Some(TimestampNonMonotonic)
    else None
  }

  type Contexts = map<PublicKey, u64>

  function LastSeen(ctx: Contexts, author: PublicKey): u64 {
    if author in ctx then ctx[author] else 0
  }

  function Touch(ctx: Contexts, e: Event): Contexts {
    var last := LastSeen(ctx, e.author);
    ctx[e.author := if e.timestamp > last then e.timestamp else last]
  }

  datatype ApplyError = BadLength | Rejected(why: ValidationError) | Unlinked(how: LinkError)

  datatype Books = Books(ledger: Ledger, ctx: Contexts)

  const NO_BOOKS: Books := Books(EMPTY, map[])

  function Known(b: Books): set<Hash> {
    b.ledger.events.Keys
  }

  function Check(known: set<Hash>, ctx: Contexts, tx: seq<byte>, skew: u64): Option<ApplyError> {
    match DecodeEvent(tx)
    case None => Some(BadLength)
    case Some(e) =>
      match Validate(e, LastSeen(ctx, e.author), skew)
      case Some(why) => Some(Rejected(why))
      case None =>
        match LinkCheck(known, e)
        case Some(how) => Some(Unlinked(how))
        case None => None
  }

  function Enter(b: Books, e: Event): Books {
    Books(TryAdd(b.ledger, e), Touch(b.ctx, e))
  }

  // ---- The single-threaded build ----

  /** The meaning of a block: its transactions one after the other, or the first error. */
  function ApplyTxs(b: Books, txs: seq<seq<byte>>, skew: u64): Result<Books, ApplyError>
    decreases |txs|
  {
    if txs == [] then Ok(b)
    else
      match Check(Known(b), b.ctx, txs[0], skew)
      case Some(err) => Err(err)
      case None => ApplyTxs(Enter(b, DecodeEvent(txs[0]).value), txs[1..], skew)
  }

  /** The dry run: the same checks against a copy of the contexts and a set of hashes. */
  function DryRun(known: set<Hash>, ctx: Contexts, txs: seq<seq<byte>>, skew: u64): Option<ApplyError>
    decreases |txs|
  {
    if txs == [] then None
    else
      match Check(known, ctx, txs[0], skew)
      case Some(err) => Some(err)
      case None =>
        var e := DecodeEvent(txs[0]).value;
        DryRun(known + {HashEvent(e)}, Touch(ctx, e), txs[1..], skew)
  }

  /** The dry run predicts the real run exactly, error included. */
  lemma {:induction false} DryRunExact(b: Books, txs: seq<seq<byte>>, skew: u64)
    ensures DryRun(Known(b), b.ctx, txs, skew) ==
            match ApplyTxs(b, txs, skew) case Ok(_) => None case Err(err) => Some(err)
    decreases |txs|
  {
    if txs != [] && Check(Known(b), b.ctx, txs[0], skew).None? {
      var e := DecodeEvent(txs[0]).value;
      assert Known(Enter(b, e)) == Known(b) + {HashEvent(e)};
      DryRunExact(Enter(b, e), txs[1..], skew);
    }
  }

  lemma {:induction false} ApplyConcat(b: Books, s: seq<seq<byte>>, t: seq<seq<byte>>, skew: u64)
    ensures ApplyTxs(b, s + t, skew) ==
            match ApplyTxs(b, s, skew) case Ok(b') => ApplyTxs(b', t, skew) case Err(err) => Err(err)
    decreases |s|
  {
    if s == [] {
      assert s + t == t;
    } else {
      assert (s + t)[1..] == s[1..] + t;
      if Check(Known(b), b.ctx, s[0], skew).None? {
        ApplyConcat(Enter(b, DecodeEvent(s[0]).value), s[1..], t, skew);
      }
    }
  }

  lemma {:induction false} ApplyKeeps(b: Books, txs: seq<seq<byte>>, skew: u64)
    requires WellFormed(b.ledger) && ApplyTxs(b, txs, skew).Ok?
    ensures WellFormed(ApplyTxs(b, txs, skew).value.ledger)
    decreases |txs|
  {
    if txs != [] {
      var e := DecodeEvent(txs[0]).value;
      LinkKeeps(b.ledger, e);
      ApplyKeeps(Enter(b, e), txs[1..], skew);
    }
  }

  // ---- Exactly which blocks are applied ----

  function Ev(tx: seq<byte>): Event
    requires |tx| == 169
  {
    DecodeEvent(tx).value
  }

  predicate AllDecode(txs: seq<seq<byte>>) {
    forall i :: 0 <= i < |txs| ==> |txs[i]| == 169
  }

  /** Signed, of the right version, and not too far behind the author's context. */
  predicate SignedInTime(ctx: Contexts, tx: seq<byte>, skew: u64)
    requires |tx| == 169
  {
    Authentic(Ev(tx)) && LastSeen(ctx, Ev(tx).author) <= SatAdd(Ev(tx).timestamp, skew)
  }

  /** Not too far behind an earlier transaction of the same author in the block. */
  ghost predicate NoStepBack(txs: seq<seq<byte>>, i: nat, skew: u64)
    requires AllDecode(txs) && i < |txs|
  {
    forall j :: 0 <= j < i && Ev(txs[j]).author == Ev(txs[i]).author ==>
      Ev(txs[j]).timestamp <= SatAdd(Ev(txs[i]).timestamp, skew)
  }

  ghost predicate New(known: set<Hash>, txs: seq<seq<byte>>, i: nat)
    requires i < |txs|
  {
    TxHash(txs[i]) !in known && forall j :: 0 <= j < i ==> TxHash(txs[j]) != TxHash(txs[i])
  }

  ghost predicate ParentKnown(known: set<Hash>, tx: seq<byte>)
    requires |tx| == 169
  {
    Ev(tx).prevHash == ZERO_HASH || Ev(tx).prevHash in known
  }

  ghost predicate ParentEarlier(txs: seq<seq<byte>>, i: nat)
    requires AllDecode(txs) && i < |txs|
  {
    exists j :: 0 <= j < i && TxHash(txs[j]) == Ev(txs[i]).prevHash
  }

  ghost predicate Applicable(known: set<Hash>, ctx: Contexts, txs: seq<seq<byte>>, i: nat, skew: u64)
    requires AllDecode(txs) && i < |txs|
  {
    && SignedInTime(ctx, txs[i], skew) && NoStepBack(txs, i, skew)
    && New(known, txs, i)
    && (ParentKnown(known, txs[i]) || ParentEarlier(txs, i))
  }

  lemma CheckExact(known: set<Hash>, ctx: Contexts, tx: seq<byte>, skew: u64)
    ensures Check(known, ctx, tx, skew).None? <==>
            |tx| == 169 && SignedInTime(ctx, tx, skew) && TxHash(tx) !in known && ParentKnown(known, tx)
  {
    MaterialDecode(tx);
  }

  /** And why a transaction is refused: its length, its version, its signature, its timestamp, a
  known hash, or an unknown parent, in this order. */
  lemma CheckErrors(known: set<Hash>, ctx: Contexts, tx: seq<byte>, skew: u64)
    ensures Check(known, ctx, tx, skew) ==
            if |tx| != 169 then Some(BadLength)
            else if tx[0] != 1 then Some(Rejected(InvalidVersion))
            else if !Ed25519Verify(tx[33..65], tx[..105], tx[105..]) then Some(Rejected(InvalidSignature))
            else if LastSeen(ctx, tx[33..65]) > FromLe(tx[65..73]) + skew
            then Some(Rejected(TimestampNonMonotonic))
            else if TxHash(tx) in known then Some(Unlinked(Duplicate))
            else if tx[1..33] != ZERO_HASH && tx[1..33] !in known then Some(Unlinked(MissingParent))
            else None
  {
    MaterialDecode(tx);
    if |tx| == 169 {
      MaterialLayout(Ev(tx));
      assert tx[105..169] == tx[105..];
    }
  }

  lemma ShiftTime(ctx: Contexts, txs: seq<seq<byte>>, i: nat, skew: u64)
    requires AllDecode(txs) && 0 < i < |txs|
    ensures SignedInTime(ctx, txs[i], skew) && NoStepBack(txs, i, skew) <==>
            SignedInTime(Touch(ctx, Ev(txs[0])), txs[i], skew) && NoStepBack(txs[1..], i - 1, skew)
  {
    var rest := txs[1..];
    assert forall j :: 0 <= j < |rest| ==> rest[j] == txs[j + 1];
    if NoStepBack(rest, i - 1, skew) {
      forall j | 0 < j < i && Ev(txs[j]).author == Ev(txs[i]).author
        ensures Ev(txs[j]).timestamp <= SatAdd(Ev(txs[i]).timestamp, skew)
      {
        assert txs[j] == rest[j - 1];
      }
    }
  }

  lemma ShiftNew(known: set<Hash>, txs: seq<seq<byte>>, i: nat)
    requires 0 < i < |txs|
    ensures New(known, txs, i) <==> New(known + {TxHash(txs[0])}, txs[1..], i - 1)
  {
    var rest := txs[1..];
    assert forall j :: 0 <= j < |rest| ==> rest[j] == txs[j + 1];
    if New(known + {TxHash(txs[0])}, rest, i - 1) {
      forall j | 0 < j < i ensures TxHash(txs[j]) != TxHash(txs[i]) {
        assert txs[j] == rest[j - 1];
      }
    }
  }

  lemma ShiftParent(known: set<Hash>, txs: seq<seq<byte>>, i: nat)
    requires AllDecode(txs) && 0 < i < |txs|
    ensures ParentKnown(known, txs[i]) || ParentEarlier(txs, i) <==>
            ParentKnown(known + {TxHash(txs[0])}, txs[i]) || ParentEarlier(txs[1..], i - 1)
  {
    var rest := txs[1..];
    if ParentEarlier(txs, i) {
      var j :| 0 <= j < i && TxHash(txs[j]) == Ev(txs[i]).prevHash;
      if j > 0 { assert rest[j - 1] == txs[j]; }
    }
    if ParentEarlier(rest, i - 1) {
      var j :| 0 <= j < i - 1 && TxHash(rest[j]) == Ev(rest[i - 1]).prevHash;
      assert TxHash(txs[j + 1]) == Ev(txs[i]).prevHash;
    }
  }

  lemma ShiftApplicable(known: set<Hash>, ctx: Contexts, txs: seq<seq<byte>>, i: nat, skew: u64)
    requires AllDecode(txs) && 0 < i < |txs|
    ensures Applicable(known, ctx, txs, i, skew) <==>
            Applicable(known + {TxHash(txs[0])}, Touch(ctx, Ev(txs[0])), txs[1..], i - 1, skew)
  {
    assert txs[1..][i - 1] == txs[i];
    ShiftTime(ctx, txs, i, skew);
    ShiftNew(known, txs, i);
    ShiftParent(known, txs, i);
  }

  ghost predicate AllApplicable(known: set<Hash>, ctx: Contexts, txs: seq<seq<byte>>, skew: u64) {
    AllDecode(txs) && forall i :: 0 <= i < |txs| ==> Applicable(known, ctx, txs, i, skew)
  }

  lemma AllApplicableCons(known: set<Hash>, ctx: Contexts, txs: seq<seq<byte>>, skew: u64)
    requires txs != []
    ensures AllApplicable(known, ctx, txs, skew) <==>
            && Check(known, ctx, txs[0], skew).None?
            && AllApplicable(known + {TxHash(txs[0])}, Touch(ctx, Ev(txs[0])), txs[1..], skew)
  {
    CheckExact(known, ctx, txs[0], skew);
    var rest := txs[1..];
    assert forall j :: 0 <= j < |rest| ==> rest[j] == txs[j + 1];
    if |txs[0]| == 169 && AllDecode(rest) {
      forall i | 0 <= i < |txs| ensures |txs[i]| == 169 {
        if i > 0 { assert txs[i] == rest[i - 1]; }
      }
      assert Applicable(known, ctx, txs, 0, skew) <==> Check(known, ctx, txs[0], skew).None?;
      forall i | 0 < i < |txs|
        ensures Applicable(known, ctx, txs, i, skew) <==>
                Applicable(known + {TxHash(txs[0])}, Touch(ctx, Ev(txs[0])), rest, i - 1, skew)
      {
        ShiftApplicable(known, ctx, txs, i, skew);
      }
      if AllApplicable(known, ctx, txs, skew) {
        forall k | 0 <= k < |rest|
          ensures Applicable(known + {TxHash(txs[0])}, Touch(ctx, Ev(txs[0])), rest, k, skew)
        {
          assert Applicable(known, ctx, txs, k + 1, skew);
        }
      }
    }
  }

  /** A block is applied exactly when each of its transactions is applicable, given those before it. */
  lemma {:induction false} ApplyExact(b: Books, txs: seq<seq<byte>>, skew: u64)
    ensures ApplyTxs(b, txs, skew).Ok? <==> AllApplicable(Known(b), b.ctx, txs, skew)
    decreases |txs|
  {
    if txs != [] {
      AllApplicableCons(Known(b), b.ctx, txs, skew);
      if Check(Known(b), b.ctx, txs[0], skew).None? {
        CheckExact(Known(b), b.ctx, txs[0], skew);
        var e := Ev(txs[0]);
        MaterialDecode(txs[0]);
        assert Known(Enter(b, e)) == Known(b) + {TxHash(txs[0])};
        ApplyExact(Enter(b, e), txs[1..], skew);
      }
    }
  }
}
