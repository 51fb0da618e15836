/** Length-prefixed frames over a byte stream: decoding does not depend on how the stream is cut
into pieces. */
module Framing {
  import opened Base

  const MAX_FRAME: nat := 8_000_000

  /** Whether a payload is a message in JSON. */
  const Parses: seq<byte> -> bool

  function Frame(payload: seq<byte>): (s: seq<byte>)
    ensures |s| == 4 + |payload|
  {
    ToLe(|payload|, 4) + payload
  }

  /** What a peer puts on the wire for a list of payloads. */
  function Wire(payloads: seq<seq<byte>>): seq<byte> {
    if payloads == [] then [] else Frame(payloads[0]) + Wire(payloads[1..])
  }

  /** `write_message`: the length is cast to 32 bits, then the two writes. */
  function Written(payload: seq<byte>): seq<byte> {
    ToLe(|payload| % 0x1_0000_0000, 4) + payload
  }

  method WriteMessage(stream: seq<byte>, payload: seq<byte>) returns (r: seq<byte>)
    ensures r == stream + Written(payload)
    ensures |payload| < 0x1_0000_0000 ==> r == stream + Frame(payload)
  {
    var len := |payload| % 0x1_0000_0000;
    r := stream + ToLe(len, 4);
    r := r + payload;
  }

  predicate Sendable(payloads: seq<seq<byte>>) {
    forall i :: 0 <= i < |payloads| ==> 1 <= |payloads[i]| <= 8_000_000 && Parses(payloads[i])
  }

  datatype Decoded = More | BadLength | BadPayload | Payload(data: seq<byte>)

  function Decode(buf: seq<byte>): (Decoded, seq<byte>) {
    if |buf| < 4 then (More, buf)
    else
      var len := FromLe(buf[..4]);
      if len == 0 || len > MAX_FRAME then (BadLength, buf)
      else if |buf| < 4 + len then (More, buf)
      else (if Parses(buf[4..4 + len]) then Payload(buf[4..4 + len]) else BadPayload, buf[4 + len..])
  }

  class Connection {
    var buf: seq<byte>

    constructor ()
      ensures buf == []
    {
      buf := [];
    }

    method ReadIntoBuffer(data: seq<byte>)
      modifies this
      ensures buf == old(buf) + data
    {
      buf := buf + data;
    }

    /** The frame is taken out of the buffer before its payload is parsed. */
    method TryDecode() returns (r: Decoded)
      modifies this
      ensures (r, buf) == Decode(old(buf))
    {
      if |buf| < 4 {
        return More;
      }
      var len := FromLe(buf[..4]);
      if len == 0 || len > MAX_FRAME {
        return BadLength;
      }
      if |buf| < 4 + len {
        return More;
      }
      var data := buf[4..4 + len];
      buf := buf[4 + len..];
      if !Parses(data) {
        return BadPayload;
      }
      return Payload(data);
    }

    /** The reader's loop: after each read it takes out every whole frame. */
    method Pump(data: seq<byte>) returns (got: seq<seq<byte>>, ok: bool)
      modifies this
      ensures Outcome(got, buf, ok) == Drained(old(buf) + data)
    {
      ReadIntoBuffer(data);
      got := [];
      PrependTwice(got, got, Drained(buf));
      while true
        invariant Drained(old(buf) + data) == Prepend(got, Drained(buf))
        decreases |buf|
      {
        var r := TryDecode();
        match r {
          case More =>
            assert got + [] == got;
            return got, true;
          case BadLength =>
            assert got + [] == got;
            return got, false;
          case BadPayload =>
            assert got + [] == got;
            return got, false;
          case Payload(p) =>
            PrependTwice(got, [p], Drained(buf));
            got := got + [p];
        }
      }
    }
  }

  function Drained(buf: seq<byte>): Outcome
    decreases |buf|
  {
    match Decode(buf).0
    case More => Outcome([], buf, true)
    case BadLength => Outcome([], buf, false)
    case BadPayload => Outcome([], Decode(buf).1, false)
    case Payload(p) => Prepend([p], Drained(Decode(buf).1))
  }

  /** The payloads taken out, what is left in the buffer, and whether the connection stands. */
  datatype Outcome = Outcome(got: seq<seq<byte>>, left: seq<byte>, ok: bool)

  function Prepend(got: seq<seq<byte>>, r: Outcome): Outcome {
    Outcome(got + r.got, r.left, r.ok)
  }

  lemma PrependTwice(a: seq<seq<byte>>, b: seq<seq<byte>>, r: Outcome)
    ensures Prepend(a, Prepend(b, r)) == Prepend(a + b, r)
    ensures Prepend([], r) == r
  {
    assert a + (b + r.got) == (a + b) + r.got;
    assert [] + r.got == r.got;
  }

  /** Read after read; after a bad length the connection is dropped and nothing more is read. */
  function Received(buf: seq<byte>, pieces: seq<seq<byte>>): Outcome
    decreases |pieces|
  {
    if pieces == [] then Outcome([], buf, true)
    else
      var d := Drained(buf + pieces[0]);
      if !d.ok then d else Prepend(d.got, Received(d.left, pieces[1..]))
  }

  function Joined(pieces: seq<seq<byte>>): seq<byte> {
    if pieces == [] then [] else pieces[0] + Joined(pieces[1..])
  }

  // ---- Encoding and decoding ----

  lemma DecodeFrame(payload: seq<byte>, rest: seq<byte>)
    requires 1 <= |payload| <= MAX_FRAME
    ensures Decode(Frame(payload) + rest) == (if Parses(payload) then Payload(payload) else BadPayload, rest)
  {
    var buf := Frame(payload) + rest;
    LengthField(|payload|);
    assert buf[..4] == ToLe(|payload|, 4);
    assert buf[4..4 + |payload|] == payload;
    assert buf[4 + |payload|..] == rest;
  }

  /** Decoding sees no further than it must: bytes to come do not change a verdict. */
  lemma DecodeStable(buf: seq<byte>, more: seq<byte>)
    requires !Decode(buf).0.More?
    ensures Decode(buf + more).0 == Decode(buf).0
    ensures Decode(buf).0.Payload? || Decode(buf).0.BadPayload? ==> Decode(buf + more).1 == Decode(buf).1 + more
  {
    assert (buf + more)[..4] == buf[..4];
    var len := FromLe(buf[..4]);
    if !Decode(buf).0.BadLength? {
      assert (buf + more)[4..4 + len] == buf[4..4 + len];
      assert (buf + more)[4 + len..] == buf[4 + len..] + more;
    }
  }

  /** Draining early and then draining the rest is draining at the end. */
  lemma {:induction false} DrainedSplit(buf: seq<byte>, more: seq<byte>)
    ensures var d := Drained(buf);
            if d.ok then Drained(buf + more) == Prepend(d.got, Drained(d.left + more))
            else Drained(buf + more).got == d.got && !Drained(buf + more).ok
    decreases |buf|
  {
    if Decode(buf).0.More? {
      PrependTwice([], [], Drained(buf + more));
    } else {
      DecodeStable(buf, more);
      if Decode(buf).0.Payload? {
        var rest := Decode(buf).1;
        DrainedSplit(rest, more);
        PrependTwice([Decode(buf).0.data], Drained(rest).got, Drained(Drained(rest).left + more));
      }
    }
  }

  /** The payloads, the leftover and the verdict are those of the whole stream at once. */
  lemma {:induction false} ReadsDoNotMatter(buf: seq<byte>, pieces: seq<seq<byte>>)
    requires Drained(buf) == Outcome([], buf, true)
    ensures var whole := Drained(buf + Joined(pieces));
            && Received(buf, pieces).got == whole.got && Received(buf, pieces).ok == whole.ok
            && (whole.ok ==> Received(buf, pieces) == whole)
    decreases |pieces|
  {
    if pieces == [] {
      assert buf + [] == buf;
    } else {
      var d, rest := Drained(buf + pieces[0]), Joined(pieces[1..]);
      assert buf + Joined(pieces) == (buf + pieces[0]) + rest;
      DrainedSplit(buf + pieces[0], rest);
      if d.ok {
        DrainedRests(buf + pieces[0]);
        ReadsDoNotMatter(d.left, pieces[1..]);
      }
    }
  }

  lemma {:induction false} DrainedRests(buf: seq<byte>)
    ensures Drained(buf).ok ==> Drained(Drained(buf).left) == Outcome([], Drained(buf).left, true)
    decreases |buf|
  {
    if Decode(buf).0.Payload? {
      DrainedRests(Decode(buf).1);
    }
  }

  lemma WireCons(payloads: seq<seq<byte>>, tail: seq<byte>)
    requires payloads != []
    ensures Wire(payloads) + tail == Frame(payloads[0]) + (Wire(payloads[1..]) + tail)
  {
  }

  lemma {:induction false} DrainedWire(payloads: seq<seq<byte>>, tail: seq<byte>)
    requires Sendable(payloads)
    ensures Drained(Wire(payloads) + tail) == Prepend(payloads, Drained(tail))
    decreases |payloads|
  {
    if payloads == [] {
      assert [] + tail == tail;
      PrependTwice([], [], Drained(tail));
    } else {
      WireCons(payloads, tail);
      DecodeFrame(payloads[0], Wire(payloads[1..]) + tail);
      DrainedWire(payloads[1..], tail);
      PrependTwice([payloads[0]], payloads[1..], Drained(tail));
      assert [payloads[0]] + payloads[1..] == payloads;
    }
  }

  /** An incomplete frame: too short for its length, or for what its length announces. */
  ghost predicate Incomplete(tail: seq<byte>, payload: seq<byte>) {
    |tail| < |Frame(payload)| && tail <= Frame(payload)
  }

  lemma IncompleteWaits(tail: seq<byte>, payload: seq<byte>)
    requires 1 <= |payload| <= MAX_FRAME && Incomplete(tail, payload)
    ensures Drained(tail) == Outcome([], tail, true)
  {
    if |tail| >= 4 {
      LengthField(|payload|);
      assert tail[..4] == Frame(payload)[..4] == ToLe(|payload|, 4);
    }
  }

  /** Framing is independent of read boundaries: however the frames of a list of payloads, and
  part of one more, are cut into pieces, exactly that list comes out, in order, and exactly the
  part is left in the buffer. */
  lemma FramesArrive(payloads: seq<seq<byte>>, next: seq<byte>, tail: seq<byte>, pieces: seq<seq<byte>>)
    requires Sendable(payloads) && 1 <= |next| <= 8_000_000 && Incomplete(tail, next)
    requires Joined(pieces) == Wire(payloads) + tail
    ensures Received([], pieces) == Outcome(payloads, tail, true)
  {
    assert [] + Joined(pieces) == Joined(pieces);
    ReadsDoNotMatter([], pieces);
    DrainedWire(payloads, tail);
    IncompleteWaits(tail, next);
    assert payloads + [] == payloads;
  }

  /** Empty, over the limit, or not a message. */
  predicate Refused(bad: seq<byte>) {
    |bad| < 0x1_0000_0000 && (|bad| == 0 || |bad| > 8_000_000 || !Parses(bad))
  }

  /** A frame that is refused ends the connection after exactly the payloads before it. */
  lemma BadFrameEnds(payloads: seq<seq<byte>>, bad: seq<byte>, tail: seq<byte>, pieces: seq<seq<byte>>)
    requires Sendable(payloads) && Refused(bad)
    requires Joined(pieces) == Wire(payloads) + (Frame(bad) + tail)
    ensures Received([], pieces).got == payloads && !Received([], pieces).ok
  {
    assert [] + Joined(pieces) == Joined(pieces);
    ReadsDoNotMatter([], pieces);
    DrainedWire(payloads, Frame(bad) + tail);
    BadFrame(bad, tail);
  }

  lemma BadFrame(bad: seq<byte>, tail: seq<byte>)
    requires Refused(bad)
    ensures !Drained(Frame(bad) + tail).ok && Drained(Frame(bad) + tail).got == []
  {
    if 1 <= |bad| <= MAX_FRAME {
      DecodeFrame(bad, tail);
    } else {
      LengthField(|bad|);
      assert (Frame(bad) + tail)[..4] == ToLe(|bad|, 4);
    }
  }

  lemma LengthField(n: nat)
    requires n < 0x1_0000_0000
    ensures FromLe(ToLe(n, 4)) == n
  {
    assert Pow256(4) == 256 * Pow256(3);
    assert Pow256(2) == 256 * Pow256(1);
    FromToLe(n, 4);
  }

  /** What is written for a message is read back as that message exactly when its length is within
  the limit and it parses, whatever the 32-bit cast does to longer ones. */
  lemma WrittenReadsBack(payload: seq<byte>)
    ensures Decode(Written(payload)) == (Payload(payload), []) <==> 1 <= |payload| <= 8_000_000 && Parses(payload)
  {
    var buf, len := Written(payload), |payload| % 0x1_0000_0000;
    LengthField(len);
    assert buf[..4] == ToLe(len, 4);
    if 1 <= |payload| <= MAX_FRAME {
      assert buf[4..4 + len] == payload && buf[4 + len..] == [];
    } else if 1 <= len <= MAX_FRAME && len <= |payload| {
      assert |buf[4..4 + len]| == len;
    }
  }
}
