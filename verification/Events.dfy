/** Events, their canonical encoding, and the transaction decoder of the BFT node. */
module Events {
  import opened Base

  const PROTOCOL_VERSION: byte := 1

  datatype Event = Event(
    version: byte,
    prevHash: Hash,
    author: PublicKey,
    timestamp: u64,
    payloadHash: Hash,
    signature: Signature)

  /** What is signed: everything but the signature. */
  function CanonicalBytes(e: Event): (s: seq<byte>)
    ensures |s| == 105
  {
    [e.version] + e.prevHash + e.author + U64Bytes(e.timestamp) + e.payloadHash
  }

  /** What is hashed: the canonical bytes followed by the signature. */
  function HashMaterial(e: Event): (s: seq<byte>)
    ensures |s| == 169
  {
    CanonicalBytes(e) + e.signature
  }

  function HashEvent(e: Event): Hash {
    Sha(HashMaterial(e))
  }

  function TxHash(tx: seq<byte>): Hash {
    Sha(tx)
  }

  function ReadU64(s: seq<byte>): u64
    requires |s| == 8
  {
    ToFromLe(s);
    U64Width();
    FromLe(s)
  }

  function DecodeEvent(tx: seq<byte>): Option<Event> {
    if |tx| != 1 + 32 + 32 + 8 + 32 + 64 then None
    else Some(Event(tx[0], tx[1..33], tx[33..65], ReadU64(tx[65..73]), tx[73..105], tx[105..169]))
  }

  /** Where each field stands: version, parent, author, timestamp in little-endian order, payload
  hash, signature; the signed part is all but the last. */
  lemma MaterialLayout(e: Event)
    ensures var tx := HashMaterial(e);
            && tx[0] == e.version && tx[1..33] == e.prevHash && tx[33..65] == e.author
            && FromLe(tx[65..73]) == e.timestamp && tx[73..105] == e.payloadHash && tx[105..] == e.signature
            && CanonicalBytes(e) == tx[..105]
  {
    var tx := HashMaterial(e);
    assert tx[1..33] == e.prevHash && tx[33..65] == e.author && tx[65..73] == U64Bytes(e.timestamp);
    U64BytesBack(e.timestamp);
  }

  /** Decoding undoes encoding. */
  lemma DecodeMaterial(e: Event)
    ensures DecodeEvent(HashMaterial(e)) == Some(e)
  {
    MaterialLayout(e);
    assert HashMaterial(e)[105..169] == HashMaterial(e)[105..];
  }

  /** Encoding undoes decoding, so a transaction and its event have one hash. */
  lemma MaterialDecode(tx: seq<byte>)
    ensures DecodeEvent(tx).Some? <==> |tx| == 169
    ensures DecodeEvent(tx).Some? ==>
      HashMaterial(DecodeEvent(tx).value) == tx && HashEvent(DecodeEvent(tx).value) == TxHash(tx)
  {
    if |tx| == 169 {
      var e := DecodeEvent(tx).value;
      ToFromLe(tx[65..73]);
      assert U64Bytes(e.timestamp) == tx[65..73];
      assert [e.version] + e.prevHash == tx[..33];
      assert tx[..33] + e.author == tx[..65];
      assert tx[..65] + U64Bytes(e.timestamp) == tx[..73];
      assert tx[..73] + e.payloadHash == tx[..105];
      assert tx[..105] + e.signature == tx;
    }
  }

  lemma MaterialInjective(a: Event, b: Event)
    requires HashMaterial(a) == HashMaterial(b)
    ensures a == b
  {
    DecodeMaterial(a);
    DecodeMaterial(b);
  }
}
