/** Bytes, fixed-width integers, hashes and the two cryptographic primitives.

SHA-256 (section 6.2 of FIPS 180-4) and Ed25519 (section 5.1 of RFC 8032) are
constants without a value: an arbitrary but fixed function each. No law about
them is built in. Where a result needs one it is a precondition, and it speaks
only of the finitely many strings at hand: a function from all strings to 32
bytes cannot be injective, but it can be on the strings hashed in one run. */
module Base {
  newtype byte = x: int | 0 <= x < 256

  const U64_MAX: int := 0xFFFF_FFFF_FFFF_FFFF
  type u64 = x: int | 0 <= x <= U64_MAX

  type Hash = h: seq<byte> | |h| == 32 witness seq(32, _ => 0)
  type PublicKey = Hash
  type NodeId = Hash
  type Signature = s: seq<byte> | |s| == 64 witness seq(64, _ => 0)

  const ZERO_HASH: Hash := ToLe(0, 32)

  const Sha256: seq<byte> -> Hash
  const Ed25519Verify: (PublicKey, seq<byte>, seq<byte>) -> bool
  const Ed25519Sign: (NodeId, seq<byte>) -> Signature

  function Sha(data: seq<byte>): Hash {
    Sha256(data)
  }

  /** No two different strings of `inputs` have the same digest. */
  ghost predicate CollisionFree(inputs: set<seq<byte>>) {
    forall x, y :: x in inputs && y in inputs && Sha(x) == Sha(y) ==> x == y
  }

  datatype Option<+T> = None | Some(value: T)
  datatype Result<+T, +E> = Ok(value: T) | Err(error: E)

  function SatAdd(a: u64, b: u64): u64 {
    if a + b > U64_MAX then U64_MAX else a + b
  }

  function Saturated(n: nat): u64 {
    if n > U64_MAX then U64_MAX else n
  }

  function SatSub(a: u64, b: u64): u64 {
    if a < b then 0 else a - b
  }

  function SatMul(a: u64, b: u64): u64
    ensures SatMul(a, b) <= a * b
  {
    if a * b > U64_MAX then U64_MAX else assert a * b >= 0 by { MulNonNegative(a, b); } a * b
  }

  lemma MulNonNegative(a: int, b: int)
    requires a >= 0 && b >= 0
    ensures a * b >= 0
  {
  }

  // ---- Little-endian integers ----

  function Pow256(n: nat): nat {
    if n == 0 then 1 else 256 * Pow256(n - 1)
  }

  /** The `n` low bytes of `x`, least significant first (`to_le_bytes`). */
  function ToLe(x: nat, n: nat): (s: seq<byte>)
    ensures |s| == n
  {
    if n == 0 then [] else [(x % 256) as byte] + ToLe(x / 256, n - 1)
  }

  function FromLe(s: seq<byte>): nat {
    if s == [] then 0 else s[0] as int + 256 * FromLe(s[1..])
  }

  lemma {:induction false} FromToLe(x: nat, n: nat)
    requires x < Pow256(n)
    ensures FromLe(ToLe(x, n)) == x
  {
    if n > 0 {
      FromToLe(x / 256, n - 1);
      assert ToLe(x, n)[1..] == ToLe(x / 256, n - 1);
    }
  }

  lemma {:induction false} ToFromLe(s: seq<byte>)
    ensures FromLe(s) < Pow256(|s|)
    ensures ToLe(FromLe(s), |s|) == s
  {
    if s != [] {
      ToFromLe(s[1..]);
      assert FromLe(s) % 256 == s[0] as int && FromLe(s) / 256 == FromLe(s[1..]);
    }
  }

  /** Byte `k` is the one of weight 256^k. */
  lemma {:induction false} ToLeAt(x: nat, n: nat, k: nat)
    requires k < n
    ensures Pow256(k) > 0 && ToLe(x, n)[k] as int == x / Pow256(k) % 256
    decreases n
  {
    if k > 0 {
      ToLeAt(x / 256, n - 1, k - 1);
      DivTwice(x, 256, Pow256(k - 1));
    }
  }

  lemma DivTwice(x: nat, a: nat, b: nat)
    requires a > 0 && b > 0
    ensures a * b > 0 && x / a / b == x / (a * b)
  {
    var q, r := x / a, x % a;
    var q', r' := q / b, q % b;
    SplitProduct(a, b, q', r', r);
    QuotientIs(x, a * b, q', a * r' + r);
  }

  lemma SplitProduct(a: nat, b: nat, q: nat, r': nat, r: nat)
    requires a > 0 && r' < b && r < a
    ensures a * (b * q + r') + r == (a * b) * q + (a * r' + r) && 0 <= a * r' + r < a * b
  {
    assert a * (b * q + r') == a * (b * q) + a * r';
    assert a * (b * q) == (a * b) * q;
    MulMonotone(a, r', b - 1);
    assert a * (b - 1) == a * b - a;
  }

  lemma MulMonotone(a: nat, x: nat, y: nat)
    requires x <= y
    ensures 0 <= a * x <= a * y
  {
  }

  lemma QuotientIs(x: int, d: int, q: int, r: int)
    requires d > 0 && 0 <= r < d && x == d * q + r
    ensures x / d == q && x % d == r
  {
    var q', r' := x / d, x % d;
    assert x == d * q' + r';
    assert d * (q - q') == d * q - d * q';
    SameMultiple(d, q - q', r' - r);
  }

  lemma SameMultiple(d: int, k: int, e: int)
    requires d > 0 && d * k == e && -d < e < d
    ensures k == 0 && e == 0
  {
    if k >= 1 {
      MulLeast(d, k);
    } else if k <= -1 {
      assert d * -k == -(d * k);
      MulLeast(d, -k);
    }
  }

  lemma MulLeast(d: int, k: int)
    requires d > 0 && k >= 1
    ensures d * k >= d
  {
  }

  lemma U64Width()
    ensures Pow256(8) == U64_MAX + 1
  {
    assert Pow256(2) == 256 * Pow256(1);
    assert Pow256(4) == 256 * Pow256(3);
    assert Pow256(6) == 256 * Pow256(5);
  }

  /** Eight bytes, as the protocol writes every `u64`. */
  function U64Bytes(x: u64): (s: seq<byte>)
    ensures |s| == 8
  {
    ToLe(x, 8)
  }

  lemma U64BytesBack(x: u64)
    ensures FromLe(U64Bytes(x)) == x
  {
    U64Width();
    FromToLe(x, 8);
  }

  lemma U64BytesInjective(x: u64, y: u64)
    requires U64Bytes(x) == U64Bytes(y)
    ensures x == y
  {
    U64BytesBack(x);
    U64BytesBack(y);
  }

  // ---- Lexicographic order on byte strings ----

  predicate Less(a: seq<byte>, b: seq<byte>) {
    if a == [] || b == [] then a == [] && b != []
    else a[0] < b[0] || (a[0] == b[0] && Less(a[1..], b[1..]))
  }

  /** The first byte that differs decides, and a shorter string comes before its extensions. */
  lemma {:induction false} LessExact(a: seq<byte>, b: seq<byte>)
    ensures Less(a, b) <==>
            exists k :: 0 <= k <= |a| && k < |b| && a[..k] == b[..k] && (k == |a| || a[k] < b[k])
  {
    if a == [] {
      if b != [] { assert a[..0] == b[..0]; }
    } else if b != [] {
      LessExact(a[1..], b[1..]);
      if a[0] < b[0] {
        assert a[..0] == b[..0];
      }
      if k :| 0 <= k <= |a[1..]| && k < |b[1..]| && a[1..][..k] == b[1..][..k] && (k == |a[1..]| || a[1..][k] < b[1..][k]) {
        if a[0] == b[0] {
          assert a[..k + 1] == [a[0]] + a[1..][..k] && b[..k + 1] == [b[0]] + b[1..][..k];
        }
      }
      if k :| 0 < k <= |a| && k < |b| && a[..k] == b[..k] && (k == |a| || a[k] < b[k]) {
        assert a[0] == a[..k][0] && b[0] == b[..k][0];
        assert a[1..][..k - 1] == a[..k][1..] && b[1..][..k - 1] == b[..k][1..];
      }
    }
  }

  lemma {:induction false} LessTotal(a: seq<byte>, b: seq<byte>)
    ensures a == b || Less(a, b) || Less(b, a)
    ensures !(Less(a, b) && (a == b || Less(b, a)))
  {
    if a != [] && b != [] {
      LessTotal(a[1..], b[1..]);
      if a[0] == b[0] {
        assert a == [a[0]] + a[1..] && b == [b[0]] + b[1..];
      }
    }
  }

  lemma {:induction false} LessTransitive(a: seq<byte>, b: seq<byte>, c: seq<byte>)
    requires Less(a, b) && Less(b, c)
    ensures Less(a, c)
  {
    if a != [] && b != [] && c != [] && a[0] == b[0] == c[0] {
      LessTransitive(a[1..], b[1..], c[1..]);
    }
  }
}
