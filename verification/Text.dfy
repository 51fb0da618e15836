/** The text forms a manifest is made of: decimal numbers, hexadecimal bytes, and lines. */
module Text {
  import opened Base

  // ---- Decimal ----

  function Digit(d: nat): char
    requires d < 10
  {
    ('0' as int + d) as char
  }

  predicate IsDigit(c: char) {
    '0' <= c <= '9'
  }

  function Digits(n: nat): (s: string)
    ensures s != [] && forall i :: 0 <= i < |s| ==> IsDigit(s[i])
  {
    if n < 10 then [Digit(n)] else Digits(n / 10) + [Digit(n % 10)]
  }

  function Value(s: string): nat
    requires forall i :: 0 <= i < |s| ==> IsDigit(s[i])
  {
    if s == [] then 0
    else
      assert IsDigit(s[|s| - 1]);
      10 * Value(s[..|s| - 1]) + (s[|s| - 1] as int - '0' as int)
  }

  /** `str::parse::<u64>`: an optional plus sign, digits, and no overflow. */
  function ParseU64(s: string): Option<u64> {
    var t := if s != [] && s[0] == '+' then s[1..] else s;
    if t != [] && (forall i :: 0 <= i < |t| ==> IsDigit(t[i])) && Value(t) <= U64_MAX then Some(Value(t)) else None
  }

  lemma {:induction false} ValueDigits(n: nat)
    ensures Value(Digits(n)) == n
  {
    if n >= 10 {
      ValueDigits(n / 10);
      assert Digits(n)[..|Digits(n)| - 1] == Digits(n / 10);
    }
  }

  /** No leading zero. */
  lemma {:induction false} DigitsLead(n: nat)
    requires n > 0
    ensures Digits(n)[0] != '0'
  {
    if n >= 10 { DigitsLead(n / 10); }
  }

  lemma ParseDigits(n: u64)
    ensures ParseU64(Digits(n)) == Some(n)
  {
    ValueDigits(n);
    assert IsDigit(Digits(n)[0]);
  }

  // ---- Hexadecimal ----

  function HexDigit(d: nat): char
    requires d < 16
  {
    if d < 10 then Digit(d) else ('a' as int + d - 10) as char
  }

  function HexValue(c: char): Option<nat> {
    if '0' <= c <= '9' then Some(c as int - '0' as int)
    else if 'a' <= c <= 'f' then Some(c as int - 'a' as int + 10)
    else if 'A' <= c <= 'F' then Some(c as int - 'A' as int + 10)
    else None
  }

  function Hex(b: seq<byte>): (s: string)
    ensures |s| == 2 * |b|
    ensures forall i :: 0 <= i < |s| ==> HexValue(s[i]).Some?
  {
    if b == [] then []
    else
      var x := b[0] as int;
      [HexDigit(x / 16), HexDigit(x % 16)] + Hex(b[1..])
  }

  function Unhex(s: string): Option<seq<byte>> {
    if s == [] then Some([])
    else if |s| == 1 then None
    else
      var hi, lo, rest := HexValue(s[0]), HexValue(s[1]), Unhex(s[2..]);
      if hi.None? || lo.None? || rest.None? || hi.value >= 16 || lo.value >= 16 then None
      else Some([(hi.value * 16 + lo.value) as byte] + rest.value)
  }

  /** Lower-case digits, the high half of a byte first. */
  lemma {:induction false} HexAt(b: seq<byte>, k: nat)
    requires k < |b|
    ensures Hex(b)[2 * k] == "0123456789abcdef"[b[k] as int / 16] && Hex(b)[2 * k + 1] == "0123456789abcdef"[b[k] as int % 16]
  {
    if k > 0 {
      HexAt(b[1..], k - 1);
      assert Hex(b)[2 * k] == Hex(b[1..])[2 * (k - 1)] && Hex(b)[2 * k + 1] == Hex(b[1..])[2 * (k - 1) + 1];
    }
  }

  lemma HexPair(x: nat)
    requires x < 256
    ensures HexValue(HexDigit(x / 16)) == Some(x / 16) && HexValue(HexDigit(x % 16)) == Some(x % 16)
  {
  }

  lemma {:induction false} UnhexHex(b: seq<byte>)
    ensures Unhex(Hex(b)) == Some(b)
  {
    if b != [] {
      HexPair(b[0] as int);
      UnhexHex(b[1..]);
      assert Hex(b)[2..] == Hex(b[1..]);
      assert [b[0]] + b[1..] == b;
    }
  }

  // ---- Lines ----

  predicate EndsWithCr(s: string) {
    s != [] && s[|s| - 1] == '\r'
  }

  function StripCr(s: string): string {
    if EndsWithCr(s) then s[..|s| - 1] else s
  }

  function FindNewline(s: string): (i: nat)
    ensures i <= |s| && '\n' !in s[..i] && (i < |s| ==> s[i] == '\n')
  {
    if s == [] || s[0] == '\n' then 0
    else
      assert s[..1 + FindNewline(s[1..])] == [s[0]] + s[1..][..FindNewline(s[1..])];
      1 + FindNewline(s[1..])
  }

  /** `str::lines`: a carriage return before the newline goes too, and the last line may lack
  its newline. */
  function Lines(s: string): seq<string>
    decreases |s|
  {
    if s == [] then []
    else
      var i := FindNewline(s);
      if i == |s| then [s] else [StripCr(s[..i])] + Lines(s[i + 1..])
  }

  lemma {:induction false} FindNewlineAfter(line: string, rest: string)
    requires '\n' !in line
    ensures FindNewline(line + ['\n'] + rest) == |line|
  {
    var s := line + ['\n'] + rest;
    var i := FindNewline(s);
    assert s[|line|] == '\n';
    assert forall k :: 0 <= k < |line| ==> s[k] == line[k];
    assert forall k :: 0 <= k < i ==> s[k] == s[..i][k];
  }

  lemma LinesCons(line: string, rest: string)
    requires '\n' !in line
    ensures Lines(line + ['\n'] + rest) == [StripCr(line)] + Lines(rest)
  {
    var s := line + ['\n'] + rest;
    FindNewlineAfter(line, rest);
    assert s[..|line|] == line && s[|line| + 1..] == rest;
  }

  lemma {:induction false} LinesHaveNoNewline(s: string, k: nat)
    requires k < |Lines(s)|
    ensures '\n' !in Lines(s)[k]
    decreases |s|
  {
    var i := FindNewline(s);
    if i == |s| {
      assert s[..i] == s;
    } else if k > 0 {
      LinesHaveNoNewline(s[i + 1..], k - 1);
    }
  }
}
