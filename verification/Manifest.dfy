/** The manifest of a chunked file: its text form and the parser. */
module Manifests {
  import opened Base
  import opened Text

  datatype Manifest = Manifest(
    version: byte, fileName: string, totalSize: u64, chunkSize: u64, chunks: seq<Hash>,
    signer: Option<PublicKey>, signature: Option<Signature>)

  const MAGIC: string := "dvel-manifest-v1"
  const FILE_NAME: string := "file_name:"
  const TOTAL_SIZE: string := "total_size:"
  const CHUNK_SIZE: string := "chunk_size:"
  const CHUNKS: string := "chunks:"
  const HASH: string := "h:"
  const SIGNER: string := "signer:"
  const SIGNATURE: string := "signature:"

  // ---- Printing ----

  function Head(m: Manifest): seq<string> {
    [MAGIC, FILE_NAME + m.fileName, TOTAL_SIZE + Digits(m.totalSize), CHUNK_SIZE + Digits(m.chunkSize),
     CHUNKS + Digits(|m.chunks|)]
  }

  function ChunkLines(chunks: seq<Hash>): seq<string> {
    if chunks == [] then [] else ChunkLines(chunks[..|chunks| - 1]) + [HASH + Hex(chunks[|chunks| - 1])]
  }

  /** The lines of the signed part, without their newlines. */
  function CanonicalLines(m: Manifest): seq<string> {
    Head(m) + ChunkLines(m.chunks)
  }

  function SignatureLines(m: Manifest): seq<string> {
    (if m.signer.Some? then [SIGNER + Hex(m.signer.value)] else [])
    + (if m.signature.Some? then [SIGNATURE + Hex(m.signature.value)] else [])
  }

  function Printed(lines: seq<string>): string {
    if lines == [] then [] else Printed(lines[..|lines| - 1]) + lines[|lines| - 1] + ['\n']
  }

  function Canonical(m: Manifest): string {
    Printed(CanonicalLines(m))
  }

  function Print(m: Manifest): string {
    Printed(CanonicalLines(m) + SignatureLines(m))
  }

  lemma PrintedSnoc(lines: seq<string>, line: string)
    ensures Printed(lines + [line]) == Printed(lines) + line + ['\n']
  {
    assert (lines + [line])[..|lines|] == lines;
  }

  method CanonicalString(m: Manifest) returns (out: string)
    ensures out == Canonical(m)
  {
    out := AppendLine([], [], MAGIC);
    ghost var lines := [MAGIC];
    out := AppendLine(out, lines, FILE_NAME + m.fileName);
    lines := lines + [FILE_NAME + m.fileName];
    out := AppendLine(out, lines, TOTAL_SIZE + Digits(m.totalSize));
    lines := lines + [TOTAL_SIZE + Digits(m.totalSize)];
    out := AppendLine(out, lines, CHUNK_SIZE + Digits(m.chunkSize));
    lines := lines + [CHUNK_SIZE + Digits(m.chunkSize)];
    out := AppendLine(out, lines, CHUNKS + Digits(|m.chunks|));
    lines := lines + [CHUNKS + Digits(|m.chunks|)];
    assert lines == Head(m) && lines + ChunkLines([]) == lines;
    for i := 0 to |m.chunks|
      invariant out == Printed(lines + ChunkLines(m.chunks[..i]))
    {
      assert m.chunks[..i + 1][..i] == m.chunks[..i];
      assert lines + ChunkLines(m.chunks[..i + 1]) == (lines + ChunkLines(m.chunks[..i])) + [HASH + Hex(m.chunks[i])];
      out := AppendLine(out, lines + ChunkLines(m.chunks[..i]), HASH + Hex(m.chunks[i]));
    }
    assert m.chunks[..|m.chunks|] == m.chunks;
    assert lines + ChunkLines(m.chunks) == CanonicalLines(m);
  }

  method AppendLine(out: string, ghost lines: seq<string>, line: string) returns (r: string)
    requires out == Printed(lines)
    ensures r == Printed(lines + [line])
  {
    PrintedSnoc(lines, line);
    r := out + line;
    r := r + ['\n'];
  }

  method ToStringWithSignature(m: Manifest) returns (out: string)
    ensures out == Print(m)
  {
    out := CanonicalString(m);
    ghost var lines := CanonicalLines(m);
    if m.signer.Some? {
      out := AppendLine(out, lines, SIGNER + Hex(m.signer.value));
      lines := lines + [SIGNER + Hex(m.signer.value)];
    }
    if m.signature.Some? {
      out := AppendLine(out, lines, SIGNATURE + Hex(m.signature.value));
      lines := lines + [SIGNATURE + Hex(m.signature.value)];
    }
    assert lines == CanonicalLines(m) + SignatureLines(m);
  }

  // ---- Parsing ----

  datatype ManifestError =
    BadHex | LengthMismatch | UnknownLine | NoFileName | NoTotalSize | NoChunkSize | CountMismatch

  datatype Draft = Draft(
    fileName: Option<string>, totalSize: Option<u64>, chunkSize: Option<u64>, declared: Option<u64>,
    chunks: seq<Hash>, signer: Option<PublicKey>, signature: Option<Signature>)

  const BLANK: Draft := Draft(None, None, None, None, [], None, None)

  function HexArray(s: string, n: nat): (r: Result<seq<byte>, ManifestError>)
    ensures r.Ok? ==> |r.value| == n
  {
    var b := Unhex(s);
    if b.None? then Err(BadHex) else if |b.value| != n then Err(LengthMismatch) else Ok(b.value)
  }

  /** One line of the text. A number that does not parse counts as absent. */
  function ReadLine(d: Draft, line: string): Result<Draft, ManifestError> {
    if line == [] || line == MAGIC then Ok(d)
    else if FILE_NAME <= line then Ok(d.(fileName := Some(line[|FILE_NAME|..])))
    else if TOTAL_SIZE <= line then Ok(d.(totalSize := ParseU64(line[|TOTAL_SIZE|..])))
    else if CHUNK_SIZE <= line then Ok(d.(chunkSize := ParseU64(line[|CHUNK_SIZE|..])))
    else if CHUNKS <= line then Ok(d.(declared := ParseU64(line[|CHUNKS|..])))
    else if HASH <= line then
      var h := HexArray(line[|HASH|..], 32);
      if h.Err? then Err(h.error) else Ok(d.(chunks := d.chunks + [h.value]))
    else if SIGNER <= line then
      var h := HexArray(line[|SIGNER|..], 32);
      if h.Err? then Err(h.error) else Ok(d.(signer := Some(h.value)))
    else if SIGNATURE <= line then
      var h := HexArray(line[|SIGNATURE|..], 64);
      if h.Err? then Err(h.error) else Ok(d.(signature := Some(h.value)))
    else Err(UnknownLine)
  }

  function ReadLines(d: Draft, lines: seq<string>): Result<Draft, ManifestError>
    decreases |lines|
  {
    if lines == [] then Ok(d)
    else
      var r := ReadLine(d, lines[0]);
      if r.Err? then r else ReadLines(r.value, lines[1..])
  }

  function Finish(d: Draft): Result<Manifest, ManifestError> {
    if d.fileName.None? then Err(NoFileName)
    else if d.totalSize.None? then Err(NoTotalSize)
    else if d.chunkSize.None? then Err(NoChunkSize)
    else if d.declared.Some? && d.declared.value != |d.chunks| then Err(CountMismatch)
    else Ok(Manifest(1, d.fileName.value, d.totalSize.value, d.chunkSize.value, d.chunks, d.signer, d.signature))
  }

  function Parse(text: string): Result<Manifest, ManifestError> {
    var d := ReadLines(BLANK, Lines(text));
    if d.Err? then Err(d.error) else Finish(d.value)
  }

  method ReadManifest(text: string) returns (r: Result<Manifest, ManifestError>)
    ensures r == Parse(text)
  {
    var fileName: Option<string>, totalSize: Option<u64>, chunkSize: Option<u64> := None, None, None;
    var declared: Option<u64>, chunks: seq<Hash> := None, [];
    var signer: Option<PublicKey>, signature: Option<Signature> := None, None;
    var lines := Lines(text);
    for i := 0 to |lines|
      invariant ReadLines(BLANK, lines) ==
                ReadLines(Draft(fileName, totalSize, chunkSize, declared, chunks, signer, signature), lines[i..])
    {
      var line := lines[i];
      assert lines[i..][0] == line && lines[i..][1..] == lines[i + 1..];
      if line == [] {
        continue;
      }
      if line == MAGIC {
        continue;
      }
      if FILE_NAME <= line {
        fileName := Some(line[|FILE_NAME|..]);
        continue;
      }
      if TOTAL_SIZE <= line {
        totalSize := ParseU64(line[|TOTAL_SIZE|..]);
        continue;
      }
      if CHUNK_SIZE <= line {
        chunkSize := ParseU64(line[|CHUNK_SIZE|..]);
        continue;
      }
      if CHUNKS <= line {
        declared := ParseU64(line[|CHUNKS|..]);
        continue;
      }
      if HASH <= line {
        var h := HexArray(line[|HASH|..], 32);
        if h.Err? {
          return Err(h.error);
        }
        chunks := chunks + [h.value];
        continue;
      }
      if SIGNER <= line {
        var h := HexArray(line[|SIGNER|..], 32);
        if h.Err? {
          return Err(h.error);
        }
        signer := Some(h.value);
        continue;
      }
      if SIGNATURE <= line {
        var h := HexArray(line[|SIGNATURE|..], 64);
        if h.Err? {
          return Err(h.error);
        }
        signature := Some(h.value);
        continue;
      }
      return Err(UnknownLine);
    }
    if fileName.None? {
      return Err(NoFileName);
    }
    if totalSize.None? {
      return Err(NoTotalSize);
    }
    if chunkSize.None? {
      return Err(NoChunkSize);
    }
    if declared.Some? && declared.value != |chunks| {
      return Err(CountMismatch);
    }
    return Ok(Manifest(1, fileName.value, totalSize.value, chunkSize.value, chunks, signer, signature));
  }

  // ---- The round trip ----

  /** A line may be printed and read back: no newline inside. */
  ghost predicate OneLine(lines: seq<string>) {
    forall i :: 0 <= i < |lines| ==> '\n' !in lines[i]
  }

  function Stripped(lines: seq<string>): seq<string> {
    seq(|lines|, i requires 0 <= i < |lines| => StripCr(lines[i]))
  }

  lemma {:induction false} LinesPrinted(lines: seq<string>, rest: string)
    requires OneLine(lines)
    ensures Lines(Printed(lines) + rest) == Stripped(lines) + Lines(rest)
    decreases |lines|
  {
    if lines == [] {
      assert [] + rest == rest;
      assert Stripped(lines) + Lines(rest) == Lines(rest);
    } else {
      var before, line := lines[..|lines| - 1], lines[|lines| - 1];
      PrintedSplit(lines, rest);
      LinesPrinted(before, line + ['\n'] + rest);
      LinesCons(line, rest);
      StrippedSplit(lines, Lines(rest));
    }
  }

  lemma PrintedSplit(lines: seq<string>, rest: string)
    requires lines != []
    ensures var before, line := lines[..|lines| - 1], lines[|lines| - 1];
            Printed(lines) + rest == Printed(before) + (line + ['\n'] + rest)
  {
  }

  lemma StrippedSplit(lines: seq<string>, rest: seq<string>)
    requires lines != []
    ensures var before, line := lines[..|lines| - 1], lines[|lines| - 1];
            Stripped(lines) + rest == Stripped(before) + ([StripCr(line)] + rest)
  {
  }

  lemma {:induction false} ReadLinesAdd(d: Draft, a: seq<string>, b: seq<string>)
    ensures ReadLines(d, a + b) ==
            if ReadLines(d, a).Err? then ReadLines(d, a) else ReadLines(ReadLines(d, a).value, b)
    decreases |a|
  {
    if a == [] {
      assert a + b == b;
    } else {
      assert (a + b)[0] == a[0] && (a + b)[1..] == a[1..] + b;
      var r := ReadLine(d, a[0]);
      if r.Ok? { ReadLinesAdd(r.value, a[1..], b); }
    }
  }

  lemma ReadOne(d: Draft, line: string)
    ensures ReadLines(d, [line]) == ReadLine(d, line)
  {
    assert [line][1..] == [];
  }

  /** Neither digits nor hexadecimal digits end a line in a carriage return or break it. */
  lemma PlainLine(tag: string, body: string)
    requires tag != [] && '\n' !in tag && tag[|tag| - 1] == ':'
    requires forall i :: 0 <= i < |body| ==> body[i] != '\n' && body[i] != '\r'
    ensures '\n' !in tag + body && StripCr(tag + body) == tag + body
  {
  }

  lemma NumberLine(tag: string, n: nat)
    requires tag != [] && '\n' !in tag && tag[|tag| - 1] == ':'
    ensures '\n' !in tag + Digits(n) && StripCr(tag + Digits(n)) == tag + Digits(n)
  {
    var s := Digits(n);
    forall i | 0 <= i < |s| ensures s[i] != '\n' && s[i] != '\r' { assert IsDigit(s[i]); }
    PlainLine(tag, s);
  }

  lemma HexLine(tag: string, b: seq<byte>)
    requires tag != [] && '\n' !in tag && tag[|tag| - 1] == ':'
    ensures '\n' !in tag + Hex(b) && StripCr(tag + Hex(b)) == tag + Hex(b)
  {
    var s := Hex(b);
    forall i | 0 <= i < |s| ensures s[i] != '\n' && s[i] != '\r' { assert HexValue(s[i]).Some?; }
    PlainLine(tag, s);
  }

  lemma ReadTotalSize(d: Draft, n: u64)
    ensures ReadLine(d, TOTAL_SIZE + Digits(n)) == Ok(d.(totalSize := Some(n)))
  {
    var line := TOTAL_SIZE + Digits(n);
    assert line[0] == 't' && line[|TOTAL_SIZE|..] == Digits(n);
    ParseDigits(n);
  }

  lemma ReadChunkSize(d: Draft, n: u64)
    ensures ReadLine(d, CHUNK_SIZE + Digits(n)) == Ok(d.(chunkSize := Some(n)))
  {
    var line := CHUNK_SIZE + Digits(n);
    assert line[0] == 'c' && line[|CHUNK_SIZE|..] == Digits(n);
    ParseDigits(n);
  }

  lemma ReadCount(d: Draft, n: u64)
    ensures ReadLine(d, CHUNKS + Digits(n)) == Ok(d.(declared := Some(n)))
  {
    var line := CHUNKS + Digits(n);
    assert line[0] == 'c' && line[5] == 's' && CHUNK_SIZE[5] == '_' && line[|CHUNKS|..] == Digits(n);
    ParseDigits(n);
  }

  lemma ReadFileName(d: Draft, name: string)
    ensures ReadLine(d, FILE_NAME + name) == Ok(d.(fileName := Some(name)))
  {
    var line := FILE_NAME + name;
    assert line[0] == 'f' && line[|FILE_NAME|..] == name;
  }

  lemma ReadChunk(d: Draft, h: Hash)
    ensures ReadLine(d, HASH + Hex(h)) == Ok(d.(chunks := d.chunks + [h]))
  {
    var line := HASH + Hex(h);
    assert line[0] == 'h' && line[|HASH|..] == Hex(h);
    UnhexHex(h);
  }

  lemma ReadSigner(d: Draft, k: PublicKey)
    ensures ReadLine(d, SIGNER + Hex(k)) == Ok(d.(signer := Some(k)))
  {
    var line := SIGNER + Hex(k);
    assert line[0] == 's' && line[|SIGNER|..] == Hex(k);
    UnhexHex(k);
  }

  lemma ReadSignature(d: Draft, k: Signature)
    ensures ReadLine(d, SIGNATURE + Hex(k)) == Ok(d.(signature := Some(k)))
  {
    var line := SIGNATURE + Hex(k);
    assert line[0] == 's' && line[4] == 'a' && SIGNER[4] == 'e' && line[|SIGNATURE|..] == Hex(k);
    UnhexHex(k);
  }

  lemma {:induction false} ChunkLinesPlain(chunks: seq<Hash>)
    ensures OneLine(ChunkLines(chunks)) && Stripped(ChunkLines(chunks)) == ChunkLines(chunks)
    decreases |chunks|
  {
    if chunks != [] {
      var n := |chunks| - 1;
      ChunkLinesPlain(chunks[..n]);
      HexLine(HASH, chunks[n]);
      var before, line := ChunkLines(chunks[..n]), HASH + Hex(chunks[n]);
      assert Stripped(before + [line]) == Stripped(before) + [line];
    }
  }

  lemma {:induction false} ReadChunks(d: Draft, chunks: seq<Hash>)
    ensures ReadLines(d, ChunkLines(chunks)) == Ok(d.(chunks := d.chunks + chunks))
    decreases |chunks|
  {
    if chunks == [] {
      assert d.chunks + chunks == d.chunks;
    } else {
      var n := |chunks| - 1;
      var line := HASH + Hex(chunks[n]);
      var d1 := d.(chunks := d.chunks + chunks[..n]);
      ReadChunks(d, chunks[..n]);
      ReadLinesAdd(d, ChunkLines(chunks[..n]), [line]);
      ReadOne(d1, line);
      ReadChunk(d1, chunks[n]);
      assert d1.chunks + [chunks[n]] == d.chunks + chunks;
    }
  }

  lemma HeadLines(m: Manifest)
    requires '\n' !in m.fileName
    ensures OneLine(Head(m)) && Stripped(Head(m)) == Head(m.(fileName := StripCr(m.fileName)))
  {
    var a, b := TOTAL_SIZE + Digits(m.totalSize), CHUNK_SIZE + Digits(m.chunkSize);
    var c := CHUNKS + Digits(|m.chunks|);
    NumberLine(TOTAL_SIZE, m.totalSize);
    NumberLine(CHUNK_SIZE, m.chunkSize);
    NumberLine(CHUNKS, |m.chunks|);
    NameLine(m.fileName);
    StrippedHead(FILE_NAME + m.fileName, FILE_NAME + StripCr(m.fileName), a, b, c);
  }

  lemma NameLine(name: string)
    requires '\n' !in name
    ensures '\n' !in FILE_NAME + name && StripCr(FILE_NAME + name) == FILE_NAME + StripCr(name)
  {
  }

  lemma StrippedHead(name: string, name': string, a: string, b: string, c: string)
    requires StripCr(name) == name' && StripCr(a) == a && StripCr(b) == b && StripCr(c) == c
    ensures Stripped([MAGIC, name, a, b, c]) == [MAGIC, name', a, b, c]
  {
    assert StripCr(MAGIC) == MAGIC;
  }

  lemma ReadHead(m: Manifest)
    requires |m.chunks| <= U64_MAX
    ensures ReadLines(BLANK, Head(m)) ==
            Ok(Draft(Some(m.fileName), Some(m.totalSize), Some(m.chunkSize), Some(|m.chunks|), [], None, None))
  {
    var d1 := BLANK.(fileName := Some(m.fileName));
    var d2 := d1.(totalSize := Some(m.totalSize));
    var d3 := d2.(chunkSize := Some(m.chunkSize));
    ReadFileName(BLANK, m.fileName);
    ReadTotalSize(d1, m.totalSize);
    ReadChunkSize(d2, m.chunkSize);
    ReadCount(d3, |m.chunks|);
    var l4 := [CHUNKS + Digits(|m.chunks|)];
    var l3 := [CHUNK_SIZE + Digits(m.chunkSize)] + l4;
    var l2 := [TOTAL_SIZE + Digits(m.totalSize)] + l3;
    var l1 := [FILE_NAME + m.fileName] + l2;
    assert Head(m) == [MAGIC] + l1;
    ReadCons(BLANK, MAGIC, l1);
    ReadCons(BLANK, FILE_NAME + m.fileName, l2);
    ReadCons(d1, TOTAL_SIZE + Digits(m.totalSize), l3);
    ReadCons(d2, CHUNK_SIZE + Digits(m.chunkSize), l4);
    ReadOne(d3, CHUNKS + Digits(|m.chunks|));
  }

  lemma ReadCons(d: Draft, line: string, rest: seq<string>)
    requires ReadLine(d, line).Ok?
    ensures ReadLines(d, [line] + rest) == ReadLines(ReadLine(d, line).value, rest)
  {
    assert ([line] + rest)[1..] == rest;
  }

  lemma ReadSignatures(d: Draft, m: Manifest)
    requires d.signer.None? && d.signature.None?
    ensures OneLine(SignatureLines(m)) && Stripped(SignatureLines(m)) == SignatureLines(m)
    ensures ReadLines(d, SignatureLines(m)) == Ok(d.(signer := m.signer, signature := m.signature))
  {
    var a := if m.signer.Some? then [SIGNER + Hex(m.signer.value)] else [];
    var b := if m.signature.Some? then [SIGNATURE + Hex(m.signature.value)] else [];
    var d1 := d.(signer := m.signer);
    if m.signer.Some? {
      HexLine(SIGNER, m.signer.value);
      ReadSigner(d, m.signer.value);
      ReadOne(d, a[0]);
    }
    if m.signature.Some? {
      HexLine(SIGNATURE, m.signature.value);
      ReadSignature(d1, m.signature.value);
      ReadOne(d1, b[0]);
    }
    assert SignatureLines(m) == a + b;
    ReadLinesAdd(d, a, b);
  }

  lemma LinesOfPrint(m: Manifest)
    requires '\n' !in m.fileName
    ensures Lines(Print(m)) ==
            Head(m.(fileName := StripCr(m.fileName))) + (ChunkLines(m.chunks) + SignatureLines(m))
  {
    var h, c, s := Head(m), ChunkLines(m.chunks), SignatureLines(m);
    HeadLines(m);
    ChunkLinesPlain(m.chunks);
    ReadSignatures(BLANK, m);
    assert CanonicalLines(m) + s == h + (c + s);
    assert Stripped(h + (c + s)) == Stripped(h) + (Stripped(c) + Stripped(s));
    PrintedLines(h + (c + s), Stripped(h) + (c + s));
  }

  /** A printed manifest reads back with the trailing carriage return of its name cut off. */
  lemma ReadBack(m: Manifest)
    requires '\n' !in m.fileName && |m.chunks| <= U64_MAX
    ensures Parse(Print(m)) == Ok(m.(version := 1, fileName := StripCr(m.fileName)))
  {
    var m1 := m.(fileName := StripCr(m.fileName));
    var c, s := ChunkLines(m.chunks), SignatureLines(m);
    var d1 := Draft(Some(m1.fileName), Some(m.totalSize), Some(m.chunkSize), Some(|m.chunks|), [], None, None);
    var d2 := d1.(chunks := m.chunks);
    LinesOfPrint(m);
    ReadHead(m1);
    ReadChunks(d1, m.chunks);
    assert [] + m.chunks == m.chunks;
    ReadSignatures(d2, m);
    ReadLinesAdd(d1, c, s);
    ReadLinesAdd(BLANK, Head(m1), c + s);
  }

  lemma PrintedLines(lines: seq<string>, stripped: seq<string>)
    requires OneLine(lines) && Stripped(lines) == stripped
    ensures Lines(Printed(lines)) == stripped
  {
    LinesPrinted(lines, []);
    assert Printed(lines) + [] == Printed(lines) && stripped + [] == stripped;
  }

  lemma {:induction false} NameHasNoNewline(d: Draft, lines: seq<string>)
    requires OneLine(lines) && (d.fileName.Some? ==> '\n' !in d.fileName.value)
    ensures var r := ReadLines(d, lines);
            r.Ok? && r.value.fileName.Some? ==> '\n' !in r.value.fileName.value
    decreases |lines|
  {
    if lines != [] {
      var r := ReadLine(d, lines[0]);
      if r.Ok? {
        NameHasNoNewline(r.value, lines[1..]);
      }
    }
  }

  /** Exactly which manifests survive being written and read: those of version 1 whose file name
  holds no newline and does not end in a carriage return. */
  lemma RoundTripExact(m: Manifest)
    requires |m.chunks| <= U64_MAX
    ensures Parse(Print(m)) == Ok(m) <==> m.version == 1 && '\n' !in m.fileName && !EndsWithCr(m.fileName)
  {
    if '\n' !in m.fileName {
      ReadBack(m);
    } else {
      var lines := Lines(Print(m));
      forall k | 0 <= k < |lines| ensures '\n' !in lines[k] {
        LinesHaveNoNewline(Print(m), k);
      }
      NameHasNoNewline(BLANK, lines);
    }
  }

  /** What is signed and hashed determines the manifest, signature aside. */
  lemma CanonicalBinds(a: Manifest, b: Manifest)
    requires |a.chunks| <= U64_MAX && |b.chunks| <= U64_MAX
    requires '\n' !in a.fileName && '\n' !in b.fileName && !EndsWithCr(a.fileName) && !EndsWithCr(b.fileName)
    ensures Canonical(a) == Canonical(b) <==>
            a.(version := 1, signer := None, signature := None) == b.(version := 1, signer := None, signature := None)
  {
    var x, y := a.(version := 1, signer := None, signature := None), b.(version := 1, signer := None, signature := None);
    RoundTripExact(x);
    RoundTripExact(y);
    assert CanonicalLines(x) + SignatureLines(x) == CanonicalLines(a);
    assert CanonicalLines(y) + SignatureLines(y) == CanonicalLines(b);
  }

  // ---- Which texts are accepted ----

  /** The printed form, line by line. */
  lemma CanonicalFormat(m: Manifest, k: nat)
    ensures var lines := CanonicalLines(m);
            && |lines| == 5 + |m.chunks| && lines[0] == "dvel-manifest-v1" && lines[1] == "file_name:" + m.fileName
            && lines[2] == "total_size:" + Digits(m.totalSize) && lines[3] == "chunk_size:" + Digits(m.chunkSize)
            && lines[4] == "chunks:" + Digits(|m.chunks|) && (k < |m.chunks| ==> lines[5 + k] == "h:" + Hex(m.chunks[k]))
  {
    if m.chunks != [] {
      ChunkLineAt(m.chunks, if k < |m.chunks| then k else 0);
    }
  }

  lemma {:induction false} ChunkLineAt(chunks: seq<Hash>, k: nat)
    requires k < |chunks|
    ensures |ChunkLines(chunks)| == |chunks| && ChunkLines(chunks)[k] == HASH + Hex(chunks[k])
    decreases |chunks|
  {
    var n := |chunks| - 1;
    if n > 0 {
      ChunkLineAt(chunks[..n], if k < n then k else 0);
    }
  }

  ghost predicate HexOf(s: string, n: nat) {
    Unhex(s).Some? && |Unhex(s).value| == n
  }

  /** Empty, the magic line, a name or number of any form, or a hash, key or signature of the right length. */
  ghost predicate GoodLine(line: string) {
    || line == "" || line == "dvel-manifest-v1"
    || "file_name:" <= line || "total_size:" <= line || "chunk_size:" <= line || "chunks:" <= line
    || ("h:" <= line && HexOf(line[2..], 32))
    || ("signer:" <= line && HexOf(line[7..], 32)) || ("signature:" <= line && HexOf(line[10..], 64))
  }

  ghost function LastOf(lines: seq<string>, tag: string): Option<string> {
    if lines == [] then None
    else if tag <= lines[|lines| - 1] then Some(lines[|lines| - 1][|tag|..])
    else LastOf(lines[..|lines| - 1], tag)
  }

  ghost function CountOf(lines: seq<string>, tag: string): nat {
    if lines == [] then 0 else CountOf(lines[..|lines| - 1], tag) + if tag <= lines[|lines| - 1] then 1 else 0
  }

  function NumberIn(s: Option<string>): Option<u64> {
    if s.None? then None else ParseU64(s.value)
  }

  /** A line has at most one of the tags, and the magic line none. */
  lemma TagsApart(line: string)
    ensures "file_name:" <= line ==> line[0] == 'f'
    ensures "total_size:" <= line ==> line[0] == 't'
    ensures "chunk_size:" <= line ==> line[0] == 'c' && line[5] == '_'
    ensures "chunks:" <= line ==> line[0] == 'c' && line[5] == 's'
    ensures "h:" <= line ==> line[0] == 'h'
    ensures "signer:" <= line ==> line[0] == 's' && line[4] == 'e'
    ensures "signature:" <= line ==> line[0] == 's' && line[4] == 'a'
    ensures line == "dvel-manifest-v1" ==> line[0] == 'd'
  {
  }

  lemma ReadLineExact(d: Draft, line: string)
    ensures var r := ReadLine(d, line);
            && (r.Ok? <==> GoodLine(line))
            && (r.Ok? ==>
                && r.value.fileName == (if "file_name:" <= line then Some(line[10..]) else d.fileName)
                && r.value.totalSize == (if "total_size:" <= line then ParseU64(line[11..]) else d.totalSize)
                && r.value.chunkSize == (if "chunk_size:" <= line then ParseU64(line[11..]) else d.chunkSize)
                && r.value.declared == (if "chunks:" <= line then ParseU64(line[7..]) else d.declared)
                && |r.value.chunks| == |d.chunks| + (if "h:" <= line then 1 else 0))
  {
    TagsApart(line);
  }

  ghost predicate AllGood(lines: seq<string>) {
    forall i :: 0 <= i < |lines| ==> GoodLine(lines[i])
  }

  lemma {:induction false} ReadLinesExact(lines: seq<string>)
    ensures var r := ReadLines(BLANK, lines);
            && (r.Ok? <==> AllGood(lines))
            && (r.Ok? ==>
                && r.value.fileName == LastOf(lines, "file_name:")
                && r.value.totalSize == NumberIn(LastOf(lines, "total_size:"))
                && r.value.chunkSize == NumberIn(LastOf(lines, "chunk_size:"))
                && r.value.declared == NumberIn(LastOf(lines, "chunks:"))
                && |r.value.chunks| == CountOf(lines, "h:"))
    decreases |lines|
  {
    if lines != [] {
      var n := |lines| - 1;
      var init, line := lines[..n], lines[n];
      ReadLinesExact(init);
      ReadLinesAdd(BLANK, init, [line]);
      assert lines == init + [line];
      AllGoodSnoc(lines);
      if ReadLines(BLANK, init).Ok? {
        ReadOne(ReadLines(BLANK, init).value, line);
        ReadLineExact(ReadLines(BLANK, init).value, line);
      }
    }
  }

  lemma AllGoodSnoc(lines: seq<string>)
    requires lines != []
    ensures AllGood(lines) <==> AllGood(lines[..|lines| - 1]) && GoodLine(lines[|lines| - 1])
  {
  }

  /** Exactly which texts are manifests: every line is good, there is a name, the last total size
  and the last chunk size are numbers, and the last count, if it is a number, is that of the hash
  lines. */
  lemma ParseExact(text: string)
    ensures var lines := Lines(text);
            var count := NumberIn(LastOf(lines, "chunks:"));
            Parse(text).Ok? <==>
            && AllGood(lines) && LastOf(lines, "file_name:").Some?
            && NumberIn(LastOf(lines, "total_size:")).Some? && NumberIn(LastOf(lines, "chunk_size:")).Some?
            && (count.Some? ==> count.value == CountOf(lines, "h:"))
  {
    ReadLinesExact(Lines(text));
  }
}
