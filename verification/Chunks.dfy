/** Cutting a file into hashed chunks, checking them, and putting the file together again. */
module Chunks {
  import opened Base
  import opened Text
  import opened Manifests

  type Files = map<string, seq<byte>>

  datatype StorageError = ZeroChunkSize | Io(index: nat) | HashMismatch(index: nat) | TotalMismatch

  // ---- File names ----

  function Zeros(n: nat): string {
    if n == 0 then [] else ['0'] + Zeros(n - 1)
  }

  /** `{:08}`: at least eight digits. */
  function Padded(n: nat): string {
    var s := Digits(n);
    if |s| >= 8 then s else Zeros(8 - |s|) + s
  }

  function ChunkName(fileName: string, index: nat): string {
    fileName + ".chunk." + Padded(index)
  }

  lemma {:induction false} ZerosValue(n: nat, s: string)
    requires forall i :: 0 <= i < |s| ==> IsDigit(s[i])
    ensures forall i :: 0 <= i < |Zeros(n) + s| ==> IsDigit((Zeros(n) + s)[i])
    ensures Value(Zeros(n) + s) == Value(s)
    decreases n + |s|
  {
    AllZeros(n);
    if s == [] {
      assert Zeros(n) + s == Zeros(n);
      ZerosWorthNothing(n);
    } else {
      var t := s[..|s| - 1];
      ZerosValue(n, t);
      assert (Zeros(n) + s)[..|Zeros(n) + s| - 1] == Zeros(n) + t;
    }
  }

  lemma {:induction false} AllZeros(n: nat)
    ensures |Zeros(n)| == n && forall i :: 0 <= i < n ==> Zeros(n)[i] == '0'
  {
    if n > 0 { AllZeros(n - 1); }
  }

  lemma {:induction false} ZerosWorthNothing(n: nat)
    ensures (forall i :: 0 <= i < |Zeros(n)| ==> IsDigit(Zeros(n)[i])) && Value(Zeros(n)) == 0
  {
    AllZeros(n);
    if n > 0 {
      ZerosWorthNothing(n - 1);
      AllZeros(n - 1);
      assert Zeros(n)[..n - 1] == Zeros(n - 1);
    }
  }

  lemma PaddedValue(n: nat)
    ensures (forall i :: 0 <= i < |Padded(n)| ==> IsDigit(Padded(n)[i])) && Value(Padded(n)) == n
  {
    var s := Digits(n);
    ValueDigits(n);
    if |s| < 8 { ZerosValue(8 - |s|, s); }
  }

  /** Eight digits, or as many as the index has. */
  lemma NameFormat(fileName: string, index: nat) returns (digits: string)
    ensures ChunkName(fileName, index) == fileName + ".chunk." + digits
    ensures |digits| == if |Digits(index)| < 8 then 8 else |Digits(index)|
    ensures (forall i :: 0 <= i < |digits| ==> IsDigit(digits[i])) && Value(digits) == index
  {
    digits := Padded(index);
    PaddedValue(index);
    PaddedLength(index);
  }

  lemma PaddedLength(n: nat)
    ensures |Padded(n)| == if |Digits(n)| < 8 then 8 else |Digits(n)|
  {
    if |Digits(n)| < 8 { AllZeros(8 - |Digits(n)|); }
  }

  /** Chunks of one file never share a name. */
  lemma NamesDiffer(fileName: string, i: nat, j: nat)
    requires ChunkName(fileName, i) == ChunkName(fileName, j)
    ensures i == j
  {
    var p := fileName + ".chunk.";
    assert ChunkName(fileName, i)[|p|..] == Padded(i);
    assert ChunkName(fileName, j)[|p|..] == Padded(j);
    PaddedValue(i);
    PaddedValue(j);
  }

  // ---- What the operations mean ----

  function Joined(pieces: seq<seq<byte>>): seq<byte> {
    if pieces == [] then [] else Joined(pieces[..|pieces| - 1]) + pieces[|pieces| - 1]
  }

  ghost predicate Stored(fileName: string, files: Files, pieces: seq<seq<byte>>) {
    forall i :: 0 <= i < |pieces| ==>
      ChunkName(fileName, i) in files && files[ChunkName(fileName, i)] == pieces[i]
  }

  /** Nothing but the first `n` chunks was written. */
  ghost predicate OthersKept(fileName: string, before: Files, after: Files, n: nat) {
    forall x :: x in before ==> (x in after && after[x] == before[x]) || exists i: nat :: i < n && x == ChunkName(fileName, i)
  }

  /** `data` cut into pieces of 1 to `chunkSize` bytes, and the pieces' hashes. */
  ghost predicate Cut(data: seq<byte>, chunkSize: u64, pieces: seq<seq<byte>>, chunks: seq<Hash>) {
    && Joined(pieces) == data && |chunks| == |pieces|
    && forall i :: 0 <= i < |pieces| ==> 1 <= |pieces[i]| <= chunkSize && chunks[i] == Sha(pieces[i])
  }

  lemma CutSnoc(data: seq<byte>, chunkSize: u64, pieces: seq<seq<byte>>, chunks: seq<Hash>, piece: seq<byte>)
    requires Cut(data, chunkSize, pieces, chunks) && 1 <= |piece| <= chunkSize
    ensures Cut(data + piece, chunkSize, pieces + [piece], chunks + [Sha(piece)])
  {
    assert (pieces + [piece])[..|pieces|] == pieces;
  }

  lemma StoredSnoc(fileName: string, before: Files, files: Files, pieces: seq<seq<byte>>, piece: seq<byte>)
    requires Stored(fileName, files, pieces) && OthersKept(fileName, before, files, |pieces|)
    ensures var after := files[ChunkName(fileName, |pieces|) := piece];
            Stored(fileName, after, pieces + [piece]) && OthersKept(fileName, before, after, |pieces| + 1)
  {
    var n := |pieces|;
    var name := ChunkName(fileName, n);
    var after, more := files[name := piece], pieces + [piece];
    forall i | 0 <= i < |more|
      ensures ChunkName(fileName, i) in after && after[ChunkName(fileName, i)] == more[i]
    {
      if ChunkName(fileName, i) == name { NamesDiffer(fileName, i, n); }
    }
    forall x | x in before
      ensures (x in after && after[x] == before[x]) || exists i: nat :: i < n + 1 && x == ChunkName(fileName, i)
    {
      if x == name { assert n < n + 1; }
    }
  }

  /** The directory holds the pieces under the manifest's names, and the manifest their hashes. */
  ghost predicate Holds(m: Manifest, files: Files, pieces: seq<seq<byte>>) {
    && Stored(m.fileName, files, pieces) && |m.chunks| == |pieces|
    && forall i :: 0 <= i < |pieces| ==> m.chunks[i] == Sha(pieces[i])
  }

  ghost predicate Describes(m: Manifest, data: seq<byte>, pieces: seq<seq<byte>>) {
    Cut(data, m.chunkSize, pieces, m.chunks) && m.totalSize == Saturated(|data|)
  }

  /** The first `n` chunks, put together, or the first thing wrong with them. */
  function Assembled(m: Manifest, files: Files, n: nat): (r: Result<seq<byte>, StorageError>)
    requires n <= |m.chunks|
    ensures r.Err? ==> (r.error.Io? || r.error.HashMismatch?) && r.error.index < n
  {
    if n == 0 then Ok([])
    else
      var before := Assembled(m, files, n - 1);
      if before.Err? then before
      else if ChunkName(m.fileName, n - 1) !in files then Err(Io(n - 1))
      else if Sha(files[ChunkName(m.fileName, n - 1)]) != m.chunks[n - 1] then Err(HashMismatch(n - 1))
      else Ok(before.value + files[ChunkName(m.fileName, n - 1)])
  }

  lemma {:induction false} AssembledFails(m: Manifest, files: Files, n: nat, k: nat)
    requires n <= k <= |m.chunks| && Assembled(m, files, n).Err?
    ensures Assembled(m, files, k) == Assembled(m, files, n)
    decreases k - n
  {
    if n < k { AssembledFails(m, files, n, k - 1); }
  }

  /** What is wrong with chunk `k`, if anything. */
  ghost function FaultOf(m: Manifest, files: Files, k: nat): Option<StorageError>
    requires k < |m.chunks|
  {
    if ChunkName(m.fileName, k) !in files then Some(Io(k))
    else if Sha(files[ChunkName(m.fileName, k)]) != m.chunks[k] then Some(HashMismatch(k))
    else None
  }

  lemma AssembledStep(m: Manifest, files: Files, n: nat)
    requires 0 < n <= |m.chunks|
    ensures var before, r, f := Assembled(m, files, n - 1), Assembled(m, files, n), FaultOf(m, files, n - 1);
            if before.Err? then r == before else if f.Some? then r == Err(f.value) else r.Ok?
  {
  }

  /** The fault reported is that of the first faulty chunk; without one there is none. */
  lemma {:induction false} FirstFault(m: Manifest, files: Files, n: nat, i: nat)
    requires i < n <= |m.chunks|
    ensures var r := Assembled(m, files, n);
            && (r.Ok? || i < r.error.index ==> FaultOf(m, files, i).None?)
            && (r.Err? && i == r.error.index ==> FaultOf(m, files, i) == Some(r.error))
    decreases n
  {
    AssembledStep(m, files, n);
    if i < n - 1 {
      FirstFault(m, files, n - 1, i);
    }
  }

  class ChunkDir {
    var files: Files

    /** Every `read` may return fewer bytes than asked for, but none only at the end. */
    method ChunkFile(fileName: string, data: seq<byte>, chunkSize: u64)
      returns (r: Result<Manifest, StorageError>, ghost pieces: seq<seq<byte>>)
      modifies this
      ensures r.Err? <==> chunkSize == 0
      ensures r.Err? ==> files == old(files)
      ensures r.Ok? ==>
        && r.value.fileName == fileName && r.value.chunkSize == chunkSize
        && r.value.version == 1 && r.value.signer.None? && r.value.signature.None?
        && Describes(r.value, data, pieces) && Holds(r.value, files, pieces)
      ensures OthersKept(fileName, old(files), files, |pieces|)
    {
      pieces := [];
      if chunkSize == 0 {
        return Err(ZeroChunkSize), [];
      }
      var chunks: seq<Hash>, total: u64, pos := [], 0, 0;
      while pos < |data|
        invariant pos <= |data| && total == Saturated(pos)
        invariant Cut(data[..pos], chunkSize, pieces, chunks)
        invariant Stored(fileName, files, pieces) && OthersKept(fileName, old(files), files, |pieces|)
        decreases |data| - pos
      {
        assert 1 <= chunkSize && pos + 1 <= |data|;
        var n: nat :| 1 <= n <= chunkSize && pos + n <= |data|;
        var piece := data[pos..pos + n];
        assert data[..pos] + piece == data[..pos + n];
        CutSnoc(data[..pos], chunkSize, pieces, chunks, piece);
        StoredSnoc(fileName, old(files), files, pieces, piece);
        total := SatAdd(total, Saturated(n));
        files := files[ChunkName(fileName, |chunks|) := piece];
        chunks := chunks + [Sha(piece)];
        pieces, pos := pieces + [piece], pos + n;
      }
      assert data[..pos] == data;
      r := Ok(Manifest(1, fileName, total, chunkSize, chunks, None, None));
    }

    method VerifyChunks(m: Manifest) returns (r: Option<StorageError>)
      ensures var whole := Assembled(m, files, |m.chunks|);
              r == if whole.Err? then Some(whole.error)
                   else if Saturated(|whole.value|) != m.totalSize then Some(TotalMismatch) else None
    {
      var total: u64 := 0;
      for idx := 0 to |m.chunks|
        invariant Assembled(m, files, idx).Ok? && total == Saturated(|Assembled(m, files, idx).value|)
      {
        if ChunkName(m.fileName, idx) !in files {
          AssembledFails(m, files, idx + 1, |m.chunks|);
          return Some(Io(idx));
        }
        var data := files[ChunkName(m.fileName, idx)];
        total := SatAdd(total, Saturated(|data|));
        if Sha(data) != m.chunks[idx] {
          AssembledFails(m, files, idx + 1, |m.chunks|);
          return Some(HashMismatch(idx));
        }
      }
      if total != m.totalSize {
        return Some(TotalMismatch);
      }
      return None;
    }

    /** `out` is the output file, which an error leaves as it is: the chunks before the bad one. */
    method Reassemble(m: Manifest) returns (r: Option<StorageError>, out: seq<byte>)
      ensures var whole := Assembled(m, files, |m.chunks|);
              if whole.Ok? then r.None? && out == whole.value
              else r == Some(whole.error) && whole.error.index <= |m.chunks| && Assembled(m, files, whole.error.index) == Ok(out)
    {
      out := [];
      for idx := 0 to |m.chunks|
        invariant Assembled(m, files, idx) == Ok(out)
      {
        if ChunkName(m.fileName, idx) !in files {
          AssembledFails(m, files, idx + 1, |m.chunks|);
          return Some(Io(idx)), out;
        }
        var buf := files[ChunkName(m.fileName, idx)];
        if Sha(buf) != m.chunks[idx] {
          AssembledFails(m, files, idx + 1, |m.chunks|);
          return Some(HashMismatch(idx)), out;
        }
        out := out + buf;
      }
      return None, out;
    }
  }

  // ---- From the file back to the file ----

  lemma {:induction false} AssembledHolds(m: Manifest, files: Files, pieces: seq<seq<byte>>, n: nat)
    requires Holds(m, files, pieces) && n <= |pieces|
    ensures Assembled(m, files, n) == Ok(Joined(pieces[..n]))
  {
    if n > 0 {
      AssembledHolds(m, files, pieces, n - 1);
      assert pieces[..n][..n - 1] == pieces[..n - 1];
    }
  }

  /** What was just cut up passes the check and is put together again, whatever the hash. */
  lemma CutAndJoin(m: Manifest, data: seq<byte>, files: Files, pieces: seq<seq<byte>>)
    requires Describes(m, data, pieces) && Holds(m, files, pieces)
    ensures Assembled(m, files, |m.chunks|) == Ok(data) && m.totalSize == Saturated(|data|)
  {
    AssembledHolds(m, files, pieces, |pieces|);
    assert pieces[..|pieces|] == pieces;
  }

  /** Everything hashed: the original pieces and what is found under the chunks' names. */
  ghost predicate Hashed(m: Manifest, files: Files, pieces: seq<seq<byte>>, inputs: set<seq<byte>>) {
    && (forall i :: 0 <= i < |pieces| ==> pieces[i] in inputs)
    && (forall i :: 0 <= i < |m.chunks| && ChunkName(m.fileName, i) in files ==>
          files[ChunkName(m.fileName, i)] in inputs)
  }

  lemma {:induction false} AssembledIsOriginal(
      m: Manifest, data: seq<byte>, files: Files, pieces: seq<seq<byte>>, inputs: set<seq<byte>>, n: nat)
    requires Describes(m, data, pieces) && Hashed(m, files, pieces, inputs) && CollisionFree(inputs)
    requires n <= |m.chunks| && Assembled(m, files, n).Ok?
    ensures Assembled(m, files, n) == Ok(Joined(pieces[..n]))
  {
    if n > 0 {
      AssembledIsOriginal(m, data, files, pieces, inputs, n - 1);
      assert pieces[..n][..n - 1] == pieces[..n - 1];
      assert files[ChunkName(m.fileName, n - 1)] == pieces[n - 1];
    }
  }

  /** A directory from anywhere: if it is put together at all, or passes the check, the result is
  the original file, as long as no two of the strings at hand have the same digest. */
  lemma AnyDirectory(m: Manifest, data: seq<byte>, files: Files, pieces: seq<seq<byte>>, inputs: set<seq<byte>>)
    requires Describes(m, data, pieces) && Hashed(m, files, pieces, inputs) && CollisionFree(inputs)
    ensures Assembled(m, files, |m.chunks|).Ok? ==> Assembled(m, files, |m.chunks|) == Ok(data)
    ensures Assembled(m, files, |m.chunks|).Ok? <==> Holds(m, files, pieces)
  {
    if Assembled(m, files, |m.chunks|).Ok? {
      AssembledIsOriginal(m, data, files, pieces, inputs, |m.chunks|);
      assert pieces[..|pieces|] == pieces;
      forall i | 0 <= i < |pieces|
        ensures ChunkName(m.fileName, i) in files && files[ChunkName(m.fileName, i)] == pieces[i]
      {
        AssembledEach(m, files, |m.chunks|, i);
        assert Sha(files[ChunkName(m.fileName, i)]) == Sha(pieces[i]);
      }
    } else if Holds(m, files, pieces) {
      AssembledHolds(m, files, pieces, |pieces|);
    }
  }

  lemma {:induction false} AssembledEach(m: Manifest, files: Files, n: nat, i: nat)
    requires i < n <= |m.chunks| && Assembled(m, files, n).Ok?
    ensures ChunkName(m.fileName, i) in files && Sha(files[ChunkName(m.fileName, i)]) == m.chunks[i]
    decreases n
  {
    if i < n - 1 { AssembledEach(m, files, n - 1, i); }
  }
}
