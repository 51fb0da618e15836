/** What a node writes to its store: the blocks of its snapshot by rising height, and the slashing
state the snapshot holds. The file format is taken as the identity. */
module Snapshots {
  import opened Base
  import opened Blocks
  import opened Chain
  import opened Slashing

  datatype Persisted = Persisted(height: u64, tipHash: Hash, blocks: seq<Block>, slashing: Option<Slashes>)

  ghost predicate Rising(hs: seq<u64>) {
    forall i, j :: 0 <= i < j < |hs| ==> hs[i] < hs[j]
  }

  ghost predicate IsTop(h: u64, hs: set<u64>) {
    h in hs && forall x :: x in hs ==> x <= h
  }

  lemma {:induction false} TopExists(hs: set<u64>)
    requires hs != {}
    ensures exists h :: IsTop(h, hs)
  {
    var x :| x in hs;
    if hs == {x} {
      assert IsTop(x, hs);
    } else {
      TopExists(hs - {x});
      var m :| IsTop(m, hs - {x});
      var top := if m < x then x else m;
      forall y | y in hs ensures y <= top {
        assert y == x || y in hs - {x};
      }
      assert IsTop(top, hs);
    }
  }

  ghost function Heights(hs: set<u64>): (s: seq<u64>)
    ensures Rising(s) && forall h :: h in s <==> h in hs
  {
    if hs == {} then []
    else
      TopExists(hs);
      var top :| IsTop(top, hs);
      Heights(hs - {top}) + [top]
  }

  lemma {:induction false} RisingUnique(s: seq<u64>, t: seq<u64>)
    requires Rising(s) && Rising(t) && forall h: u64 :: h in s <==> h in t
    ensures s == t
    decreases |s|
  {
    assert s != [] ==> s[|s| - 1] in t;
    assert t != [] ==> t[|t| - 1] in s;
    if s != [] && t != [] {
      var m, n := |s| - 1, |t| - 1;
      LastTop(s, t[n]);
      LastTop(t, s[m]);
      forall h: u64 ensures h in s[..m] <==> h in t[..n] {
        AllButLast(s, h);
        AllButLast(t, h);
      }
      RisingUnique(s[..m], t[..n]);
      assert s == s[..m] + [s[m]] && t == t[..n] + [t[n]];
    }
  }

  lemma LastTop(s: seq<u64>, h: u64)
    requires Rising(s) && h in s
    ensures h <= s[|s| - 1]
  {
  }

  lemma AllButLast(s: seq<u64>, h: u64)
    requires Rising(s) && s != []
    ensures h in s[..|s| - 1] <==> h in s && h != s[|s| - 1]
  {
    if h in s && h != s[|s| - 1] {
      var k :| 0 <= k < |s| && s[k] == h;
      assert s[..|s| - 1][k] == h;
    }
  }

  ghost function Dump(byHeight: map<u64, Block>): seq<Block> {
    var hs := Heights(byHeight.Keys);
    assert forall i :: 0 <= i < |hs| ==> hs[i] in byHeight;
    seq(|hs|, i requires 0 <= i < |hs| => byHeight[hs[i]])
  }

  ghost function ToPersisted(snap: Snapshot, slashing: Option<Slashes>): Persisted {
    Persisted(snap.height, snap.tipHash, Dump(snap.byHeight), slashing)
  }

  lemma InsertRising(hs: seq<u64>, k: nat, h: u64)
    requires k <= |hs| && Rising(hs) && h !in hs
    requires forall i :: 0 <= i < k ==> hs[i] < h
    requires k < |hs| ==> h <= hs[k]
    ensures Rising(hs[..k] + [h] + hs[k..])
    ensures forall x: u64 :: x in hs[..k] + [h] + hs[k..] <==> x == h || x in hs
  {
    assert hs == hs[..k] + hs[k..];
    assert k < |hs| ==> hs[k] in hs;
  }

  method SortedHeights(byHeight: map<u64, Block>) returns (hs: seq<u64>)
    ensures hs == Heights(byHeight.Keys)
  {
    hs := [];
    var rest := byHeight.Keys;
    while rest != {}
      invariant rest <= byHeight.Keys && Rising(hs)
      invariant forall h: u64 :: h in hs <==> h in byHeight && h !in rest
      decreases |rest|
    {
      var h :| h in rest;
      var k := 0;
      while k < |hs| && hs[k] < h
        invariant 0 <= k <= |hs|
        invariant forall i :: 0 <= i < k ==> hs[i] < h
      {
        k := k + 1;
      }
      InsertRising(hs, k, h);
      hs := hs[..k] + [h] + hs[k..];
      rest := rest - {h};
    }
    RisingUnique(hs, Heights(byHeight.Keys));
  }

  method SnapshotToPersisted(snap: Snapshot, slashing: Option<Slashes>) returns (p: Persisted)
    ensures p == ToPersisted(snap, slashing)
  {
    var hs := SortedHeights(snap.byHeight);
    var blocks: seq<Block> := [];
    for k := 0 to |hs|
      invariant |blocks| == k
      invariant forall i :: 0 <= i < k ==> hs[i] in snap.byHeight && blocks[i] == snap.byHeight[hs[i]]
    {
      assert hs[k] in hs;
      if hs[k] in snap.byHeight {
        blocks := blocks + [snap.byHeight[hs[k]]];
      }
    }
    assert blocks == Dump(snap.byHeight);
    p := Persisted(snap.height, snap.tipHash, blocks, slashing);
  }

  lemma {:induction false} RisingRange(hs: seq<u64>, n: nat)
    requires Rising(hs) && n <= U64_MAX && forall h: u64 :: h in hs <==> 1 <= h <= n
    ensures |hs| == n && forall i :: 0 <= i < n ==> hs[i] == i + 1
    decreases n
  {
    assert hs != [] ==> hs[0] in hs;
    if n > 0 {
      assert n in hs;
      var m := |hs| - 1;
      assert hs[m] in hs;
      LastTop(hs, n);
      forall h: u64 ensures h in hs[..m] <==> 1 <= h <= n - 1 {
        AllButLast(hs, h);
      }
      RisingRange(hs[..m], n - 1);
    }
  }

  /** What is written is the chain. */
  lemma DumpIsChain(chain: seq<Block>, snap: Snapshot)
    requires HeightsAgree(chain, snap)
    ensures Dump(snap.byHeight) == chain
  {
    var hs := Heights(snap.byHeight.Keys);
    assert forall h: u64 :: h in hs <==> 1 <= h <= |chain|;
    RisingRange(hs, |chain|);
    forall i | 0 <= i < |chain| ensures Dump(snap.byHeight)[i] == chain[i] {
      assert hs[i] == i + 1;
    }
  }
}
