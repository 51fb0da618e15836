/** The validator set and its quorum rule: the threshold is computed from the number of
validators and compared with their summed power. */
module Validators {
  import opened Base

  datatype ValidatorInfo = ValidatorInfo(pubkey: PublicKey, nodeId: NodeId, power: u64, stake: u64)

  type Registry = map<NodeId, ValidatorInfo>

  function ById(vs: seq<ValidatorInfo>): Registry {
    if vs == [] then map[] else ById(vs[..|vs| - 1])[vs[|vs| - 1].nodeId := vs[|vs| - 1]]
  }

  /** Validators that may deviate: the integer f of n >= 3f + 1. */
  function Tolerated(n: nat): nat {
    if n == 0 then 0 else (n - 1) / 3
  }

  function QuorumPower(n: nat): nat {
    2 * Tolerated(n) + 1
  }

  /** Sum of the powers of the registered ids in `ids`. */
  ghost function Power(reg: Registry, ids: set<NodeId>): nat {
    if ids == {} then 0
    else
      var id :| id in ids;
      (if id in reg then reg[id].power else 0) + Power(reg, ids - {id})
  }

  ghost predicate QuorumMet(vs: seq<ValidatorInfo>, votes: set<NodeId>) {
    Power(ById(vs), votes) >= QuorumPower(|vs|)
  }

  class ValidatorSet {
    const validators: seq<ValidatorInfo>
    const byId: Registry
    const quorumPower: u64

    ghost predicate Valid() {
      byId == ById(validators) && quorumPower == QuorumPower(|validators|)
    }

    constructor (vs: seq<ValidatorInfo>)
      requires |vs| <= U64_MAX
      ensures Valid() && validators == vs
    {
      validators := vs;
      var reg: Registry := map[];
      for i := 0 to |vs|
        invariant reg == ById(vs[..i])
      {
        assert vs[..i + 1][..i] == vs[..i];
        reg := reg[vs[i].nodeId := vs[i]];
      }
      assert vs[..|vs|] == vs;
      byId := reg;
      var f := (if |vs| == 0 then 0 else |vs| - 1) / 3;
      quorumPower := 2 * f + 1;
    }

    /** The loop adds with saturation, which cannot turn a quorum into less than one. */
    method Met(votes: set<NodeId>) returns (met: bool)
      requires Valid()
      ensures met <==> QuorumMet(validators, votes)
    {
      var power: u64 := 0;
      var rest := votes;
      while rest != {}
        invariant rest <= votes
        invariant power <= Power(byId, votes) - Power(byId, rest)
        invariant power == Power(byId, votes) - Power(byId, rest) || power == U64_MAX
        decreases |rest|
      {
        var id :| id in rest;
        PowerRemove(byId, rest, id);
        if id in byId {
          power := SatAdd(power, byId[id].power);
        }
        rest := rest - {id};
      }
      met := power >= quorumPower;
    }
  }

  // ---- Power is additive ----

  lemma {:induction false} PowerRemove(reg: Registry, ids: set<NodeId>, x: NodeId)
    requires x in ids
    ensures Power(reg, ids) == (if x in reg then reg[x].power else 0) + Power(reg, ids - {x})
    decreases |ids|
  {
    var id :| id in ids &&
              Power(reg, ids) == (if id in reg then reg[id].power else 0) + Power(reg, ids - {id});
    if id != x {
      PowerRemove(reg, ids - {id}, x);
      PowerRemove(reg, ids - {x}, id);
      assert ids - {id} - {x} == ids - {x} - {id};
    }
  }

  lemma UnionShared(reg: Registry, a: set<NodeId>, b: set<NodeId>, x: NodeId)
    requires x in a && x in b
    requires Power(reg, a - {x}) + Power(reg, b) == Power(reg, a + b) + Power(reg, a * b - {x})
    ensures Power(reg, a) + Power(reg, b) == Power(reg, a + b) + Power(reg, a * b)
  {
    PowerRemove(reg, a, x);
    PowerRemove(reg, a * b, x);
  }

  lemma UnionOnly(reg: Registry, a: set<NodeId>, b: set<NodeId>, x: NodeId)
    requires x in a && x !in b
    requires Power(reg, a - {x}) + Power(reg, b) == Power(reg, a + b - {x}) + Power(reg, a * b)
    ensures Power(reg, a) + Power(reg, b) == Power(reg, a + b) + Power(reg, a * b)
  {
    PowerRemove(reg, a, x);
    PowerRemove(reg, a + b, x);
  }

  lemma {:induction false} PowerUnion(reg: Registry, a: set<NodeId>, b: set<NodeId>)
    ensures Power(reg, a) + Power(reg, b) == Power(reg, a + b) + Power(reg, a * b)
    decreases |a|
  {
    if a == {} {
      assert a + b == b && a * b == {};
    } else {
      var x :| x in a;
      PowerUnion(reg, a - {x}, b);
      if x in b {
        assert (a - {x}) + b == a + b && (a - {x}) * b == a * b - {x};
        UnionShared(reg, a, b, x);
      } else {
        assert (a - {x}) + b == a + b - {x} && (a - {x}) * b == a * b;
        UnionOnly(reg, a, b, x);
      }
    }
  }

  lemma {:induction false} PowerMonotone(reg: Registry, a: set<NodeId>, b: set<NodeId>)
    requires a * reg.Keys <= b
    ensures Power(reg, a) <= Power(reg, b)
    decreases |a|
  {
    if a != {} {
      var x :| x in a;
      PowerRemove(reg, a, x);
      if x in reg {
        PowerRemove(reg, b, x);
        PowerMonotone(reg, a - {x}, b - {x});
      } else {
        PowerMonotone(reg, a - {x}, b);
      }
    }
  }

  /** Any two quorums share a validator that follows the protocol. */
  ghost predicate Intersecting(vs: seq<ValidatorInfo>, correct: set<NodeId>) {
    forall a, b :: QuorumMet(vs, a) && QuorumMet(vs, b) ==> exists c :: c in a && c in b && c in correct
  }

  /** For any powers: two quorums meet in a correct validator when twice the threshold exceeds
  the total power plus that of the others. */
  lemma PowerIntersects(vs: seq<ValidatorInfo>, correct: set<NodeId>)
    requires 2 * QuorumPower(|vs|) > Power(ById(vs), ById(vs).Keys) + Power(ById(vs), ById(vs).Keys - correct)
    ensures Intersecting(vs, correct)
  {
    var reg := ById(vs);
    forall a, b | QuorumMet(vs, a) && QuorumMet(vs, b)
      ensures exists c :: c in a && c in b && c in correct
    {
      PowerUnion(reg, a, b);
      PowerMonotone(reg, a + b, reg.Keys);
      if forall c :: c in a && c in b ==> c !in correct {
        PowerMonotone(reg, a * b, reg.Keys - correct);
      }
    }
  }

  // ---- Unit power and the count rule ----

  ghost predicate UnitPower(vs: seq<ValidatorInfo>) {
    && (forall i :: 0 <= i < |vs| ==> vs[i].power == 1)
    && (forall i, j :: 0 <= i < j < |vs| ==> vs[i].nodeId != vs[j].nodeId)
  }

  function Ids(vs: seq<ValidatorInfo>): set<NodeId> {
    set i | 0 <= i < |vs| :: vs[i].nodeId
  }

  lemma {:induction false} ByIdUnit(vs: seq<ValidatorInfo>)
    requires UnitPower(vs)
    ensures ById(vs).Keys == Ids(vs) && |Ids(vs)| == |vs|
    ensures forall id :: id in ById(vs) ==> ById(vs)[id].power == 1
  {
    if vs != [] {
      var n := |vs| - 1;
      ByIdUnit(vs[..n]);
      IdsSnoc(vs);
      assert vs[n].nodeId !in Ids(vs[..n]);
    }
  }

  lemma IdsSnoc(vs: seq<ValidatorInfo>)
    requires vs != []
    ensures Ids(vs) == Ids(vs[..|vs| - 1]) + {vs[|vs| - 1].nodeId}
  {
    var n := |vs| - 1;
    forall i | 0 <= i < |vs| ensures vs[i].nodeId in Ids(vs[..n]) + {vs[n].nodeId} {
      if i < n { assert vs[..n][i] == vs[i]; }
    }
    forall i | 0 <= i < n ensures vs[..n][i].nodeId in Ids(vs) {
      assert vs[..n][i] == vs[i];
    }
  }

  lemma {:induction false} PowerCounts(reg: Registry, ids: set<NodeId>)
    requires forall id :: id in reg ==> reg[id].power == 1
    ensures Power(reg, ids) == |ids * reg.Keys|
    decreases |ids|
  {
    if ids == {} {
      assert ids * reg.Keys == {};
    } else {
      var x :| x in ids;
      PowerRemove(reg, ids, x);
      PowerCounts(reg, ids - {x});
      if x in reg {
        assert ids * reg.Keys == (ids - {x}) * reg.Keys + {x};
      } else {
        assert ids * reg.Keys == (ids - {x}) * reg.Keys;
      }
    }
  }

  /** With unit powers a quorum is a count. */
  lemma UnitQuorum(vs: seq<ValidatorInfo>, votes: set<NodeId>)
    requires UnitPower(vs)
    ensures QuorumMet(vs, votes) <==> |votes * Ids(vs)| >= QuorumPower(|vs|)
  {
    ByIdUnit(vs);
    PowerCounts(ById(vs), votes);
  }

  lemma UnitTotals(vs: seq<ValidatorInfo>, correct: set<NodeId>)
    requires UnitPower(vs)
    ensures Power(ById(vs), ById(vs).Keys) == |vs|
    ensures Power(ById(vs), ById(vs).Keys - correct) == |Ids(vs) - correct|
  {
    ByIdUnit(vs);
    var reg := ById(vs);
    PowerCounts(reg, reg.Keys);
    PowerCounts(reg, reg.Keys - correct);
    assert reg.Keys * reg.Keys == reg.Keys;
    assert (reg.Keys - correct) * reg.Keys == reg.Keys - correct;
  }

  lemma UnitIntersects(vs: seq<ValidatorInfo>, correct: set<NodeId>)
    requires UnitPower(vs) && |vs| % 3 == 1 && |Ids(vs) - correct| <= Tolerated(|vs|)
    ensures Intersecting(vs, correct)
  {
    UnitTotals(vs, correct);
    PowerIntersects(vs, correct);
  }

  // ---- The count rule is safe for n = 3f + 1 and for no other n ----

  lemma {:induction false} IdsCount(vs: seq<ValidatorInfo>)
    requires UnitPower(vs)
    ensures |Ids(vs)| == |vs|
  {
    ByIdUnit(vs);
  }

  lemma SharedIndex(vs: seq<ValidatorInfo>, q: nat, x: NodeId) returns (i: nat)
    requires UnitPower(vs) && q <= |vs| && x in Ids(vs[0..q]) && x in Ids(vs[|vs| - q..|vs|])
    ensures |vs| - q <= i < q && vs[i].nodeId == x
  {
    var front, back := vs[0..q], vs[|vs| - q..|vs|];
    i :| 0 <= i < |front| && front[i].nodeId == x;
    var j :| 0 <= j < |back| && back[j].nodeId == x;
    assert vs[i].nodeId == vs[|vs| - q + j].nodeId;
  }

  lemma OverlapInMiddle(vs: seq<ValidatorInfo>, q: nat)
    requires UnitPower(vs) && q <= |vs|
    ensures |Ids(vs[0..q]) * Ids(vs[|vs| - q..|vs|])| <= if |vs| - q < q then 2 * q - |vs| else 0
  {
    var shared := Ids(vs[0..q]) * Ids(vs[|vs| - q..|vs|]);
    if |vs| - q < q {
      var mid := vs[|vs| - q..q];
      forall x | x in shared ensures x in Ids(mid) {
        var i := SharedIndex(vs, q, x);
        assert mid[i - (|vs| - q)] == vs[i];
      }
      IdsCount(mid);
      Subset(shared, Ids(mid));
    } else {
      forall x | x in shared ensures false {
        var i := SharedIndex(vs, q, x);
      }
      assert shared == {};
    }
  }

  lemma PartQuorum(vs: seq<ValidatorInfo>, from: nat, to: nat)
    requires UnitPower(vs) && from <= to <= |vs| && to - from == QuorumPower(|vs|)
    ensures QuorumMet(vs, Ids(vs[from..to]))
  {
    var part := vs[from..to];
    FrontIn(vs, part, from);
    IdsCount(part);
    assert Ids(part) * Ids(vs) == Ids(part);
    UnitQuorum(vs, Ids(part));
  }

  lemma OnlyOverlapDeviates(vs: seq<ValidatorInfo>, a: set<NodeId>, b: set<NodeId>)
    requires QuorumMet(vs, a) && QuorumMet(vs, b)
    ensures !Intersecting(vs, Ids(vs) - a * b)
  {
    assert !exists c :: c in a && c in b && c in Ids(vs) - a * b;
  }

  lemma ToleratedFor(n: nat, f: nat)
    requires 3 * f + 1 <= n <= 3 * f + 3
    ensures Tolerated(n) == f
  {
    assert (n - 1) / 3 == f;
  }

  lemma Thirds(n: nat) returns (f: nat)
    requires n > 0 && n % 3 != 1
    ensures n == 3 * f + 2 || n == 3 * f + 3
  {
    f := (n - 1) / 3;
    assert n - 1 == 3 * f + (n - 1) % 3;
  }

  lemma QuorumParts(vs: seq<ValidatorInfo>, f: nat)
    requires UnitPower(vs) && 3 * f + 1 <= |vs| <= 3 * f + 3
    ensures QuorumMet(vs, Ids(vs[0..2 * f + 1])) && QuorumMet(vs, Ids(vs[|vs| - (2 * f + 1)..|vs|]))
  {
    ToleratedFor(|vs|, f);
    PartQuorum(vs, 0, 2 * f + 1);
    PartQuorum(vs, |vs| - (2 * f + 1), |vs|);
  }

  /** The first and the last 2f + 1 validators overlap in at most f of them unless n = 3f + 1. */
  lemma SmallOverlap(vs: seq<ValidatorInfo>, f: nat)
    requires UnitPower(vs) && (|vs| == 3 * f + 2 || |vs| == 3 * f + 3)
    ensures |Ids(vs[0..2 * f + 1]) * Ids(vs[|vs| - (2 * f + 1)..|vs|])| <= f
  {
    OverlapInMiddle(vs, 2 * f + 1);
  }

  lemma CountRuleFails(vs: seq<ValidatorInfo>, f: nat) returns (deviating: set<NodeId>)
    requires UnitPower(vs) && (|vs| == 3 * f + 2 || |vs| == 3 * f + 3)
    ensures |deviating| <= f && !Intersecting(vs, Ids(vs) - deviating)
  {
    var a, b := Ids(vs[0..2 * f + 1]), Ids(vs[|vs| - (2 * f + 1)..|vs|]);
    deviating := a * b;
    SmallOverlap(vs, f);
    assert !Intersecting(vs, Ids(vs) - deviating) by {
      QuorumParts(vs, f);
      OnlyOverlapDeviates(vs, a, b);
    }
  }

  lemma FrontIn(vs: seq<ValidatorInfo>, part: seq<ValidatorInfo>, from: nat)
    requires from + |part| <= |vs| && part == vs[from..from + |part|]
    ensures Ids(part) <= Ids(vs)
  {
    forall i | 0 <= i < |part| ensures part[i].nodeId in Ids(vs) {
      assert part[i] == vs[from + i];
    }
  }

  lemma {:induction false} Subset<T>(a: set<T>, b: set<T>)
    requires a <= b
    ensures |a| <= |b|
  {
    if a != {} {
      var x :| x in a;
      Subset(a - {x}, b - {x});
    }
  }

  /** Every two quorums share a correct validator, whichever f deviate, exactly when n = 3f + 1. */
  lemma CountRuleExact(vs: seq<ValidatorInfo>)
    requires UnitPower(vs) && vs != []
    ensures (forall deviating :: |deviating| <= Tolerated(|vs|) ==> Intersecting(vs, Ids(vs) - deviating)) <==>
            |vs| % 3 == 1
  {
    if |vs| % 3 == 1 {
      forall deviating | |deviating| <= Tolerated(|vs|) ensures Intersecting(vs, Ids(vs) - deviating) {
        Subset(Ids(vs) - (Ids(vs) - deviating), deviating);
        UnitIntersects(vs, Ids(vs) - deviating);
      }
    } else {
      var f := Thirds(|vs|);
      ToleratedFor(|vs|, f);
      var deviating := CountRuleFails(vs, f);
    }
  }
}
