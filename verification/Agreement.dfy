/** Agreement across rounds, accountable safety within one, and replication: what the network's
invariant means for the blocks that correct nodes commit. */
module Agreement {
  import opened Base
  import opened Blocks
  import opened Chain
  import opened Slashing
  import opened Validators
  import opened Consensus
  import opened Network
  import opened Steps
  import opened Handlers
  import opened Proposers

  /** At most one signed proposal per height and round. */
  ghost predicate OneProposal(n: Net) {
    forall p, q :: p in n.proposals && q in n.proposals && p.0 == q.0 && p.1 == q.1 ==> p.2 == q.2
  }

  /** The same of proposers that do not follow the protocol: the code leaves it to them. */
  ghost predicate DeviantsProposeOnce(cfg: Config, n: Net)
    requires cfg.validators != []
  {
    forall p, q ::
      (p in n.proposals && q in n.proposals && p.0 == q.0 && p.1 == q.1
       && ProposerFor(cfg, p.0, p.1).nodeId !in n.nodes) ==> p.2 == q.2
  }

  lemma ProposalsAreOne(cfg: Config, correct: set<NodeId>, acts: seq<Action>)
    requires cfg.validators != [] && Runs(cfg, Start(cfg, correct), acts)
    requires DeviantsProposeOnce(cfg, After(cfg, Start(cfg, correct), acts))
    ensures OneProposal(After(cfg, Start(cfg, correct), acts))
  {
    var n := After(cfg, Start(cfg, correct), acts);
    RunNodes(cfg, Start(cfg, correct), acts);
    forall p, q | p in n.proposals && q in n.proposals && p.0 == q.0 && p.1 == q.1 ensures p.2 == q.2 {
      if ProposerFor(cfg, p.0, p.1).nodeId in correct {
        CorrectProposersSignOnce(cfg, correct, acts, p, q);
      }
    }
  }

  // ---- Quorums of votes are fresh ----

  lemma CorrectMember(qs: Quorums, n: Net, q: set<NodeId>) returns (c: NodeId)
    requires Meet(qs, n.nodes.Keys) && q in qs
    ensures c in q && c in n.nodes
  {
    assert Share(q, q, n.nodes.Keys);
    c :| c in q && c in q && c in n.nodes.Keys;
  }

  lemma PrecommitQuorumFresh(cfg: Config, qs: Quorums, n: Net, h: u64, r: u64, bh: Hash)
    requires Inv(cfg, qs, n) && Trusted(qs, n) && bh != ZERO_HASH && VoteQuorum(qs, n, h, r, Precommit, bh)
    ensures FreshQuorum(qs, n, h, r, bh)
  {
    var q :| q in qs && AllCast(n, q, h, r, Precommit, bh);
    var c := CorrectMember(qs, n, q);
    var v := Vote(h, r, Precommit, bh, c);
    assert Cast(n, v) && v in n.nodes[c].signed && NonNil(v);
    assert Locks(qs, n, c);
  }

  lemma PrevoteQuorumFresh(cfg: Config, qs: Quorums, n: Net, h: u64, r: u64, bh: Hash)
    requires Inv(cfg, qs, n) && Trusted(qs, n) && bh != ZERO_HASH && VoteQuorum(qs, n, h, r, Prevote, bh)
    ensures FreshQuorum(qs, n, h, r, bh)
  {
    var q :| q in qs && AllCast(n, q, h, r, Prevote, bh);
    if !FreshQuorum(qs, n, h, r, bh) {
      forall id | id in q ensures FreshVoter(n, id, h, r, bh) {
        var v := Vote(h, r, Prevote, bh, id);
        assert Cast(n, v);
        if id in n.nodes {
          assert Locks(qs, n, id);
          assert v in n.nodes[id].signed && NonNil(v);
        }
      }
      assert AllFresh(n, q, h, r, bh);
    }
  }

  lemma SharedCorrect(qs: Quorums, n: Net, a: set<NodeId>, b: set<NodeId>) returns (c: NodeId)
    requires Meet(qs, n.nodes.Keys) && a in qs && b in qs
    ensures c in a && c in b && c in n.nodes
  {
    assert Share(a, b, n.nodes.Keys);
    c :| c in a && c in b && c in n.nodes.Keys;
  }

  lemma FreshMeansFirst(n: Net, c: NodeId, h: u64, r: u64, bh: Hash, r': u64, bh': Hash)
    requires c in n.nodes && bh != ZERO_HASH
    requires FreshVoter(n, c, h, r', bh') && Cast(n, Vote(h, r, Precommit, bh, c))
    ensures r >= r'
  {
    assert NonNil(Vote(h, r, Precommit, bh, c));
  }

  /** After a precommit quorum in one round there is no fresh quorum in a later one: the two would
  share a correct node that precommitted first. */
  lemma FreshQuorumFirst(qs: Quorums, n: Net, h: u64, r: u64, bh: Hash, r': u64, bh': Hash)
    requires Meet(qs, n.nodes.Keys) && bh != ZERO_HASH
    requires VoteQuorum(qs, n, h, r, Precommit, bh) && FreshQuorum(qs, n, h, r', bh')
    ensures r >= r'
  {
    var a :| a in qs && AllCast(n, a, h, r, Precommit, bh);
    var b :| b in qs && AllFresh(n, b, h, r', bh');
    var c := SharedCorrect(qs, n, a, b);
    FreshMeansFirst(n, c, h, r, bh, r', bh');
  }

  /** Once a quorum has precommitted a block, no block of that height gets a prevote quorum in a
  later round. */
  lemma LaterRoundsBlocked(cfg: Config, qs: Quorums, n: Net, h: u64, r: u64, bh: Hash, r': u64, bh': Hash)
    requires Inv(cfg, qs, n) && Trusted(qs, n) && r < r' && bh != ZERO_HASH && bh' != ZERO_HASH
    requires VoteQuorum(qs, n, h, r, Precommit, bh)
    ensures !VoteQuorum(qs, n, h, r', Prevote, bh') && !VoteQuorum(qs, n, h, r', Precommit, bh')
  {
    if VoteQuorum(qs, n, h, r', Prevote, bh') {
      PrevoteQuorumFresh(cfg, qs, n, h, r', bh');
      FreshQuorumFirst(qs, n, h, r, bh, r', bh');
    }
    if VoteQuorum(qs, n, h, r', Precommit, bh') {
      PrecommitQuorumFresh(cfg, qs, n, h, r', bh');
      FreshQuorumFirst(qs, n, h, r, bh, r', bh');
    }
  }

  lemma OneFreshBlock(cfg: Config, qs: Quorums, n: Net, h: u64, r: u64, bh: Hash, bh': Hash)
    requires Inv(cfg, qs, n) && Trusted(qs, n) && OneProposal(n) && bh != ZERO_HASH && bh' != ZERO_HASH
    requires FreshQuorum(qs, n, h, r, bh) && FreshQuorum(qs, n, h, r, bh')
    ensures bh == bh'
  {
    EveryBackedHolds(cfg, qs, n);
    FreshQuorumHeader(qs, n, h, r, bh);
    FreshQuorumHeader(qs, n, h, r, bh');
  }

  /** Two blocks of one height that precommit quorums decided, in any rounds, have one hash. */
  lemma OneDecision(cfg: Config, qs: Quorums, n: Net, a: Block, b: Block)
    requires Inv(cfg, qs, n) && Trusted(qs, n) && OneProposal(n)
    requires Decided(qs, n, a) && Decided(qs, n, b) && a.header.height == b.header.height
    ensures a.header == b.header
  {
    var h, ra, rb := a.header.height, a.header.round, b.header.round;
    var ha, hb := BlockHash(a.header), BlockHash(b.header);
    if ra < rb {
      LaterRoundsBlocked(cfg, qs, n, h, ra, ha, rb, hb);
    } else if rb < ra {
      LaterRoundsBlocked(cfg, qs, n, h, rb, hb, ra, ha);
    } else {
      PrecommitQuorumFresh(cfg, qs, n, h, ra, ha);
      PrecommitQuorumFresh(cfg, qs, n, h, ra, hb);
      OneFreshBlock(cfg, qs, n, h, ra, ha, hb);
    }
  }

  // ---- Whole runs ----

  lemma ChainDecided(cfg: Config, qs: Quorums, n: Net, i: NodeId, k: nat)
    requires Inv(cfg, qs, n) && i in n.nodes && k < |n.nodes[i].chain|
    ensures Decided(qs, n, n.nodes[i].chain[k]) && n.nodes[i].chain[k].header.height == k + 1
  {
    assert Sound(cfg, qs, n, i);
    assert LinkedAt(n.nodes[i].chain, k);
  }

  lemma MeetFrom(cfg: Config, correct: set<NodeId>)
    requires Intersecting(cfg.validators, correct)
    ensures Meet(QuorumsOf(cfg), correct)
  {
    forall a, b | a in QuorumsOf(cfg) && b in QuorumsOf(cfg) ensures Share(a, b, correct) {
      assert QuorumMet(cfg.validators, a) && QuorumMet(cfg.validators, b);
    }
  }

  /** The header bytes of every block that appeared in the run. */
  ghost function HeaderStrings(n: Net): set<seq<byte>> {
    set b | b in n.blocks :: HeaderBytes(b.header)
  }

  lemma HeadersBindFrom(n: Net)
    requires CollisionFree(HeaderStrings(n))
    ensures HeadersBind(n.blocks)
  {
    forall a, b | a in n.blocks && b in n.blocks && BlockHash(a.header) == BlockHash(b.header)
      ensures a.header == b.header
    {
      HeaderBinds(a.header, b.header, HeaderStrings(n));
    }
  }

  /** Agreement: whatever the schedule and whatever the others do, no two correct nodes ever
  commit different blocks at one height, in whichever rounds. */
  lemma AgreementAcrossRounds(cfg: Config, correct: set<NodeId>, acts: seq<Action>, i: NodeId, j: NodeId, k: nat)
    requires cfg.validators != [] && UnitPower(cfg.validators) && |cfg.validators| % 3 == 1
    requires |Ids(cfg.validators) - correct| <= Tolerated(|cfg.validators|)
    requires Runs(cfg, Start(cfg, correct), acts) && i in correct && j in correct
    requires var n := After(cfg, Start(cfg, correct), acts); DeviantsProposeOnce(cfg, n) && CollisionFree(HeaderStrings(n))
    ensures var n := After(cfg, Start(cfg, correct), acts);
            && i in n.nodes && j in n.nodes
            && (k < |n.nodes[i].chain| && k < |n.nodes[j].chain| ==>
                n.nodes[i].chain[k].header == n.nodes[j].chain[k].header)
  {
    UnitIntersects(cfg.validators, correct);
    AgreementForQuorums(cfg, correct, acts, i, j, k);
  }

  /** The same for any powers, as long as every two quorums share a correct validator. */
  lemma AgreementForQuorums(cfg: Config, correct: set<NodeId>, acts: seq<Action>, i: NodeId, j: NodeId, k: nat)
    requires cfg.validators != [] && Intersecting(cfg.validators, correct)
    requires Runs(cfg, Start(cfg, correct), acts) && i in correct && j in correct
    requires var n := After(cfg, Start(cfg, correct), acts); DeviantsProposeOnce(cfg, n) && CollisionFree(HeaderStrings(n))
    ensures var n := After(cfg, Start(cfg, correct), acts);
            && i in n.nodes && j in n.nodes
            && (k < |n.nodes[i].chain| && k < |n.nodes[j].chain| ==>
                n.nodes[i].chain[k].header == n.nodes[j].chain[k].header)
  {
    var start, qs := Start(cfg, correct), QuorumsOf(cfg);
    var n := After(cfg, start, acts);
    StartInv(cfg, correct);
    RunInv(cfg, start, acts);
    RunNodes(cfg, start, acts);
    ProposalsAreOne(cfg, correct, acts);
    MeetFrom(cfg, correct);
    HeadersBindFrom(n);
    if k < |n.nodes[i].chain| && k < |n.nodes[j].chain| {
      ChainDecided(cfg, qs, n, i, k);
      ChainDecided(cfg, qs, n, j, k);
      OneDecision(cfg, qs, n, n.nodes[i].chain[k], n.nodes[j].chain[k]);
    }
  }

  // ---- Accountable safety in one round ----

  /** Whoever deviates and however many: two blocks decided in one round of one height leave at
  least f + 1 validators that signed precommits for both. */
  lemma Culprits(cfg: Config, n: Net, a: Block, b: Block) returns (guilty: set<NodeId>)
    requires UnitPower(cfg.validators) && |cfg.validators| % 3 == 1
    requires Decided(QuorumsOf(cfg), n, a) && Decided(QuorumsOf(cfg), n, b)
    requires a.header.height == b.header.height && a.header.round == b.header.round
    ensures guilty <= Ids(cfg.validators) && |guilty| >= Tolerated(|cfg.validators|) + 1
    ensures forall id :: id in guilty ==>
              && Cast(n, Vote(a.header.height, a.header.round, Precommit, BlockHash(a.header), id))
              && Cast(n, Vote(a.header.height, a.header.round, Precommit, BlockHash(b.header), id))
  {
    var h, r := a.header.height, a.header.round;
    var qa :| qa in QuorumsOf(cfg) && AllCast(n, qa, h, r, Precommit, BlockHash(a.header));
    var qb :| qb in QuorumsOf(cfg) && AllCast(n, qb, h, r, Precommit, BlockHash(b.header));
    OverlapCount(cfg.validators, qa, qb);
    guilty := qa * qb * Ids(cfg.validators);
  }

  lemma ThreefPlusOne(n: nat)
    requires n % 3 == 1
    ensures n == 3 * Tolerated(n) + 1
  {
    assert n == 3 * (n / 3) + 1;
    ToleratedFor(n, n / 3);
  }

  lemma OverlapCount(vs: seq<ValidatorInfo>, a: set<NodeId>, b: set<NodeId>)
    requires UnitPower(vs) && |vs| % 3 == 1 && QuorumMet(vs, a) && QuorumMet(vs, b)
    ensures |a * b * Ids(vs)| >= Tolerated(|vs|) + 1
  {
    var ids := Ids(vs);
    assert |a * ids| >= QuorumPower(|vs|) by { UnitQuorum(vs, a); }
    assert |b * ids| >= QuorumPower(|vs|) by { UnitQuorum(vs, b); }
    assert |ids| == |vs| by { IdsCount(vs); }
    CountBoth(a * ids, b * ids, ids);
    assert (a * ids) * (b * ids) == a * b * ids;
    ThreefPlusOne(|vs|);
  }

  lemma CountBoth<T>(a: set<T>, b: set<T>, all: set<T>)
    requires a <= all && b <= all
    ensures |a * b| >= |a| + |b| - |all|
  {
    Subset(a + b, all);
    assert |a + b| == |a| + |b| - |a * b|;
  }

  /** And each of them is reported by any node that records both votes, in any order and among
  any other votes. */
  lemma CulpritReported(votes: seq<SignedVote>, a: SignedVote, b: SignedVote, id: NodeId)
    requires a in votes && b in votes && Conflict(a, b, KeyOf(a.vote), id) && InTime(votes, KeyOf(a.vote))
    ensures Accused(Reports(map[], votes), KeyOf(a.vote), id)
  {
    DetectionExact(votes, KeyOf(a.vote), id);
  }

  /** The list holds a signed precommit of every member of `q`. */
  ghost predicate Presented(votes: seq<SignedVote>, q: set<NodeId>, h: u64, r: u64, bh: Hash) {
    forall id :: id in q ==> exists sv :: sv in votes && sv.vote == Vote(h, r, Precommit, bh, id)
  }

  /** Two precommit quorums for different blocks of one round, recorded in any order among any other
  votes of rising heights, as a node counts them: evidence comes out against at least f + 1 validators. */
  lemma QuorumsConvict(
      cfg: Config, votes: seq<SignedVote>, a: set<NodeId>, b: set<NodeId>, h: u64, r: u64, bh: Hash, bh': Hash)
      returns (guilty: set<NodeId>)
    requires UnitPower(cfg.validators) && |cfg.validators| % 3 == 1 && bh != bh'
    requires QuorumMet(cfg.validators, a) && QuorumMet(cfg.validators, b)
    requires Presented(votes, a, h, r, bh) && Presented(votes, b, h, r, bh') && ByHeight(votes)
    ensures guilty <= Ids(cfg.validators) && |guilty| >= Tolerated(|cfg.validators|) + 1
    ensures forall id :: id in guilty ==> Accused(Reports(map[], votes), (h, r, Precommit), id)
  {
    OverlapCount(cfg.validators, a, b);
    guilty := a * b * Ids(cfg.validators);
    ByHeightInTime(votes, (h, r, Precommit));
    forall id | id in guilty ensures Accused(Reports(map[], votes), (h, r, Precommit), id) {
      var x :| x in votes && x.vote == Vote(h, r, Precommit, bh, id);
      var y :| y in votes && y.vote == Vote(h, r, Precommit, bh', id);
      CulpritReported(votes, x, y, id);
    }
  }

  /** Two correct nodes that commit different blocks in the same round of the same height
  convict f + 1 validators, with no assumption on proposers, on how many deviate or on hashes. */
  lemma AccountableSafety(cfg: Config, correct: set<NodeId>, acts: seq<Action>, i: NodeId, j: NodeId, k: nat)
      returns (guilty: set<NodeId>)
    requires cfg.validators != [] && UnitPower(cfg.validators) && |cfg.validators| % 3 == 1
    requires Runs(cfg, Start(cfg, correct), acts) && i in correct && j in correct
    requires var n := After(cfg, Start(cfg, correct), acts);
             && i in n.nodes && j in n.nodes && k < |n.nodes[i].chain| && k < |n.nodes[j].chain|
             && n.nodes[i].chain[k].header.round == n.nodes[j].chain[k].header.round
             && BlockHash(n.nodes[i].chain[k].header) != BlockHash(n.nodes[j].chain[k].header)
    ensures guilty <= Ids(cfg.validators) && |guilty| >= Tolerated(|cfg.validators|) + 1
    ensures var n := After(cfg, Start(cfg, correct), acts);
            var a, b := n.nodes[i].chain[k].header, n.nodes[j].chain[k].header;
            forall id :: id in guilty ==>
              && Cast(n, Vote(a.height, a.round, Precommit, BlockHash(a), id))
              && Cast(n, Vote(a.height, a.round, Precommit, BlockHash(b), id))
  {
    var start, qs := Start(cfg, correct), QuorumsOf(cfg);
    var n := After(cfg, start, acts);
    StartInv(cfg, correct);
    RunInv(cfg, start, acts);
    ChainDecided(cfg, qs, n, i, k);
    ChainDecided(cfg, qs, n, j, k);
    guilty := Culprits(cfg, n, n.nodes[i].chain[k], n.nodes[j].chain[k]);
  }

  // ---- Replication ----

  /** Every string hashed for a block that appeared in the run. */
  ghost function HashedStrings(n: Net): set<seq<byte>> {
    set b, x | b in n.blocks && x in BlockInputs(b) :: x
  }

  lemma HashedHeaders(n: Net)
    ensures HeaderStrings(n) <= HashedStrings(n)
  {
    forall b | b in n.blocks ensures HeaderBytes(b.header) in HashedStrings(n) {
      assert HeaderBytes(b.header) in BlockInputs(b);
    }
  }

  lemma HashedTxs(n: Net, b: Block)
    requires b in n.blocks
    ensures TxInputs(b.txs) <= HashedStrings(n)
  {
    forall x | x in TxInputs(b.txs) ensures x in HashedStrings(n) {
      assert x in BlockInputs(b);
    }
  }

  lemma ChainFits(cfg: Config, qs: Quorums, n: Net, i: NodeId, k: nat)
    requires Inv(cfg, qs, n) && i in n.nodes && k < |n.nodes[i].chain|
    ensures Applied(n.nodes[i].chain[k].txs) && n.nodes[i].chain[k] in n.blocks
  {
    assert Sound(cfg, qs, n, i);
    ReplayApplied(n.nodes[i].chain, cfg.skew, k);
    ChainDecided(cfg, qs, n, i, k);
  }

  ghost predicate Digests(n: Net) {
    CollisionFree(HashedStrings(n)) && NeverZero(HashedStrings(n))
  }

  /** A header names one list of transactions, though its root alone would not: what was committed
  was applied, and an applied list repeats nothing. */
  lemma SameHeaderSameBlock(cfg: Config, qs: Quorums, n: Net, i: NodeId, j: NodeId, k: nat)
    requires Inv(cfg, qs, n) && Digests(n) && i in n.nodes && j in n.nodes
    requires k < |n.nodes[i].chain| && k < |n.nodes[j].chain|
    requires n.nodes[i].chain[k].header == n.nodes[j].chain[k].header
    ensures n.nodes[i].chain[k] == n.nodes[j].chain[k]
  {
    var a, b := n.nodes[i].chain[k], n.nodes[j].chain[k];
    ChainFits(cfg, qs, n, i, k);
    ChainFits(cfg, qs, n, j, k);
    ChainDecided(cfg, qs, n, i, k);
    ChainDecided(cfg, qs, n, j, k);
    HashedTxs(n, a);
    HashedTxs(n, b);
    TxRootBinds(a.txs, b.txs, HashedStrings(n));
  }

  lemma CollisionFreePart(inputs: set<seq<byte>>, part: set<seq<byte>>)
    requires part <= inputs && CollisionFree(inputs)
    ensures CollisionFree(part)
  {
  }

  /** Replication: one of two correct nodes' chains continues the other's, block by block and
  transaction by transaction. */
  lemma ChainsAgree(cfg: Config, correct: set<NodeId>, acts: seq<Action>, i: NodeId, j: NodeId)
    requires cfg.validators != [] && Intersecting(cfg.validators, correct)
    requires Runs(cfg, Start(cfg, correct), acts) && i in correct && j in correct
    requires var n := After(cfg, Start(cfg, correct), acts); DeviantsProposeOnce(cfg, n) && Digests(n)
    ensures var n := After(cfg, Start(cfg, correct), acts);
            && i in n.nodes && j in n.nodes
            && (n.nodes[i].chain <= n.nodes[j].chain || n.nodes[j].chain <= n.nodes[i].chain)
  {
    var n := After(cfg, Start(cfg, correct), acts);
    HashedHeaders(n);
    CollisionFreePart(HashedStrings(n), HeaderStrings(n));
    AgreementForQuorums(cfg, correct, acts, i, j, 0);
    StartInv(cfg, correct);
    RunInv(cfg, Start(cfg, correct), acts);
    var a, b := n.nodes[i].chain, n.nodes[j].chain;
    forall k | 0 <= k < |a| && k < |b| ensures a[k] == b[k] {
      AgreementForQuorums(cfg, correct, acts, i, j, k);
      SameHeaderSameBlock(cfg, QuorumsOf(cfg), n, i, j, k);
    }
  }

  /** And correct nodes at one height have the same ledger, tips, author contexts, blocks and index. */
  lemma StateMachineReplication(cfg: Config, correct: set<NodeId>, acts: seq<Action>, i: NodeId, j: NodeId)
    requires cfg.validators != [] && Intersecting(cfg.validators, correct)
    requires Runs(cfg, Start(cfg, correct), acts) && i in correct && j in correct
    requires var n := After(cfg, Start(cfg, correct), acts); DeviantsProposeOnce(cfg, n) && Digests(n)
    ensures var n := After(cfg, Start(cfg, correct), acts);
            && i in n.nodes && j in n.nodes
            && (n.nodes[i].height == n.nodes[j].height ==> n.nodes[i].store == n.nodes[j].store)
  {
    var n := After(cfg, Start(cfg, correct), acts);
    ChainsAgree(cfg, correct, acts, i, j);
    StartInv(cfg, correct);
    RunInv(cfg, Start(cfg, correct), acts);
    assert Sound(cfg, QuorumsOf(cfg), n, i) && Sound(cfg, QuorumsOf(cfg), n, j);
    if n.nodes[i].height == n.nodes[j].height {
      assert n.nodes[i].chain == n.nodes[j].chain;
    }
  }

  /** In every reachable state the index of a correct node agrees with its chain and its ledger. */
  lemma NodesIndexed(cfg: Config, correct: set<NodeId>, acts: seq<Action>, i: NodeId)
    requires cfg.validators != [] && Runs(cfg, Start(cfg, correct), acts) && i in correct
    ensures var n := After(cfg, Start(cfg, correct), acts);
            i in n.nodes && IndexAgrees(n.nodes[i].chain, n.nodes[i].store)
  {
    var n := After(cfg, Start(cfg, correct), acts);
    StartInv(cfg, correct);
    RunInv(cfg, Start(cfg, correct), acts);
    RunNodes(cfg, Start(cfg, correct), acts);
    assert Sound(cfg, QuorumsOf(cfg), n, i);
    ReplayIndexed(n.nodes[i].chain, cfg.skew);
  }
}
