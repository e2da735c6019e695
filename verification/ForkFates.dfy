/** Where every id ends up, told from the calls alone: which blocks were shared and delivered, and what the
    rules of extension say of them. */
module ForkFates {
  import opened Common
  import opened Blocks
  import opened ShieldedStates
  import opened Chains
  import opened ChainRules
  import opened BlockTree
  import opened ForkState
  import opened ForkSteps
  import opened ForkRuns
  import opened ForkCalls
  import opened ForkChoice

  /* ---------- what was seen ---------- */

  ghost predicate SharedFor(log: seq<Event>, id: Id) {
    exists i :: 0 <= i < |log| && log[i].ShareSeen? && log[i].share.aegisId == id
  }

  // The earliest Ergo height among the shares of an id.
  ghost predicate Earliest(log: seq<Event>, id: Id, height: nat) {
    && (forall i | 0 <= i < |log| && log[i].ShareSeen? && log[i].share.aegisId == id ::
          height <= log[i].share.ergoHeight)
    && exists i :: 0 <= i < |log| && log[i].ShareSeen? && log[i].share.aegisId == id
                   && log[i].share.ergoHeight == height
  }

  ghost predicate Weighs(log: seq<Event>, id: Id, work: nat) {
    exists i :: 0 <= i < |log| && log[i].ShareSeen? && log[i].share.aegisId == id && log[i].share.work == work
  }

  // The lowest height at which an id was seen committed.
  ghost predicate Lowest(log: seq<Event>, id: Id, height: nat) {
    && (forall i | 0 <= i < |log| && log[i].AnchorSeen? && log[i].anchorId == id :: height <= log[i].inclusionHeight)
    && exists i :: 0 <= i < |log| && log[i].AnchorSeen? && log[i].anchorId == id && log[i].inclusionHeight == height
  }

  function FirstBlock(r: Rules): Block {
    Block(Header(1, 0, 0, r.genesisTimestampMs,
                 0x61656769732f656d7074792d74782d726f6f742f76312e2e2e2e2e2e2e2e2e2e,
                 0x61656769732f656d7074792d63757276652d747265652d726f6f742f76312e2e,
                 0x61656769732f656d7074792d6e756c6c69666965722d7365742f76312e2e2e2e, 0, r.minNbits, 0),
          Body([], []), None)
  }

  // The header names the body and the coinbase note.
  predicate Named(r: Rules, b: Block) {
    && RootIs(r, b.body.transfers, b.header.txRoot)
    && b.header.rewardClaim == if b.coinbase.Some? then r.prim.encodeCm(b.coinbase.value.cm) else EMPTY_REWARD_CLAIM
  }

  // A body that its header names was handed in.
  ghost predicate Delivered(r: Rules, log: seq<Event>, b: Block) {
    && Named(r, b)
    && r.prim.headerId(b.header) != r.prim.headerId(FirstBlock(r).header)
    && exists i :: 0 <= i < |log| && log[i].BodySeen? && log[i].block == b
  }

  /* ---------- what that makes of it ---------- */

  // Shared and delivered, and accepted by the rules on top of q.
  ghost predicate Fits(r: Rules, log: seq<Event>, q: seq<Block>, b: Block)
    requires q != []
  {
    && SharedFor(log, r.prim.headerId(b.header)) && Delivered(r, log, b)
    && ChainRules.Explains(r, q, StateOf(r, q), b, b.header.timestampMs, None)
  }

  // Genesis, and blocks that fit on top of each other.
  ghost predicate Built(r: Rules, log: seq<Event>, q: seq<Block>) {
    && q != [] && q[0] == FirstBlock(r)
    && forall i | 1 <= i < |q| :: Fits(r, log, q[..i], q[i])
  }

  // Shared and delivered, and refused on top of q for a reason that stays.
  ghost predicate Condemned(r: Rules, log: seq<Event>, q: seq<Block>, b: Block)
    requires q != []
  {
    && b.header.prevId == r.prim.headerId(q[|q| - 1].header)
    && SharedFor(log, r.prim.headerId(b.header)) && Delivered(r, log, b)
    && exists e :: ChainRules.Explains(r, q, StateOf(r, q), b, b.header.timestampMs, Some(e))
                   && !(e.TimestampTooFarInFuture? || e.TxRootMismatch? || e.RewardClaimMismatch? || e.CoinbaseMint?)
  }

  // Delivered blocks, each below the one before it.
  ghost predicate Descends(r: Rules, log: seq<Event>, line: seq<Block>) {
    && line != []
    && (forall i | 0 <= i < |line| :: Delivered(r, log, line[i]))
    && forall i | 1 <= i < |line| :: line[i].header.prevId == r.prim.headerId(line[i - 1].header)
  }

  ghost predicate EndsAt(r: Rules, q: seq<Block>, id: Id) {
    q != [] && r.prim.headerId(q[|q| - 1].header) == id
  }

  ghost predicate Doomed(r: Rules, log: seq<Event>, q: seq<Block>, line: seq<Block>) {
    Built(r, log, q) && Descends(r, log, line) && Condemned(r, log, q, line[0])
  }

  /* ---------- the evidence is what was seen ---------- */

  lemma InLog(log: seq<Event>, e: Event) returns (i: nat)
    requires e in log
    ensures i < |log| && log[i] == e
  {
    i :| 0 <= i < |log| && log[i] == e;
  }

  lemma ShareIsSeen(r: Law, log: seq<Event>, id: Id)
    ensures var shares := EvidenceOf(r, log).shares;
      && (id in shares <==> SharedFor(log, id))
      && (id in shares ==> Earliest(log, id, shares[id].ergoHeight) && Weighs(log, id, shares[id].work))
  {
    SharesOfLog(r, log);
    hide EvidenceOf;
    var shares := EvidenceOf(r, log).shares;
    forall i | 0 <= i < |log| && log[i].ShareSeen? && log[i].share.aegisId == id
      ensures id in shares && shares[id].ergoHeight <= log[i].share.ergoHeight
    {
      assert ShareEvent(log, id, log[i]);
    }
    if id in shares {
      var e :| ShareEvent(log, id, e) && e.share.work == shares[id].work;
      var f :| ShareEvent(log, id, f) && f.share.ergoHeight == shares[id].ergoHeight;
      var i := InLog(log, e);
      var j := InLog(log, f);
    }
  }

  lemma AnchorIsSeen(r: Law, log: seq<Event>, id: Id)
    ensures var anchors := EvidenceOf(r, log).anchors;
      && (id in anchors <==> exists i :: 0 <= i < |log| && log[i].AnchorSeen? && log[i].anchorId == id)
      && (id in anchors ==> Lowest(log, id, anchors[id]))
  {
    AnchorsOfLog(r, log);
    hide EvidenceOf;
    var anchors := EvidenceOf(r, log).anchors;
    forall i | 0 <= i < |log| && log[i].AnchorSeen? && log[i].anchorId == id
      ensures id in anchors && anchors[id] <= log[i].inclusionHeight
    {
      assert log[i] in log;
    }
    if id in anchors {
      var e :| e in log && e.AnchorSeen? && e.anchorId == id && e.inclusionHeight == anchors[id];
      var i := InLog(log, e);
    }
  }

  lemma BodyIsDelivered(r: Law, log: seq<Event>, b: Block)
    requires Coherent(r, log)
    ensures var bodies := EvidenceOf(r, log).bodies;
      r.BlockId(b) in bodies && bodies[r.BlockId(b)] == b <==> Delivered(r.rules, log, b)
  {
    BodiesOfLog(r, log);
    hide EvidenceOf;
    var bodies := EvidenceOf(r, log).bodies;
    if r.BlockId(b) in bodies && bodies[r.BlockId(b)] == b {
      var e :| BodyEvent(r, log, r.BlockId(b), b, e);
      var i := InLog(log, e);
    }
    if Delivered(r.rules, log, b) {
      var i :| 0 <= i < |log| && log[i].BodySeen? && log[i].block == b;
      assert log[i] in log;
      var e :| BodyEvent(r, log, r.BlockId(b), bodies[r.BlockId(b)], e);
    }
  }

  /* ---------- the reference, block by block ---------- */

  lemma VerdictMeans(r: Law, q: seq<Block>, b: Block, answer: Option<ExtendError>)
    requires IsChainJudge(r) && q != []
    ensures r.PinnedVerdict(q, b) == answer <==>
            ChainRules.Explains(r.rules, q, StateOf(r.rules, q), b, b.header.timestampMs, answer)
  {
    hide ChainRules.Explains, Verdict, StateOf;
    var s, now := StateOf(r.rules, q), b.header.timestampMs;
    assert r.judge(q, b, now) == Verdict(r.rules, q, b, now);
    VerdictIsExplained(r.rules, q, b, now);
    if ChainRules.Explains(r.rules, q, s, b, now, answer) {
      ExplanationIsUnique(r.rules, q, s, b, now, answer, Verdict(r.rules, q, b, now));
    }
  }

  lemma FitsIsExtends(r: Law, log: seq<Event>, q: seq<Block>, b: Block)
    requires IsChainJudge(r) && Coherent(r, log) && q != []
    ensures Fits(r.rules, log, q, b) <==> ForkState.Extends(r, EvidenceOf(r, log), q, b)
  {
    hide ChainRules.Explains, StateOf, EvidenceOf, Delivered, SharedFor, Coherent, IsChainJudge;
    ShareIsSeen(r, log, r.BlockId(b));
    BodyIsDelivered(r, log, b);
    VerdictMeans(r, q, b, None);
  }

  lemma {:induction false} BuiltIsValidPath(r: Law, log: seq<Event>, q: seq<Block>)
    requires IsChainJudge(r) && Coherent(r, log)
    ensures Built(r.rules, log, q) <==> ValidPath(r, EvidenceOf(r, log), q)
    decreases |q|
  {
    hide EvidenceOf, Fits, ForkState.Extends, Coherent, IsChainJudge;
    if |q| > 1 {
      var rest := q[..|q| - 1];
      BuiltIsValidPath(r, log, rest);
      FitsIsExtends(r, log, rest, q[|q| - 1]);
      forall i | 1 <= i < |rest| ensures rest[..i] == q[..i] && rest[i] == q[i] {
      }
    }
  }

  lemma CondemnedIsRejected(r: Law, log: seq<Event>, q: seq<Block>, b: Block)
    requires IsChainJudge(r) && Coherent(r, log) && q != []
    ensures var ev := EvidenceOf(r, log);
      Condemned(r.rules, log, q, b) <==>
        && r.BlockId(Last(q)) == b.header.prevId
        && r.BlockId(b) in ev.shares && r.BlockId(b) in ev.bodies && ev.bodies[r.BlockId(b)] == b
        && PermanentlyRejected(r, q, b)
  {
    hide ChainRules.Explains, StateOf, EvidenceOf, Delivered, SharedFor, Coherent, IsChainJudge, Law.PinnedVerdict;
    ShareIsSeen(r, log, r.BlockId(b));
    BodyIsDelivered(r, log, b);
    forall e: ExtendError
      ensures r.PinnedVerdict(q, b) == Some(e) <==>
              ChainRules.Explains(r.rules, q, StateOf(r.rules, q), b, b.header.timestampMs, Some(e))
    {
      VerdictMeans(r, q, b, Some(e));
    }
  }

  // Refused for good on top of a valid path.
  ghost predicate RefusedOn(r: Law, ev: Evidence, q: seq<Block>, b: Block) {
    ValidPath(r, ev, q) && r.BlockId(Last(q)) == b.header.prevId && PermanentlyRejected(r, q, b)
  }

  lemma RefusedIsDoomed(r: Law, ev: Evidence, q: seq<Block>, id: Id)
    requires id in ev.bodies && id in ev.shares && RefusedOn(r, ev, q, ev.bodies[id])
    ensures DoomedIn(r, ev, id, 0)
  {
    hide ValidPath, PermanentlyRejected;
  }

  lemma DoomedIsRefused(r: Law, ev: Evidence, id: Id) returns (q: seq<Block>)
    requires DoomedIn(r, ev, id, 0)
    ensures id in ev.bodies && id in ev.shares && RefusedOn(r, ev, q, ev.bodies[id])
  {
    var b := ev.bodies[id];
    q :| ValidPath(r, ev, q) && r.BlockId(Last(q)) == b.header.prevId && PermanentlyRejected(r, q, b);
  }

  lemma BodyOfId(r: Law, log: seq<Event>, id: Id)
    requires Coherent(r, log) && id in EvidenceOf(r, log).bodies
    ensures var b := EvidenceOf(r, log).bodies[id]; r.BlockId(b) == id && Delivered(r.rules, log, b)
  {
    BodiesOfLog(r, log);
    hide EvidenceOf, Coherent, Delivered;
    var b := EvidenceOf(r, log).bodies[id];
    var e :| BodyEvent(r, log, id, b, e);
    BodyIsDelivered(r, log, b);
  }

  lemma LineOfOne(r: Law, log: seq<Event>, q: seq<Block>, b: Block)
    requires IsChainJudge(r) && Coherent(r, log) && Delivered(r.rules, log, b)
    ensures Doomed(r.rules, log, q, [b]) <==>
            r.BlockId(b) in EvidenceOf(r, log).shares && RefusedOn(r, EvidenceOf(r, log), q, b)
  {
    BuiltIsValidPath(r, log, q);
    BodyIsDelivered(r, log, b);
    assert Built(r.rules, log, q) ==> q != [];
    assert Descends(r.rules, log, [b]);
    hide EvidenceOf, Delivered, Coherent, IsChainJudge, Condemned, PermanentlyRejected, Built, ValidPath, Descends;
    if q != [] {
      CondemnedIsRejected(r, log, q, b);
    }
  }

  lemma {:induction false} DoomedLine(r: Law, log: seq<Event>, q: seq<Block>, line: seq<Block>)
    requires IsChainJudge(r) && Coherent(r, log) && Doomed(r.rules, log, q, line)
    ensures DoomedIn(r, EvidenceOf(r, log), r.BlockId(line[|line| - 1]), |line| - 1)
    decreases |line|
  {
    hide EvidenceOf, Delivered, Coherent, IsChainJudge, Condemned, RefusedOn, Built;
    var b := line[|line| - 1];
    BodyIsDelivered(r, log, b);
    if |line| > 1 {
      DoomedLine(r, log, q, line[..|line| - 1]);
    } else {
      LineOfOne(r, log, q, b);
      assert line == [b];
      RefusedIsDoomed(r, EvidenceOf(r, log), q, r.BlockId(b));
    }
  }

  lemma FirstOfLine(r: Law, log: seq<Event>, id: Id) returns (q: seq<Block>)
    requires IsChainJudge(r) && Coherent(r, log) && DoomedIn(r, EvidenceOf(r, log), id, 0)
    ensures Doomed(r.rules, log, q, [EvidenceOf(r, log).bodies[id]])
  {
    hide EvidenceOf, Delivered, Coherent, IsChainJudge, RefusedOn, Doomed;
    q := DoomedIsRefused(r, EvidenceOf(r, log), id);
    BodyOfId(r, log, id);
    LineOfOne(r, log, q, EvidenceOf(r, log).bodies[id]);
  }

  lemma LinePush(r: Rules, log: seq<Event>, q: seq<Block>, line: seq<Block>, b: Block)
    requires Doomed(r, log, q, line) && EndsAt(r, line, b.header.prevId) && Delivered(r, log, b)
    ensures Doomed(r, log, q, line + [b])
  {
    hide Built, Condemned, Delivered;
  }

  lemma {:induction false} LineOfDoom(r: Law, log: seq<Event>, id: Id, k: nat) returns (q: seq<Block>, line: seq<Block>)
    requires IsChainJudge(r) && Coherent(r, log) && DoomedIn(r, EvidenceOf(r, log), id, k)
    ensures Doomed(r.rules, log, q, line) && EndsAt(r.rules, line, id)
    decreases k
  {
    hide EvidenceOf, Coherent, IsChainJudge, Doomed;
    BodyOfId(r, log, id);
    var b := EvidenceOf(r, log).bodies[id];
    if k > 0 {
      q, line := LineOfDoom(r, log, b.header.prevId, k - 1);
      LinePush(r.rules, log, q, line, b);
      line := line + [b];
    } else {
      q := FirstOfLine(r, log, id);
      line := [b];
    }
  }

  lemma ValidIffBuilt(r: Law, log: seq<Event>, id: Id)
    requires IsChainJudge(r) && Coherent(r, log)
    ensures IsValid(r, EvidenceOf(r, log), id) <==> exists q :: Built(r.rules, log, q) && EndsAt(r.rules, q, id)
  {
    hide EvidenceOf, Coherent, IsChainJudge;
    forall q ensures Built(r.rules, log, q) <==> ValidPath(r, EvidenceOf(r, log), q) {
      BuiltIsValidPath(r, log, q);
    }
    assert forall q :: ValidPath(r, EvidenceOf(r, log), q) ==> q != [];
    hide Built, ValidPath;
    if IsValid(r, EvidenceOf(r, log), id) {
      var q :| ValidPath(r, EvidenceOf(r, log), q) && r.BlockId(Last(q)) == id;
      assert Built(r.rules, log, q) && EndsAt(r.rules, q, id);
    }
    if q :| Built(r.rules, log, q) && EndsAt(r.rules, q, id) {
      assert ValidPath(r, EvidenceOf(r, log), q) && r.BlockId(Last(q)) == id;
    }
  }

  lemma DoomedIffLine(r: Law, log: seq<Event>, id: Id)
    requires IsChainJudge(r) && Coherent(r, log)
    ensures IsDoomed(r, EvidenceOf(r, log), id) <==>
            exists q, line :: Doomed(r.rules, log, q, line) && EndsAt(r.rules, line, id)
  {
    if IsDoomed(r, EvidenceOf(r, log), id) {
      var k: nat :| DoomedIn(r, EvidenceOf(r, log), id, k);
      hide *;
      var q, line := LineOfDoom(r, log, id, k);
    }
    if q, line :| Doomed(r.rules, log, q, line) && EndsAt(r.rules, line, id) {
      DoomedLine(r, log, q, line);
      hide EvidenceOf, Coherent, IsChainJudge, Doomed, DoomedIn;
    }
  }

  lemma Pools(r: Law, s: Snapshot, ev: Evidence, id: Id)
    requires Settled(r, s) && Tracks(r, s, ev, {})
    ensures id in s.pending <==> id in ev.shares && id !in s.nodes && id !in s.dead
    ensures id in s.pending ==> s.pending[id] == ev.shares[id]
    ensures id in s.nodes && id != r.GenesisId() ==>
              id in ev.shares && s.nodes[id].ergoHeight == ev.shares[id].ergoHeight
    ensures s.anchors == ev.anchors
  {
    hide WellFormed, IsBest, IsDoomed, IsValid, RejectedAt;
    SetsMatchReference(r, s, ev, id);
    if id in s.nodes && id != r.GenesisId() {
      assert NodeTracked(s, ev, id);
    }
  }

  /* ---------- where every id is ---------- */

  /** When bodies came on time and one per id, the calls decide where every id is, whatever their order: in the
      tree when blocks that were shared, delivered and fit on each other lead from genesis to it; dead when a
      line of delivered blocks leads to it from one that was refused for good on top of such blocks; and
      pending when it was shared and is neither. Keys, weights and anchors are the earliest seen. */
  lemma WhereEveryIdIs(fc: MmForkChoice, id: Id)
    requires fc.Valid() && Tracking(fc.law, fc.log)
    ensures id in fc.nodes <==> exists q :: Built(fc.rules, fc.log, q) && EndsAt(fc.rules, q, id)
    ensures id in fc.dead <==> exists q, line :: Doomed(fc.rules, fc.log, q, line) && EndsAt(fc.rules, line, id)
    ensures id in fc.pending <==> SharedFor(fc.log, id) && id !in fc.nodes && id !in fc.dead
    ensures id in fc.pending ==>
              Earliest(fc.log, id, fc.pending[id].ergoHeight) && Weighs(fc.log, id, fc.pending[id].work)
    ensures id in fc.nodes && id != fc.rules.prim.headerId(FirstBlock(fc.rules).header) ==>
              Earliest(fc.log, id, fc.nodes[id].ergoHeight)
    ensures id in fc.anchors <==> exists i :: 0 <= i < |fc.log| && fc.log[i].AnchorSeen? && fc.log[i].anchorId == id
    ensures id in fc.anchors ==> Lowest(fc.log, id, fc.anchors[id])
  {
    var r, log, s := fc.law, fc.log, fc.Snap();
    var ev := EvidenceOf(r, log);
    assert Settled(r, s) && Tracks(r, s, ev, {}) && IsChainJudge(r) && Coherent(r, log);
    hide *;
    ShareIsSeen(r, log, id);
    AnchorIsSeen(r, log, id);
    SetsMatchReference(r, s, ev, id);
    Pools(r, s, ev, id);
    ValidIffBuilt(r, log, id);
    DoomedIffLine(r, log, id);
  }

  /* ---------- the heaviest blocks win ---------- */

  lemma BuiltIsPath(r: Law, s: Snapshot, log: seq<Event>, q: seq<Block>)
    requires IsChainJudge(r) && Settled(r, s) && Coherent(r, log) && Tracks(r, s, EvidenceOf(r, log), {})
    requires Built(r.rules, log, q)
    ensures var id := r.BlockId(q[|q| - 1]);
      id in s.nodes && PathBlocks(s.nodes, id) == q && s.nodes[id].work == TotalDifficulty(r.rules, q)
  {
    var ev := EvidenceOf(r, log);
    BuiltIsValidPath(r, log, q);
    hide EvidenceOf, Coherent, IsChainJudge, TotalDifficulty, Built, Tracks, IsBest;
    ValidAreNodes(r, s, ev, q);
    WorkIsTotalDifficulty(r, s.nodes, r.BlockId(q[|q| - 1]));
  }

  lemma PathIsBuilt(r: Law, s: Snapshot, log: seq<Event>, id: Id)
    requires IsChainJudge(r) && Settled(r, s) && Coherent(r, log) && Tracks(r, s, EvidenceOf(r, log), {})
    requires id in s.nodes
    ensures Built(r.rules, log, PathBlocks(s.nodes, id)) && EndsAt(r.rules, PathBlocks(s.nodes, id), id)
  {
    hide EvidenceOf, Coherent, IsChainJudge, Built, Tracks, IsBest;
    NodesAreValid(r, s, EvidenceOf(r, log), id, {}, {});
    BuiltIsValidPath(r, log, PathBlocks(s.nodes, id));
  }

  lemma IdOnPath(r: Law, nodes: Nodes, id: Id, i: nat)
    requires TreeOk(r, nodes) && id in nodes && i < |PathIds(nodes, id)|
    ensures i < |PathBlocks(nodes, id)| && r.BlockId(PathBlocks(nodes, id)[i]) == PathIds(nodes, id)[i]
    ensures PathIds(nodes, id)[i] in nodes && PathBlocks(nodes, id)[i] == nodes[PathIds(nodes, id)[i]].block
    ensures |PathBlocks(nodes, id)| == |PathIds(nodes, id)| && nodes[PathIds(nodes, id)[i]].height == i
  {
    PathShape(r, nodes, id);
    PathTip(r, nodes, PathIds(nodes, id)[i]);
  }

  // Where two paths part, the winner of a tie goes on, with the better key.
  lemma TieAtFork(r: Law, nodes: Nodes, a: Id, b: Id, k: nat)
    requires TreeOk(r, nodes) && a in nodes && b in nodes && Beats(nodes, a, b) && nodes[a].work == nodes[b].work
    requires k <= |PathIds(nodes, a)| && k < |PathIds(nodes, b)| && PathIds(nodes, a)[..k] == PathIds(nodes, b)[..k]
    ensures k < |PathIds(nodes, a)|
    ensures var x, y := PathIds(nodes, a)[k], PathIds(nodes, b)[k]; x == y || KeyLess(nodes, x, y)
  {
    PathBeatsAtFork(nodes, PathIds(nodes, a), PathIds(nodes, b), k);
  }

  // Of two shared ids, the one with the earlier share, or the smaller one.
  ghost predicate EarlierId(log: seq<Event>, a: Id, b: Id) {
    exists m: nat, n: nat :: Earliest(log, a, m) && Earliest(log, b, n) && (m < n || (m == n && a < b))
  }

  ghost predicate Agree(p: seq<Block>, q: seq<Block>, k: nat) {
    k <= |p| && k <= |q| && p[..k] == q[..k]
  }

  // Two shares that part after k blocks: the first goes on, with the earlier id.
  ghost predicate WinsAt(r: Rules, log: seq<Event>, p: seq<Block>, q: seq<Block>, k: nat) {
    Agree(p, q, k) && k < |q| ==>
      k < |p| && (p[k] == q[k] || EarlierId(log, r.prim.headerId(p[k].header), r.prim.headerId(q[k].header)))
  }

  lemma WinsAtFork(r: Law, s: Snapshot, log: seq<Event>, a: Id, b: Id, k: nat)
    requires Settled(r, s) && Tracks(r, s, EvidenceOf(r, log), {}) && a in s.nodes && b in s.nodes
    requires Beats(s.nodes, a, b) && s.nodes[a].work == s.nodes[b].work
    ensures WinsAt(r.rules, log, PathBlocks(s.nodes, a), PathBlocks(s.nodes, b), k)
  {
    hide EvidenceOf, Beats, IsBest, Tracks, KeyLess, EarlierId, PathIds, PathBlocks, LawOk, Replayable, StashOk,
         Disjoint;
    var p, q := PathBlocks(s.nodes, a), PathBlocks(s.nodes, b);
    if Agree(p, q, k) && k < |q| {
      PathShape(r, s.nodes, a);
      PathShape(r, s.nodes, b);
      IdOnPath(r, s.nodes, a, 0);
      IdOnPath(r, s.nodes, b, 0);
      forall i | 0 <= i < k ensures PathIds(s.nodes, a)[i] == PathIds(s.nodes, b)[i] {
        IdOnPath(r, s.nodes, a, i);
        IdOnPath(r, s.nodes, b, i);
        assert p[i] == p[..k][i] == q[..k][i] == q[i];
      }
      TieAtFork(r, s.nodes, a, b, k);
      IdOnPath(r, s.nodes, a, k);
      IdOnPath(r, s.nodes, b, k);
      KeysAreSeen(r, s, log, PathIds(s.nodes, a)[k], PathIds(s.nodes, b)[k]);
    }
  }

  lemma KeysAreSeen(r: Law, s: Snapshot, log: seq<Event>, x: Id, y: Id)
    requires Settled(r, s) && Tracks(r, s, EvidenceOf(r, log), {}) && x in s.nodes && y in s.nodes
    requires s.nodes[x].height == s.nodes[y].height
    ensures x != y && KeyLess(s.nodes, x, y) ==> EarlierId(log, x, y)
  {
    hide EvidenceOf, IsBest, LawOk, Replayable, StashOk, Disjoint, Earliest, Weighs;
    if x != y {
      assert x != r.GenesisId() ==> Linked(r, s.nodes, x);
      assert y != r.GenesisId() ==> Linked(r, s.nodes, y);
      assert NodeTracked(s, EvidenceOf(r, log), x) && NodeTracked(s, EvidenceOf(r, log), y);
      ShareIsSeen(r, log, x);
      ShareIsSeen(r, log, y);
    }
  }

  /** The chain that is materialized is the heaviest that can be built from what was seen: no other one has a
      greater total difficulty, and one with an equal total loses at the first block where they differ, or
      ends there. */
  lemma HeaviestIsMaterialized(fc: MmForkChoice, q: seq<Block>, k: nat)
    requires fc.Valid() && Tracking(fc.law, fc.log) && Built(fc.rules, fc.log, q)
    ensures Built(fc.rules, fc.log, fc.chain.blocks)
    ensures TotalDifficulty(fc.rules, q) <= TotalDifficulty(fc.rules, fc.chain.blocks)
    ensures TotalDifficulty(fc.rules, q) == TotalDifficulty(fc.rules, fc.chain.blocks) ==>
              WinsAt(fc.rules, fc.log, fc.chain.blocks, q, k)
  {
    var r, s, log := fc.law, fc.Snap(), fc.log;
    assert Settled(r, s) && Tracks(r, s, EvidenceOf(r, log), {}) && IsChainJudge(r) && Coherent(r, log);
    assert fc.chain.blocks == PathBlocks(s.nodes, s.canonical) && r.rules == fc.rules;
    assert IsBest(s.nodes, s.canonical) && TreeOk(r, s.nodes);
    hide *;
    BuiltIsPath(r, s, log, q);
    PathIsBuilt(r, s, log, s.canonical);
    BestHasMost(r, s, log, q, k);
  }

  lemma BestHasMost(r: Law, s: Snapshot, log: seq<Event>, q: seq<Block>, k: nat)
    requires Settled(r, s) && Tracks(r, s, EvidenceOf(r, log), {}) && q != []
    requires var id := r.BlockId(q[|q| - 1]);
      id in s.nodes && PathBlocks(s.nodes, id) == q && s.nodes[id].work == TotalDifficulty(r.rules, q)
    ensures var best := PathBlocks(s.nodes, s.canonical);
      && TotalDifficulty(r.rules, q) <= TotalDifficulty(r.rules, best)
      && (TotalDifficulty(r.rules, q) == TotalDifficulty(r.rules, best) ==> WinsAt(r.rules, log, best, q, k))
  {
    hide EvidenceOf, Tracks, LawOk, Replayable, StashOk, Disjoint, TotalDifficulty, TreeOk, PathBlocks;
    var id := r.BlockId(q[|q| - 1]);
    WorkIsTotalDifficulty(r, s.nodes, s.canonical);
    if id != s.canonical {
      assert Beats(s.nodes, s.canonical, id);
      hide WinsAt;
      if s.nodes[id].work == s.nodes[s.canonical].work {
        WinsAtFork(r, s, log, s.canonical, id, k);
      }
    }
  }

  /* ---------- the verdict on one body ---------- */

  // A refusal that another clock, another proof or another body may lift.
  predicate MayPass(answer: Option<ExtendError>) {
    match answer
    case Some(TimestampTooFarInFuture(_, _)) | Some(TxRootMismatch(_, _)) => true
    case Some(RewardClaimMismatch) | Some(CoinbaseMint) => true
    case _ => false
  }

  lemma ReadyOutcome(r: Law, s: Snapshot, b: Block, now: nat, answer: Option<ExtendError>, res: BodyIngest,
                     s': Snapshot)
    requires Settled(r, s) && IsChainJudge(r) && Named(r.rules, b) && BodyAnswer(r, s, b, now, res, s')
    requires r.BlockId(b) in s.pending && r.BlockId(b) !in s.stashed && b.header.prevId in s.nodes && Disjoint(s')
    requires var q := PathBlocks(s.nodes, b.header.prevId);
      q != [] && ChainRules.Explains(r.rules, q, StateOf(r.rules, q), b, now, answer)
    ensures var id := r.BlockId(b);
      && (id in s'.nodes <==> answer.None?)
      && (id in s'.dead <==> answer.Some? && !MayPass(answer))
      && (id in s'.dead ==> s'.dead[id] == Rejected(answer.value))
      && (id in s'.pending <==> MayPass(answer))
  {
    hide ChainRules.Explains, Verdict, StateOf, LawOk, TreeOk, Replayable, IsBest, PathBlocks, StartOutcome, BodyAnswer,
         Disjoint, StashOk, MayPass;
    var q := PathBlocks(s.nodes, b.header.prevId);
    VerdictIsExplained(r.rules, q, b, now);
    ExplanationIsUnique(r.rules, q, StateOf(r.rules, q), b, now, answer, Verdict(r.rules, q, b, now));
    assert r.judge(q, b, now) == Verdict(r.rules, q, b, now);
    OutcomeOfVerdict(r, s, b, now, answer, res, s');
  }

  lemma OutcomeOfVerdict(r: Law, s: Snapshot, b: Block, now: nat, v: Option<ExtendError>, res: BodyIngest, s': Snapshot)
    requires Settled(r, s) && Named(r.rules, b) && BodyAnswer(r, s, b, now, res, s')
    requires r.BlockId(b) in s.pending && r.BlockId(b) !in s.stashed && b.header.prevId in s.nodes && Disjoint(s')
    requires v == r.judge(PathBlocks(s.nodes, b.header.prevId), b, now)
    ensures var id := r.BlockId(b);
      && (id in s'.nodes <==> v.None?)
      && (id in s'.dead <==> v.Some? && !MayPass(v))
      && (id in s'.dead ==> s'.dead[id] == Rejected(v.value))
      && (id in s'.pending <==> MayPass(v))
  {
    hide LawOk, TreeOk, Replayable, IsBest, PathBlocks;
    var noted := BodyStashed(r, s, b);
    assert Ready(noted, r.BlockId(b)) && noted.stashed[r.BlockId(b)] == b && noted.nodes == s.nodes;
  }

  /** The first body of a pending id is judged at once when its parent is validated. If it is refused, the id is
      dead for that reason, unless another clock, proof or body may pass; then only the body is lost. */
  method JudgeReadyBody(fc: MmForkChoice, b: Block, now: nat, ghost answer: Option<ExtendError>)
    returns (res: BodyIngest)
    requires fc.Valid() && now <= MAX_CLOCK && Named(fc.rules, b)
    requires fc.rules.prim.headerId(b.header) in fc.pending && fc.rules.prim.headerId(b.header) !in fc.stashed
    requires b.header.prevId in fc.nodes
    requires var q := PathBlocks(fc.nodes, b.header.prevId);
      q != [] && ChainRules.Explains(fc.rules, q, StateOf(fc.rules, q), b, now, answer)
    modifies fc, fc.chain, fc.chain.state
    ensures fc.Valid()
    ensures fc.rules.prim.headerId(b.header) in fc.nodes <==> answer.None?
    ensures fc.rules.prim.headerId(b.header) in fc.dead <==> answer.Some? && !MayPass(answer)
    ensures answer.Some? && !MayPass(answer) ==> fc.dead[fc.rules.prim.headerId(b.header)] == Rejected(answer.value)
    ensures fc.rules.prim.headerId(b.header) in fc.pending <==> MayPass(answer)
  {
    ghost var s := fc.Snap();
    assert Settled(fc.law, s) && IsChainJudge(fc.law) && fc.law.rules == fc.rules;
    res := fc.IngestBody(b, now);
    assert Disjoint(fc.Snap());
    hide *;
    ReadyOutcome(fc.law, s, b, now, answer, res, fc.Snap());
  }

  lemma FirstFailure(r: Rules, q: seq<Block>, s: State, b: Block, now: nat, i: nat) returns (k: nat)
    requires q != [] && Passes(r, q, s, b, now, 7) && r.proofMode == RealProofs && s.leaves != []
    requires i < |b.body.transfers| && !r.prim.verifyTransfer(s.leaves, b.body.transfers[i], r.scTxFee)
    ensures ChainRules.Explains(r, q, s, b, now, Some(Proof(k)))
  {
    PassesNext(r, q, s, b, now, 7);
    k := 0;
    while r.prim.verifyTransfer(s.leaves, b.body.transfers[k], r.scTxFee)
      invariant k <= i && TransfersProved(r, s, b, k)
      decreases i - k
    {
      k := k + 1;
    }
  }

  /** A transfer proof that fails kills: a first body that gets as far as its proofs and has one that does not
      verify against the leaves before it leaves its id dead. */
  method FailingProofKills(fc: MmForkChoice, b: Block, now: nat, ghost i: nat) returns (res: BodyIngest)
    requires fc.Valid() && now <= MAX_CLOCK && Named(fc.rules, b) && fc.rules.proofMode == RealProofs
    requires fc.rules.prim.headerId(b.header) in fc.pending && fc.rules.prim.headerId(b.header) !in fc.stashed
    requires b.header.prevId in fc.nodes
    requires var q := PathBlocks(fc.nodes, b.header.prevId);
      && q != [] && Passes(fc.rules, q, StateOf(fc.rules, q), b, now, 7) && StateOf(fc.rules, q).leaves != []
      && i < |b.body.transfers|
      && !fc.rules.prim.verifyTransfer(StateOf(fc.rules, q).leaves, b.body.transfers[i], fc.rules.scTxFee)
    modifies fc, fc.chain, fc.chain.state
    ensures fc.Valid()
    ensures fc.rules.prim.headerId(b.header) in fc.dead
    ensures exists k :: fc.dead[fc.rules.prim.headerId(b.header)] == Rejected(Proof(k))
  {
    hide MmForkChoice.Valid, StateOf, PathBlocks, Passes, ChainRules.Explains, Named;
    ghost var q := PathBlocks(fc.nodes, b.header.prevId);
    ghost var k := FirstFailure(fc.rules, q, StateOf(fc.rules, q), b, now, i);
    res := JudgeReadyBody(fc, b, now, Some(Proof(k)));
  }
}
