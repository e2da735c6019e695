/** Finality and ties. When the canonical block of a tie is final, which share then takes the tip away
    from it, and that the bound of the safety theorem cannot be relaxed by a single unit of work. */
module ForkTies {
  import opened Blocks
  import opened Chains
  import opened BlockTree
  import opened ForkState
  import opened ForkSteps
  import opened ForkRuns
  import opened ForkCalls
  import opened ForkChoice
  import opened ForkLimits

  /* ---------- when the canonical block of a tie is final ---------- */

  // x is canonical and y, outside its subtree, is as heavy as the tip.
  ghost predicate Tied(s: Snapshot, x: Id, y: Id) {
    && x in s.nodes && y in s.nodes && s.canonical in s.nodes
    && IsAncestorOrEq(s.nodes, x, s.canonical) && !IsAncestorOrEq(s.nodes, x, y)
    && s.nodes[y].work == s.nodes[s.canonical].work
  }

  // The settled anchor lies above x and is as heavy as the tip.
  ghost predicate AnchoredAtTipWork(s: Snapshot, x: Id, settledHeight: nat)
    requires s.canonical in s.nodes
  {
    exists a :: a in s.nodes && IsSettledAnchor(s, settledHeight, a) && IsAncestorOrEq(s.nodes, x, a)
             && s.nodes[a].work == s.nodes[s.canonical].work
  }

  /** When a tie finalizes: exactly with margin zero, nothing pending to be charged, and an anchor that
      is as heavy as the tip, as it is when the tip itself is anchored. */
  lemma TieIsFinalIff(r: Law, s: Snapshot, x: Id, y: Id, margin: nat, settledHeight: nat)
    requires Settled(r, s) && Tied(s, x, y)
    ensures IsFinal(s, x, margin, settledHeight) <==>
              margin == 0 && PendingWork(s) == 0 && AnchoredAtTipWork(s, x, settledHeight)
    ensures AnchoredBy(s, settledHeight, s.canonical) ==> AnchoredAtTipWork(s, x, settledHeight)
  {
    var c := s.canonical;
    PathShape(r, s.nodes, c);
    if AnchoredBy(s, settledHeight, c) {
      assert IsSettledAnchor(s, settledHeight, c);
    }
    if IsFinal(s, x, margin, settledHeight) {
      FinalBlockLeads(r, s, x, margin, settledHeight, y);
      var a :| a in s.nodes && IsSettledAnchor(s, settledHeight, a) && IsAncestorOrEq(s.nodes, x, a)
               && Leads(s, x, a, margin);
      BestIsHeaviest(s.nodes, c, a);
    }
    forall id | id in s.nodes ensures s.nodes[id].work <= s.nodes[c].work {
      BestIsHeaviest(s.nodes, c, id);
    }
  }

  /* ---------- which share takes the tip ---------- */

  // Where two paths part: equal before this index, different at it.
  ghost predicate PartAt(p: seq<Id>, q: seq<Id>, k: nat) {
    k < |p| && k < |q| && p[..k] == q[..k] && p[k] != q[k]
  }

  lemma SharedEntry(p: seq<Id>, q: seq<Id>, k: nat, i: nat)
    requires i < k <= |p| && k <= |q| && p[..k] == q[..k]
    ensures p[i] in q
  {
    assert p[i] == p[..k][i] == q[..k][i] == q[i];
  }

  // Off a path below x, a path parts at or below x.
  lemma PartBelow(r: Law, nodes: Nodes, x: Id, y: Id, z: Id, k: nat)
    requires TreeOk(r, nodes) && x in nodes && y in nodes && z in nodes
    requires IsAncestorOrEq(nodes, x, z) && !IsAncestorOrEq(nodes, x, y)
    requires k < |PathIds(nodes, z)| && k <= |PathIds(nodes, y)| && PathIds(nodes, z)[..k] == PathIds(nodes, y)[..k]
    ensures k < |PathIds(nodes, x)| && PathIds(nodes, z)[..k + 1] == PathIds(nodes, x)[..k + 1]
  {
    AncestorAtHeight(r, nodes, x, z);
    var h, p, q := nodes[x].height, PathIds(nodes, z), PathIds(nodes, y);
    if h < k {
      SharedEntry(p, q, k, h);
    }
    PathPrefix(r, nodes, z, h);
    PathShape(r, nodes, x);
    assert p[..k + 1] == p[..h + 1][..k + 1];
  }

  // A block that is as heavy as any in x's subtree and has the better key where the paths part wins.
  lemma RivalWins(r: Law, s: Snapshot, x: Id, y: Id, k: nat)
    requires Settled(r, s) && x in s.nodes && y in s.nodes && !IsAncestorOrEq(s.nodes, x, y)
    requires PartAt(PathIds(s.nodes, x), PathIds(s.nodes, y), k)
    requires KeyLess(s.nodes, PathIds(s.nodes, y)[k], PathIds(s.nodes, x)[k])
    requires forall z | z in s.nodes && IsAncestorOrEq(s.nodes, x, z) :: s.nodes[z].work <= s.nodes[y].work
    ensures !IsAncestorOrEq(s.nodes, x, s.canonical)
  {
    var z := s.canonical;
    if IsAncestorOrEq(s.nodes, x, z) {
      var p, q, t := PathIds(s.nodes, x), PathIds(s.nodes, y), PathIds(s.nodes, z);
      AncestorAtHeight(r, s.nodes, x, z);
      PathShape(r, s.nodes, x);
      PathPrefix(r, s.nodes, z, s.nodes[x].height);
      assert t[..k] == t[..|p|][..k] == p[..k] && t[k] == t[..|p|][k] == p[k];
      PathBeatsAtFork(s.nodes, q, t, k);
      assert q[k..][0] == q[k] && t[k..][0] == t[k];
      assert Beats(s.nodes, z, y);
      BeatsIsStrictTotalOrder(r, s.nodes, z, y, z);
    }
  }

  // The share gives the rival's first block of its own an earlier key than the canonical one has.
  predicate Earlier(nodes: Nodes, sh: Share, c: Id) {
    sh.ergoHeight < ErgoOf(nodes, c) || (sh.ergoHeight == ErgoOf(nodes, c) && sh.aegisId < c)
  }

  // A path that beats another one still does when no comparison turns around.
  lemma {:induction false} PathBeatsKept(nodes: Nodes, nodes': Nodes, p: seq<Id>, q: seq<Id>)
    requires PathBeats(nodes, p, q)
    requires forall i | 0 <= i < |p| && i < |q| && p[i] != q[i] && KeyLess(nodes, p[i], q[i]) ::
               KeyLess(nodes', p[i], q[i])
    ensures PathBeats(nodes', p, q)
  {
    if p != [] && q != [] && p[0] == q[0] {
      PathBeatsKept(nodes, nodes', p[1..], q[1..]);
    }
  }

  // Without it every comparison of the canonical path holds as before.
  lemma TipIsKept(r: Law, s: Snapshot, nodes': Nodes, y: Id, k: nat, sh: Share)
    requires Settled(r, s) && y in s.nodes && s.nodes[y].work == s.nodes[s.canonical].work
    requires PartAt(PathIds(s.nodes, s.canonical), PathIds(s.nodes, y), k) && sh.aegisId == PathIds(s.nodes, y)[k]
    requires sh.aegisId in s.nodes && nodes' == s.nodes[sh.aegisId := WithBetterKey(s.nodes[sh.aegisId], sh.ergoHeight)]
    requires TreeOk(r, nodes') && !Earlier(s.nodes, sh, PathIds(s.nodes, s.canonical)[k])
    ensures IsBest(nodes', s.canonical)
  {
    var c, rival := s.canonical, sh.aegisId;
    var p := PathIds(s.nodes, c);
    PathShape(r, s.nodes, c);
    PathShape(r, s.nodes, y);
    PathBeatsAtFork(s.nodes, p, PathIds(s.nodes, y), k);
    assert p[k..][0] == p[k] && PathIds(s.nodes, y)[k..][0] == rival;
    assert c != y && Beats(s.nodes, c, y);
    assert KeyLess(s.nodes, p[k], rival) && KeyLess(nodes', p[k], rival);
    forall z | z in nodes' && z != c ensures Beats(nodes', c, z) {
      StillBeats(r, s, nodes', c, z, rival, k);
    }
  }

  lemma StillBeats(r: Law, s: Snapshot, nodes': Nodes, c: Id, z: Id, rival: Id, k: nat)
    requires TreeOk(r, s.nodes) && TreeOk(r, nodes') && Grows(s.nodes, nodes') && nodes'.Keys == s.nodes.Keys
    requires c in s.nodes && z in s.nodes && Beats(s.nodes, c, z)
    requires rival in s.nodes && forall id | id in s.nodes && id != rival :: nodes'[id] == s.nodes[id]
    requires s.nodes[rival].height == k < |PathIds(s.nodes, c)| && PathIds(s.nodes, c)[k] != rival
    requires KeyLess(nodes', PathIds(s.nodes, c)[k], rival)
    ensures Beats(nodes', c, z)
  {
    PathFrame(r, s.nodes, nodes', c);
    PathFrame(r, s.nodes, nodes', z);
    if s.nodes[c].work == s.nodes[z].work {
      var p, q := PathIds(s.nodes, c), PathIds(s.nodes, z);
      PathShape(r, s.nodes, c);
      PathShape(r, s.nodes, z);
      forall i | 0 <= i < |p| && i < |q| && p[i] != q[i] && KeyLess(s.nodes, p[i], q[i])
        ensures KeyLess(nodes', p[i], q[i])
      {
        assert s.nodes[p[i]].height == i && s.nodes[q[i]].height == i;
      }
      PathBeatsKept(s.nodes, nodes', p, q);
    }
  }

  /** The exact effect of a share on a tie: a share for the block where the rival's path parts from the
      canonical one, known already and so without any new weight, is a step of a run, and takes the
      tip out of x's subtree if and only if it gives that block the earlier key. Otherwise the tip stays. */
  lemma TieBreakDecides(r: Law, s: Snapshot, x: Id, y: Id, k: nat, sh: Share, now: nat, res: ShareIngest, s': Snapshot)
    requires Settled(r, s) && Settled(r, s') && Tied(s, x, y)
    requires PartAt(PathIds(s.nodes, s.canonical), PathIds(s.nodes, y), k) && sh.aegisId == PathIds(s.nodes, y)[k]
    requires ShareAnswer(r, s, sh, now, res, s')
    ensures Step(r, s, ShareSeen(sh, now), s') && NewWorks(s, [ShareSeen(sh, now)]) == map[]
    ensures var taken := Earlier(s.nodes, sh, PathIds(s.nodes, s.canonical)[k]);
      && (!IsAncestorOrEq(s'.nodes, x, s'.canonical) <==> taken)
      && (!taken ==> s'.canonical == s.canonical)
  {
    PathShape(r, s.nodes, y);
    KnownShare(r, s, sh, now, res, s');
    if Earlier(s.nodes, sh, PathIds(s.nodes, s.canonical)[k]) {
      EarlierTakes(r, s, x, y, k, sh, s');
    } else {
      TipIsKept(r, s, s'.nodes, y, k, sh);
      BestIsUnique(r, s'.nodes, s'.canonical, s.canonical);
      PathFrame(r, s.nodes, s'.nodes, s.canonical);
    }
  }

  // A share of a validated block changes its key and the tip.
  lemma KnownShare(r: Law, s: Snapshot, sh: Share, now: nat, res: ShareIngest, s': Snapshot)
    requires Settled(r, s) && Settled(r, s') && ShareAnswer(r, s, sh, now, res, s') && sh.aegisId in s.nodes
    ensures s'.nodes == s.nodes[sh.aegisId := WithBetterKey(s.nodes[sh.aegisId], sh.ergoHeight)]
    ensures Grows(s.nodes, s'.nodes)
    ensures Step(r, s, ShareSeen(sh, now), s') && NewWorks(s, [ShareSeen(sh, now)]) == map[]
  {
    BetterKeyKeeps(r, s, sh.aegisId, sh.ergoHeight);
    NodeCallIsStep(r, s, sh, now, s');
  }

  lemma EarlierTakes(r: Law, s: Snapshot, x: Id, y: Id, k: nat, sh: Share, s': Snapshot)
    requires Settled(r, s) && Settled(r, s') && Tied(s, x, y)
    requires PartAt(PathIds(s.nodes, s.canonical), PathIds(s.nodes, y), k) && sh.aegisId == PathIds(s.nodes, y)[k]
    requires Earlier(s.nodes, sh, PathIds(s.nodes, s.canonical)[k]) && sh.aegisId in s.nodes
    requires s'.nodes == s.nodes[sh.aegisId := WithBetterKey(s.nodes[sh.aegisId], sh.ergoHeight)]
    requires Grows(s.nodes, s'.nodes)
    ensures !IsAncestorOrEq(s'.nodes, x, s'.canonical)
  {
    var p, q := PathIds(s.nodes, s.canonical), PathIds(s.nodes, y);
    PathShape(r, s.nodes, s.canonical);
    PartBelow(r, s.nodes, x, y, s.canonical, k);
    var t := PathIds(s.nodes, x);
    assert t[..k] == t[..k + 1][..k] == p[..k + 1][..k] == p[..k];
    assert t[k] == t[..k + 1][k] == p[..k + 1][k] == p[k];
    PathFrame(r, s.nodes, s'.nodes, x);
    PathFrame(r, s.nodes, s'.nodes, y);
    forall z | z in s'.nodes && IsAncestorOrEq(s'.nodes, x, z) ensures s'.nodes[z].work <= s'.nodes[y].work {
      BestIsHeaviest(s.nodes, s.canonical, z);
    }
    RivalWins(r, s', x, y, k);
  }

  /** The same for any reachable object: one call on it decides the tie. */
  method BreakTheTie(fc: MmForkChoice, x: Id, y: Id, ghost k: nat, sh: Share, now: nat) returns (res: ShareIngest)
    requires fc.Valid() && now <= MAX_CLOCK && Tied(fc.Snap(), x, y)
    requires PartAt(PathIds(fc.nodes, fc.canonical), PathIds(fc.nodes, y), k) && sh.aegisId == PathIds(fc.nodes, y)[k]
    modifies fc, fc.chain, fc.chain.state
    ensures fc.Valid() && fc.log == old(fc.log) + [ShareSeen(sh, now)] && fc.past == old(fc.past) + [old(fc.Snap())]
    ensures NewWorks(old(fc.Snap()), [ShareSeen(sh, now)]) == map[]
    ensures !IsAncestorOrEq(fc.nodes, x, fc.canonical) <==>
              Earlier(old(fc.nodes), sh, PathIds(old(fc.nodes), old(fc.canonical))[k])
  {
    hide MmForkChoice.Valid, ShareAnswer, Settled, Tied, PartAt, PathIds, IsAncestorOrEq, Earlier;
    ghost var s := fc.Snap();
    SettledInside(fc);
    res := fc.IngestShare(sh, now);
    SettledInside(fc);
    TieBreakDecides(fc.law, s, x, y, k, sh, now, res, fc.Snap());
  }

  lemma SettledInside(fc: MmForkChoice)
    requires fc.Valid()
    ensures Settled(fc.law, fc.Snap())
  {
  }

  /* ---------- two rivals on a fresh object ---------- */

  // Genesis and two children of equal work, nothing pending.
  ghost predicate Tie(r: Law, nodes: Nodes, x: Id, y: Id) {
    var g := r.GenesisId();
    && TreeOk(r, nodes) && nodes.Keys == {g, x, y} && x != g && y != g && x != y
    && nodes[x].parent == nodes[y].parent == g
    && nodes[x].work == nodes[y].work
  }

  lemma TiePaths(r: Law, nodes: Nodes, x: Id, y: Id)
    requires Tie(r, nodes, x, y)
    ensures var g := r.GenesisId();
      PathIds(nodes, g) == [g] && PathIds(nodes, x) == [g, x] && PathIds(nodes, y) == [g, y]
  {
    assert Linked(r, nodes, x) && Linked(r, nodes, y);
    assert PathIds(nodes, r.GenesisId()) == [r.GenesisId()];
  }

  lemma TieWinner(r: Law, nodes: Nodes, x: Id, y: Id)
    requires Tie(r, nodes, x, y) && KeyLess(nodes, x, y)
    ensures IsBest(nodes, x)
  {
    var g := r.GenesisId();
    TiePaths(r, nodes, x, y);
    assert Linked(r, nodes, x) && Linked(r, nodes, y);
    assert [g, y][1..] == [y] && [g, x][1..] == [x] && [g][1..] == [];
    assert PathBeats(nodes, [x], [y]) && PathBeats(nodes, [g, x], [g, y]);
    assert PathBeats(nodes, [x], []) && PathBeats(nodes, [g, x], [g]);
  }

  // Two rival first blocks, the Ergo heights of their shares, and the anchor of the first.
  datatype Rivals = Rivals(left: Block, right: Block, leftHeight: nat, rightHeight: nat, inclusion: nat)

  ghost predicate RivalsOk(r: Law, t: Rivals, now: nat) {
    var g, x, y := r.GenesisId(), r.BlockId(t.left), r.BlockId(t.right);
    && x != g && y != g && x != y
    && t.left.header.prevId == g && t.right.header.prevId == g
    && Authentic(r.rules, t.left) && Authentic(r.rules, t.right)
    && r.Accepts([r.GenesisBlock()], t.left) && r.Accepts([r.GenesisBlock()], t.right)
    && r.rules.prim.decodeBits(t.left.header.scNbits) == r.rules.prim.decodeBits(t.right.header.scNbits)
    && t.left.header.timestampMs <= now + MAX_FUTURE_DRIFT_MS
    && t.right.header.timestampMs <= now + MAX_FUTURE_DRIFT_MS
  }

  // The shares of the two blocks carry the difficulties that their bits decode to.
  function LeftShare(r: Rules, t: Rivals): Share {
    Share(r.BlockId(t.left), r.prim.decodeBits(t.left.header.scNbits), t.leftHeight)
  }

  function RightShare(r: Rules, t: Rivals): Share {
    Share(r.BlockId(t.right), r.prim.decodeBits(t.right.header.scNbits), t.rightHeight)
  }

  // The first block delivered, shared and anchored.
  ghost function FirstCalls(r: Law, t: Rivals, now: nat): seq<Event> {
    [BodySeen(t.left, now), ShareSeen(LeftShare(r.rules, t), now), AnchorSeen(r.BlockId(t.left), t.inclusion)]
  }

  // Then the second one delivered and shared.
  ghost function SecondCalls(r: Law, t: Rivals, now: nat): seq<Event> {
    [BodySeen(t.right, now), ShareSeen(RightShare(r.rules, t), now)]
  }

  ghost function FirstEvidence(r: Law, t: Rivals): Evidence {
    var x := r.BlockId(t.left);
    Evidence(map[x := PendingShare(LeftShare(r.rules, t).work, t.leftHeight)], map[x := t.left], map[x := t.inclusion])
  }

  ghost function BothEvidence(r: Law, t: Rivals): Evidence {
    var x, y := r.BlockId(t.left), r.BlockId(t.right);
    Evidence(map[x := PendingShare(LeftShare(r.rules, t).work, t.leftHeight),
                 y := PendingShare(RightShare(r.rules, t).work, t.rightHeight)],
             map[x := t.left, y := t.right],
             map[x := t.inclusion])
  }

  lemma EvidencePush(r: Law, log: seq<Event>, e: Event)
    ensures EvidenceOf(r, log + [e]) == AddEvent(r, EvidenceOf(r, log), e)
  {
    assert (log + [e])[..|log|] == log;
  }

  lemma NothingSeen(r: Law)
    ensures EvidenceOf(r, []) == Evidence(map[], map[], map[])
  {
  }

  lemma FirstCallsShow(r: Law, t: Rivals, now: nat)
    requires RivalsOk(r, t, now)
    ensures EvidenceOf(r, FirstCalls(r, t, now)) == FirstEvidence(r, t)
  {
    hide EvidenceOf;
    var c := FirstCalls(r, t, now);
    NothingSeen(r);
    EvidencePush(r, [], c[0]);
    EvidencePush(r, c[..1], c[1]);
    EvidencePush(r, c[..2], c[2]);
    assert [] + [c[0]] == c[..1] && c[..1] + [c[1]] == c[..2] && c[..2] + [c[2]] == c;
  }

  lemma BothCallsShow(r: Law, t: Rivals, now: nat)
    requires RivalsOk(r, t, now)
    ensures EvidenceOf(r, FirstCalls(r, t, now) + SecondCalls(r, t, now)) == BothEvidence(r, t)
  {
    hide EvidenceOf;
    var c, d := FirstCalls(r, t, now), SecondCalls(r, t, now);
    FirstCallsShow(r, t, now);
    EvidencePush(r, c, d[0]);
    EvidencePush(r, c + [d[0]], d[1]);
    assert c + [d[0]] + [d[1]] == c + d;
  }

  lemma CallsAreRegular(r: Law, t: Rivals, now: nat)
    requires RivalsOk(r, t, now)
    ensures Tracking(r, FirstCalls(r, t, now))
    ensures Tracking(r, FirstCalls(r, t, now) + SecondCalls(r, t, now))
  {
    var c, d := FirstCalls(r, t, now), SecondCalls(r, t, now);
    OneClockIsOnTime(r, c + d, now);
    assert c + d == c + [d[0]] + [d[1]];
    TrackingPrefix(r, c + [d[0]], d[1]);
    TrackingPrefix(r, c, d[0]);
  }

  lemma FirstStepIsValid(r: Law, ev: Evidence, b: Block)
    requires r.BlockId(b) in ev.shares && r.BlockId(b) in ev.bodies && ev.bodies[r.BlockId(b)] == b
    requires r.Accepts([r.GenesisBlock()], b)
    ensures IsValid(r, ev, r.BlockId(b))
  {
    var root := [r.GenesisBlock()];
    assert ValidPath(r, ev, root);
    assert Extends(r, ev, root, b);
    var q := root + [b];
    assert |q| == 2 && q[..1] == root && Last(q) == b;
    assert ValidPath(r, ev, q);
  }

  // Whatever is validated or dead was delivered.
  lemma NodesWereSeen(r: Law, s: Snapshot, ev: Evidence)
    requires Settled(r, s) && Tracks(r, s, ev, {})
    ensures r.GenesisId() in s.nodes
    ensures forall id | id in s.nodes :: id == r.GenesisId() || id in ev.bodies
    ensures forall id | id in s.dead :: id in ev.bodies
  {
    hide LawOk, Replayable, IsBest, IsDoomed;
    forall id | id in s.dead ensures id in ev.bodies {
      assert DeadTracked(r, s, ev, id);
    }
    forall id | id in s.nodes ensures id == r.GenesisId() || id in ev.bodies {
      assert id != r.GenesisId() ==> NodeTracked(s, ev, id);
    }
  }

  // Only the first block: it is the tip, and anchored.
  ghost predicate Alone(r: Law, s: Snapshot, t: Rivals) {
    var x := r.BlockId(t.left);
    && Settled(r, s) && s.nodes.Keys == {r.GenesisId(), x} && x != r.GenesisId()
    && s.nodes[x].parent == r.GenesisId() && s.nodes[x].block == t.left
    && s.canonical == x && s.pending == map[] && s.dead == map[] && s.anchors == map[x := t.inclusion]
  }

  // Both blocks, a tie.
  ghost predicate Paired(r: Law, s: Snapshot, t: Rivals) {
    var x, y := r.BlockId(t.left), r.BlockId(t.right);
    && Settled(r, s) && Tie(r, s.nodes, x, y)
    && s.pending == map[] && s.anchors == map[x := t.inclusion]
    && s.nodes[x].ergoHeight == t.leftHeight && s.nodes[y].ergoHeight == t.rightHeight
  }

  lemma FirstIsAlone(r: Law, s: Snapshot, t: Rivals, now: nat)
    requires Settled(r, s) && RivalsOk(r, t, now) && Tracks(r, s, FirstEvidence(r, t), {})
    ensures Alone(r, s, t)
  {
    hide LawOk, Replayable, ValidPath, DeadTracked, BodyTracked, StashOk, Authentic;
    var g, x, ev := r.GenesisId(), r.BlockId(t.left), FirstEvidence(r, t);
    FirstStepIsValid(r, ev, t.left);
    SetsMatchReference(r, s, ev, x);
    NodesWereSeen(r, s, ev);
    assert NodeTracked(s, ev, x) && Linked(r, s.nodes, x);
    assert PathIds(s.nodes, g) == [g] && PathIds(s.nodes, x) == [g, x];
    assert [g, x][1..] == [x] && [g][1..] == [];
    assert PathBeats(s.nodes, [x], []) && PathBeats(s.nodes, [g, x], [g]);
    assert s.canonical == g ==> Beats(s.nodes, g, x);
    PathBeatsTotal(s.nodes, [g, x], [g]);
    assert s.pending == map[];
    assert s.dead == map[];
  }

  lemma BothArePaired(r: Law, s: Snapshot, t: Rivals, now: nat)
    requires Settled(r, s) && RivalsOk(r, t, now) && Tracks(r, s, BothEvidence(r, t), {})
    ensures Paired(r, s, t)
  {
    hide LawOk, Replayable, ValidPath, DeadTracked, BodyTracked, IsBest, Disjoint, StashOk, Authentic;
    var x, y, ev := r.BlockId(t.left), r.BlockId(t.right), BothEvidence(r, t);
    FirstStepIsValid(r, ev, t.left);
    FirstStepIsValid(r, ev, t.right);
    SetsMatchReference(r, s, ev, x);
    SetsMatchReference(r, s, ev, y);
    NodesWereSeen(r, s, ev);
    assert NodeTracked(s, ev, x) && NodeTracked(s, ev, y);
    assert Linked(r, s.nodes, x) && Linked(r, s.nodes, y);
    assert s.pending == map[];
  }

  // The better key wins the pair.
  lemma PairWinner(r: Law, s: Snapshot, t: Rivals)
    requires Paired(r, s, t)
    ensures var x, y := r.BlockId(t.left), r.BlockId(t.right);
      s.canonical == if KeyLess(s.nodes, x, y) then x else y
  {
    var x, y := r.BlockId(t.left), r.BlockId(t.right);
    if KeyLess(s.nodes, x, y) {
      TieWinner(r, s.nodes, x, y);
      BestIsUnique(r, s.nodes, s.canonical, x);
    } else {
      TieWinner(r, s.nodes, y, x);
      BestIsUnique(r, s.nodes, s.canonical, y);
    }
  }

  // A block alone on genesis is final up to its own work.
  lemma AloneIsFinal(r: Law, s: Snapshot, t: Rivals, margin: nat, settledHeight: nat)
    requires Alone(r, s, t) && t.inclusion <= settledHeight
    ensures IsFinal(s, r.BlockId(t.left), margin, settledHeight) <==>
            margin <= r.rules.prim.decodeBits(t.left.header.scNbits)
  {
    var g, x := r.GenesisId(), r.BlockId(t.left);
    assert Linked(r, s.nodes, x);
    assert PathIds(s.nodes, g) == [g] && PathIds(s.nodes, x) == [g, x];
    assert Works(s.pending) == map[];
    assert [g, x][1] == x && IsSettledAnchor(s, settledHeight, x);
    assert s.nodes[x].work == r.rules.prim.decodeBits(t.left.header.scNbits) && s.nodes[g].work == 0;
  }

  // Once paired, the first block is tied with the second where their paths part.
  lemma PairIsTied(r: Law, s: Snapshot, t: Rivals, settledHeight: nat)
    requires Paired(r, s, t) && t.leftHeight < t.rightHeight && t.inclusion <= settledHeight
    ensures var x, y := r.BlockId(t.left), r.BlockId(t.right);
      && Tied(s, x, y) && PartAt(PathIds(s.nodes, s.canonical), PathIds(s.nodes, y), 1)
      && PathIds(s.nodes, y)[1] == y && PathIds(s.nodes, s.canonical)[1] == x && ErgoOf(s.nodes, x) == t.leftHeight
      && IsFinal(s, x, 0, settledHeight)
  {
    var x, y := r.BlockId(t.left), r.BlockId(t.right);
    PairWinner(r, s, t);
    TiePaths(r, s.nodes, x, y);
    assert Works(s.pending) == map[];
    TieIsFinalIff(r, s, x, y, 0, settledHeight);
    assert [r.GenesisId(), x][..1] == [r.GenesisId(), y][..1];
  }

  lemma LawCalls(rules: Rules, t: Rivals, now: nat)
    ensures FirstCalls(ChainLaw(rules), t, now) ==
      [] + [BodySeen(t.left, now)] + [ShareSeen(LeftShare(rules, t), now)] +
      [AnchorSeen(rules.BlockId(t.left), t.inclusion)]
    ensures FirstCalls(ChainLaw(rules), t, now) + SecondCalls(ChainLaw(rules), t, now) ==
      FirstCalls(ChainLaw(rules), t, now) + [BodySeen(t.right, now)] +
      [ShareSeen(RightShare(rules, t), now)]
  {
  }

  lemma AloneIn(fc: MmForkChoice, t: Rivals, now: nat)
    requires fc.Valid() && fc.log == FirstCalls(fc.law, t, now) && RivalsOk(fc.law, t, now)
    ensures Alone(fc.law, fc.Snap(), t)
  {
    hide Chain.Valid, Run, RivalsOk, Alone;
    FirstCallsShow(fc.law, t, now);
    CallsAreRegular(fc.law, t, now);
    FirstIsAlone(fc.law, fc.Snap(), t, now);
  }

  lemma PairedIn(fc: MmForkChoice, t: Rivals, now: nat)
    requires fc.Valid() && RivalsOk(fc.law, t, now)
    requires fc.log == FirstCalls(fc.law, t, now) + SecondCalls(fc.law, t, now)
    ensures Paired(fc.law, fc.Snap(), t)
  {
    hide Chain.Valid, Run, RivalsOk, Paired;
    BothCallsShow(fc.law, t, now);
    CallsAreRegular(fc.law, t, now);
    BothArePaired(fc.law, fc.Snap(), t, now);
  }

  // Deliver, share and anchor the first block, then deliver and share the second.
  method OfferRivals(rules: Rules, t: Rivals, now: nat) returns (fc: MmForkChoice)
    requires now <= MAX_CLOCK && RivalsOk(ChainLaw(rules), t, now)
    ensures fresh(fc) && fresh(fc.chain) && fresh(fc.chain.state) && fc.Valid() && fc.law == ChainLaw(rules)
    ensures fc.log == FirstCalls(fc.law, t, now) + SecondCalls(fc.law, t, now) && |fc.past| == 5
    ensures Alone(fc.law, fc.past[3], t) && Paired(fc.law, fc.Snap(), t)
  {
    hide *;
    fc := new MmForkChoice(rules);
    LawCalls(rules, t, now);
    var _ := fc.IngestBody(t.left, now);
    var _ := fc.IngestShare(LeftShare(rules, t), now);
    fc.RecordAnchor(rules.BlockId(t.left), t.inclusion);
    AloneIn(fc, t, now);
    var _ := fc.IngestBody(t.right, now);
    var _ := fc.IngestShare(RightShare(rules, t), now);
    PairedIn(fc, t, now);
  }

  /** Margin zero through the object, which starts empty: with the first block found final on a tie,
      one more share of the second, that proves nothing but an earlier Ergo height, takes the tip. */
  method ZeroMarginLosesTheTip(rules: Rules, t: Rivals, settledHeight: nat, now: nat)
    returns (fc: MmForkChoice, final: bool)
    requires now <= MAX_CLOCK && RivalsOk(ChainLaw(rules), t, now)
    requires 0 < t.leftHeight < t.rightHeight && t.inclusion <= settledHeight
    ensures fc.Valid() && final && |fc.past| == |fc.log| == 6
    ensures IsFinal(fc.past[5], rules.BlockId(t.left), 0, settledHeight)
    ensures NewWorks(fc.past[5], fc.log[5..]) == map[]
    ensures !IsAncestorOrEq(fc.nodes, rules.BlockId(t.left), fc.canonical)
  {
    hide MmForkChoice.Valid, RivalsOk, IsFinal, Settled, Tie, Tied, PartAt, Alone, IsAncestorOrEq, PathIds;
    fc := OfferRivals(rules, t, now);
    var x, y := rules.BlockId(t.left), rules.BlockId(t.right);
    PairIsTied(fc.law, fc.Snap(), t, settledHeight);
    final := fc.IsFinalBlock(x, 0, settledHeight);
    var _ := BreakTheTie(fc, x, y, 1, Share(y, rules.prim.decodeBits(t.right.header.scNbits), 0), now);
    assert fc.log[5..] == [ShareSeen(Share(y, rules.prim.decodeBits(t.right.header.scNbits), 0), now)];
  }

  /** The bound of the safety theorem is tight: here the first block is final with its own work as the
      margin, later shares bring exactly that much, and with the better key they take the tip. */
  method ExactMarginLosesTheTip(rules: Rules, t: Rivals, settledHeight: nat, now: nat) returns (fc: MmForkChoice)
    requires now <= MAX_CLOCK && RivalsOk(ChainLaw(rules), t, now) && t.inclusion <= settledHeight
    requires t.rightHeight < t.leftHeight
    requires HonestShares(ChainLaw(rules), FirstCalls(ChainLaw(rules), t, now) + SecondCalls(ChainLaw(rules), t, now))
    ensures fc.Valid() && |fc.past| == |fc.log| == 5 && HonestShares(fc.law, fc.log)
    ensures IsFinal(fc.past[3], rules.BlockId(t.left), rules.prim.decodeBits(t.left.header.scNbits), settledHeight)
    ensures Sum(NewWorks(fc.past[3], fc.log[3..])) == rules.prim.decodeBits(t.left.header.scNbits)
    ensures !IsAncestorOrEq(fc.nodes, rules.BlockId(t.left), fc.canonical)
  {
    hide MmForkChoice.Valid, RivalsOk, IsFinal, Settled, Alone, Paired, HonestShares, IsAncestorOrEq, PathIds;
    fc := OfferRivals(rules, t, now);
    ghost var r := fc.law;
    AloneIsFinal(r, fc.past[3], t, r.rules.prim.decodeBits(t.left.header.scNbits), settledHeight);
    assert fc.log[3..] == SecondCalls(r, t, now);
    SecondIsNew(r, fc.past[3], t, now);
    RightTakesTheTip(r, fc.Snap(), t);
  }

  lemma SecondIsNew(r: Law, s: Snapshot, t: Rivals, now: nat)
    requires Alone(r, s, t) && RivalsOk(r, t, now)
    ensures Sum(NewWorks(s, SecondCalls(r, t, now))) == r.rules.prim.decodeBits(t.left.header.scNbits)
  {
    var y, c := r.BlockId(t.right), SecondCalls(r, t, now);
    assert c[..1] == [c[0]] && c[..1][..0] == [];
    assert NewWorks(s, c[..1]) == map[];
    SumRemove(map[y := r.rules.prim.decodeBits(t.right.header.scNbits)], y);
    assert map[y := r.rules.prim.decodeBits(t.right.header.scNbits)] - {y} == map[];
  }

  lemma RightTakesTheTip(r: Law, s: Snapshot, t: Rivals)
    requires Paired(r, s, t) && t.rightHeight < t.leftHeight
    ensures !IsAncestorOrEq(s.nodes, r.BlockId(t.left), s.canonical)
  {
    PairWinner(r, s, t);
    TiePaths(r, s.nodes, r.BlockId(t.left), r.BlockId(t.right));
  }
}
