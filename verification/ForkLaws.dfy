/** What the fork-choice object guarantees over whole histories of calls: the materialized
    chain, convergence, and finality. */
module ForkLaws {
  import opened Blocks
  import opened Chains
  import opened BlockTree
  import opened ForkState
  import opened ForkSteps
  import opened ForkRuns
  import opened ForkChoice

  /** Between calls the embedded chain is an accepted chain that ends in the canonical block,
      and its state is the fold of block application over exactly that path. */
  lemma MaterializationIsTheCanonicalFold(fc: MmForkChoice)
    requires fc.Valid()
    ensures fc.chain.blocks == PathBlocks(fc.nodes, fc.canonical)
    ensures ChainOk(fc.rules, fc.chain.blocks) && fc.rules.BlockId(Last(fc.chain.blocks)) == fc.canonical
    ensures fc.chain.state.View() == StateOf(fc.rules, PathBlocks(fc.nodes, fc.canonical))
  {
    fc.chain.ValidIsFold();
    PathTip(fc.law, fc.nodes, fc.canonical);
  }

  // The work pending for these ids, added up.
  function Pending(pending: map<Id, PendingShare>, ids: seq<Id>): nat
    requires forall id | id in ids :: id in pending
  {
    if ids == [] then 0 else Pending(pending, ids[..|ids| - 1]) + pending[ids[|ids| - 1]].work
  }

  lemma {:induction false} SumIsPending(pending: map<Id, PendingShare>, ids: seq<Id>)
    requires forall id :: id in ids <==> id in pending
    requires forall i, j | 0 <= i < j < |ids| :: ids[i] != ids[j]
    ensures Sum(Works(pending)) == Pending(pending, ids)
    decreases |ids|
  {
    hide Sum;
    if ids == [] {
      assert Works(pending) == map[] && Sum(map[]) == 0 by {
        SumOfNone();
      }
    } else {
      var rest, id := ids[..|ids| - 1], ids[|ids| - 1];
      SumRemove(Works(pending), id);
      assert Works(pending) - {id} == Works(pending - {id});
      forall x ensures x in rest <==> x in pending - {id} {
        assert x in ids <==> x in rest || x == id;
      }
      SumIsPending(pending - {id}, rest);
      PendingFrame(pending, pending - {id}, rest);
    }
  }

  lemma SumOfNone()
    ensures Sum(map[]) == 0
  {
  }

  lemma {:induction false} PendingFrame(a: map<Id, PendingShare>, b: map<Id, PendingShare>, ids: seq<Id>)
    requires forall id | id in ids :: id in a && id in b && a[id] == b[id]
    ensures Pending(a, ids) == Pending(b, ids)
  {
    if ids != [] {
      PendingFrame(a, b, ids[..|ids| - 1]);
    }
  }

  /** The hidden weight is the work pending for all ids together, in whatever order they are added up. */
  lemma HiddenIsPending(s: Snapshot, ids: seq<Id>)
    requires forall id :: id in ids <==> id in s.pending
    requires forall i, j | 0 <= i < j < |ids| :: ids[i] != ids[j]
    ensures PendingWork(s) == Pending(s.pending, ids)
  {
    SumIsPending(s.pending, ids);
  }

  ghost predicate ShareOf(later: seq<Event>, id: Id, i: nat) {
    i < |later| && later[i].ShareSeen? && later[i].share.aegisId == id
  }

  /** New weight is that of the ids first shared later on: unknown before, with the work one of their shares
      says. */
  lemma {:induction false} NewWorksMean(s: Snapshot, later: seq<Event>, id: Id)
    ensures id in NewWorks(s, later) <==>
            id !in s.nodes && id !in s.pending && id !in s.dead && exists i: nat :: ShareOf(later, id, i)
    ensures id in NewWorks(s, later) ==>
            exists i: nat :: ShareOf(later, id, i) && later[i].share.work == NewWorks(s, later)[id]
    decreases |later|
  {
    if later != [] {
      var rest := later[..|later| - 1];
      NewWorksMean(s, rest, id);
      assert ShareOf(later, id, |rest|) <==> Last(later).ShareSeen? && Last(later).share.aegisId == id;
      assert forall i: nat :: i < |rest| ==> (ShareOf(later, id, i) <==> ShareOf(rest, id, i)) && later[i] == rest[i];
    }
  }

  // The best settled block of the canonical path, at index i of it.
  ghost predicate SettledAt(s: Snapshot, settledHeight: nat, i: nat) {
    var path := PathIds(s.nodes, s.canonical);
    && i < |path| && path[i] in s.anchors && s.anchors[path[i]] <= settledHeight
    && forall j | i < j < |path| :: path[j] in s.anchors ==> s.anchors[path[j]] > settledHeight
  }

  // The blocks up to `a` are harder than all pending work, and harder than it and the blocks up to any
  // `id` off x's branch together, by the margin.
  ghost predicate HarderThan(r: Rules, s: Snapshot, a: Id, x: Id, margin: nat) {
    var lead := TotalDifficulty(r, PathBlocks(s.nodes, a));
    && lead >= PendingWork(s) + margin
    && forall id | id in s.nodes && x !in PathIds(s.nodes, id) ::
         lead >= TotalDifficulty(r, PathBlocks(s.nodes, id)) + PendingWork(s) + margin
  }

  lemma LeadsIsHarder(r: Law, s: Snapshot, a: Id, x: Id, margin: nat)
    requires TreeOk(r, s.nodes) && a in s.nodes
    ensures Leads(s, x, a, margin) <==> HarderThan(r.rules, s, a, x, margin)
  {
    forall id | id in s.nodes ensures s.nodes[id].work == TotalDifficulty(r.rules, PathBlocks(s.nodes, id)) {
      WorkIsTotalDifficulty(r, s.nodes, id);
    }
    hide TotalDifficulty, PathBlocks, PathIds, TreeOk, PendingWork;
  }

  // The settled anchor is unique on the path, so its index is.
  lemma SettledAtIsAnchor(r: Law, s: Snapshot, settledHeight: nat, i: nat)
    requires TreeOk(r, s.nodes) && s.canonical in s.nodes && SettledAt(s, settledHeight, i)
    ensures i < |PathIds(s.nodes, s.canonical)|
    ensures var a := PathIds(s.nodes, s.canonical)[i];
      a in s.nodes && IsSettledAnchor(s, settledHeight, a)
      && PathIds(s.nodes, a) == PathIds(s.nodes, s.canonical)[..i + 1]
  {
    PathPrefix(r, s.nodes, s.canonical, i);
    hide PathIds, PathBlocks, TreeOk;
  }

  lemma AnchorIsSettledAt(s: Snapshot, settledHeight: nat, a: Id) returns (i: nat)
    requires IsSettledAnchor(s, settledHeight, a)
    ensures SettledAt(s, settledHeight, i) && PathIds(s.nodes, s.canonical)[i] == a
  {
    hide PathIds;
    var path := PathIds(s.nodes, s.canonical);
    i :| 0 <= i < |path| && path[i] == a && AnchoredBy(s, settledHeight, a)
         && forall j | i < j < |path| :: !AnchoredBy(s, settledHeight, path[j]);
    forall j | i < j < |path| && path[j] in s.anchors ensures s.anchors[path[j]] > settledHeight {
      assert !AnchoredBy(s, settledHeight, path[j]);
    }
  }

  // The settled block at index i of the canonical path decides for x.
  ghost predicate DecidesFor(r: Rules, s: Snapshot, x: Id, margin: nat, settledHeight: nat, i: nat) {
    && SettledAt(s, settledHeight, i)
    && x in PathIds(s.nodes, s.canonical)[..i + 1]
    && HarderThan(r, s, PathIds(s.nodes, s.canonical)[i], x, margin)
  }

  /** What finality compares: decoded difficulties along paths. A block is final exactly when some settled
      block of the canonical path at or above it leads every other branch by the margin. */
  lemma FinalityComparesDifficulty(r: Law, s: Snapshot, x: Id, margin: nat, settledHeight: nat)
    requires Settled(r, s)
    ensures IsFinal(s, x, margin, settledHeight) <==>
            exists i: nat :: DecidesFor(r.rules, s, x, margin, settledHeight, i)
  {
    PathShape(r, s.nodes, s.canonical);
    if IsFinal(s, x, margin, settledHeight) {
      var a := FinalAnchor(s, x, margin, settledHeight);
      FinalIsDecided(r, s, x, margin, settledHeight, a);
    }
    if i: nat :| DecidesFor(r.rules, s, x, margin, settledHeight, i) {
      DecidedIsFinal(r, s, x, margin, settledHeight, i);
    }
  }

  lemma FinalAnchor(s: Snapshot, x: Id, margin: nat, settledHeight: nat) returns (a: Id)
    requires IsFinal(s, x, margin, settledHeight)
    ensures a in s.nodes && IsSettledAnchor(s, settledHeight, a) && IsAncestorOrEq(s.nodes, x, a)
    ensures Leads(s, x, a, margin)
  {
    hide IsSettledAnchor, IsAncestorOrEq, Leads;
    a :| a in s.nodes && IsSettledAnchor(s, settledHeight, a) && IsAncestorOrEq(s.nodes, x, a)
         && Leads(s, x, a, margin);
  }

  lemma FinalIsDecided(r: Law, s: Snapshot, x: Id, margin: nat, settledHeight: nat, a: Id)
    requires TreeOk(r, s.nodes) && s.canonical in s.nodes && a in s.nodes
    requires IsSettledAnchor(s, settledHeight, a) && IsAncestorOrEq(s.nodes, x, a) && Leads(s, x, a, margin)
    ensures exists i: nat :: DecidesFor(r.rules, s, x, margin, settledHeight, i)
  {
    var i := AnchorIsSettledAt(s, settledHeight, a);
    SettledAtIsAnchor(r, s, settledHeight, i);
    LeadsIsHarder(r, s, a, x, margin);
    hide SettledAt, HarderThan, IsSettledAnchor, Leads, PathIds, TreeOk;
    assert DecidesFor(r.rules, s, x, margin, settledHeight, i);
  }

  lemma DecidedIsFinal(r: Law, s: Snapshot, x: Id, margin: nat, settledHeight: nat, i: nat)
    requires TreeOk(r, s.nodes) && s.canonical in s.nodes
    requires DecidesFor(r.rules, s, x, margin, settledHeight, i)
    ensures IsFinal(s, x, margin, settledHeight)
  {
    SettledAtIsAnchor(r, s, settledHeight, i);
    var a := PathIds(s.nodes, s.canonical)[i];
    LeadsIsHarder(r, s, a, x, margin);
    PathShape(r, s.nodes, s.canonical);
    hide SettledAt, HarderThan, IsSettledAnchor, Leads, PathIds, TreeOk;
  }

  /** Two nodes with the same rules that were fed the same shares, bodies and anchors, in any order,
      with any repetition and each by its own clocks, hold the same tree, the same tip and the same
      chain state, when no body came too early for its node. */
  lemma NodesConverge(a: MmForkChoice, b: MmForkChoice)
    requires a.Valid() && b.Valid() && a.law == b.law
    requires SameContent(a.log, b.log) && Coherent(a.law, a.log) && OnTime(a.law, a.log) && OnTime(b.law, b.log)
    ensures a.nodes == b.nodes && a.pending == b.pending && a.stashed == b.stashed && a.dead.Keys == b.dead.Keys
    ensures a.canonical == b.canonical
    ensures a.chain.blocks == b.chain.blocks && a.chain.state.View() == b.chain.state.View()
  {
    Convergence(a.law, a.Snap(), a.log, b.Snap(), b.log);
    MaterializationIsTheCanonicalFold(a);
    MaterializationIsTheCanonicalFold(b);
  }

  /** A block that was final before the i-th call is still in the materialized chain, at its
      height, when the shares first seen since total less than the margin. */
  lemma FinalBlockStaysInChain(fc: MmForkChoice, i: nat, x: Id, margin: nat, settledHeight: nat)
    requires fc.Valid() && i < |fc.past| && HonestShares(fc.law, fc.log)
    requires IsFinal(fc.past[i], x, margin, settledHeight)
    requires Sum(NewWorks(fc.past[i], fc.log[i..])) < margin
    ensures x in fc.nodes && fc.nodes[x].height < |fc.chain.blocks|
    ensures fc.chain.blocks[fc.nodes[x].height] == fc.nodes[x].block
  {
    hide Explained, IsChainJudge, Chain.Valid, HonestShares, IsFinal, LawOk, Replayable, Disjoint, StashOk, IsBest,
         Sum, NewWorks, ForkRuns.StepAt;
    var states := fc.past + [fc.Snap()];
    assert fc.log[i..] == fc.log[i..|fc.log|];
    FinalityIsSafe(fc.law, states, fc.log, i, |fc.past|, x, margin, settledHeight);
    PathShape(fc.law, fc.nodes, fc.canonical);
    AncestorAtHeight(fc.law, fc.nodes, x, fc.canonical);
  }
}
