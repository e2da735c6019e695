/** The fork-choice object. It keeps a tree of accepted blocks weighted by work, everything that still
    waits to join it, and one linear chain that is moved from branch to branch. */
module ForkChoice {
  import opened Common
  import opened Blocks
  import opened ShieldedStates
  import opened Chains
  import opened BlockTree
  import opened ForkState
  import opened ForkSteps
  import opened ForkRuns
  import opened ForkCalls

  class MmForkChoice {
    const rules: Rules
    // The chain's verdict, as a function value.
    ghost const law: Law
    const genesis: Id
    var chain: Chain
    var materialized: Id
    var canonical: Id
    var nodes: Nodes
    var pending: map<Id, PendingShare>
    var stashed: map<Id, Block>
    var dead: map<Id, DeadReason>
    var anchors: map<Id, nat>
    // Every public call so far, and the snapshot before each.
    ghost var log: seq<Event>
    ghost var past: seq<Snapshot>

    ghost function Snap(): Snapshot
      reads this
    {
      Snapshot(nodes, pending, stashed, dead, anchors, canonical)
    }

    ghost predicate LawBound() {
      law.rules == rules && IsChainJudge(law) && genesis == law.GenesisId()
    }

    /** The cursor: the embedded chain holds exactly the path to the materialized block
        (its state is then the fold over that path, by the chain's own invariant). */
    ghost predicate Materialized()
      reads this, chain, chain.state
    {
      var c := chain;
      c.Valid() && c.rules == rules && materialized in nodes && c.blocks == PathBlocks(nodes, materialized)
    }

    ghost predicate Valid()
      reads this, chain, chain.state
    {
      && LawBound()
      && Materialized()
      && materialized == canonical
      && var s := Snap();
         Settled(law, s) && Run(law, past + [s], log) && Explained(law, s, log)
    }

    /** A fresh tree holds only genesis. */
    constructor (rules: Rules)
      ensures Valid() && this.rules == rules && law == ChainLaw(rules)
      ensures Snap() == InitialSnapshot(law) && log == [] && past == []
      ensures fresh(chain) && fresh(chain.state)
    {
      this.rules := rules;
      law := ChainLaw(rules);
      genesis := rules.GenesisId();
      chain := new Chain(rules);
      materialized, canonical := rules.GenesisId(), rules.GenesisId();
      nodes := map[rules.GenesisId() := BlockNode(rules.GenesisBlock(), 0, 0, 0, 0)];
      pending, stashed, dead, anchors := map[], map[], map[], map[];
      log, past := [], [];
      new;
      ChainLawIsJudge(rules);
      InitialIsSettled(law);
      InitialTracks(law);
      assert Snap() == InitialSnapshot(law);
    }

    method PathIdsOf(id: Id) returns (path: seq<Id>)
      requires LawBound() && TreeOk(law, nodes) && id in nodes
      ensures path == PathIds(nodes, id)
    {
      path := [id];
      var cur := id;
      ghost var tail: seq<Id> := [];
      while nodes[cur].height != 0
        invariant cur in nodes
        invariant Reversed(path) == [cur] + tail
        invariant PathIds(nodes, id) == PathIds(nodes, cur) + tail
        decreases nodes[cur].height
      {
        assert Linked(law, nodes, cur);
        PathOfChild(law, nodes, cur);
        ReversedAppend(path, nodes[cur].parent);
        tail := [cur] + tail;
        cur := nodes[cur].parent;
        path := path + [cur];
      }
      PathShape(law, nodes, cur);
      path := Reversed(path);
    }

    method IsAncestor(a: Id, d: Id) returns (res: bool)
      requires LawBound() && TreeOk(law, nodes) && a in nodes && d in nodes
      ensures res == IsAncestorOrEq(nodes, a, d)
    {
      var targetHeight := nodes[a].height;
      var cur := d;
      while true
        invariant cur in nodes
        invariant IsAncestorOrEq(nodes, a, d) <==> IsAncestorOrEq(nodes, a, cur)
        decreases nodes[cur].height
      {
        AncestorAtHeight(law, nodes, a, cur);
        PathShape(law, nodes, cur);
        if cur == a {
          return true;
        }
        if nodes[cur].height <= targetHeight {
          return false;
        }
        assert Linked(law, nodes, cur);
        PathOfChild(law, nodes, cur);
        cur := nodes[cur].parent;
      }
    }

    // The in-place comparison: does `a` come before `b`?
    method Preferred(a: Id, b: Id) returns (res: bool)
      requires LawBound() && TreeOk(law, nodes) && a in nodes && b in nodes
      ensures res == Beats(nodes, a, b)
    {
      if a == b {
        return false;
      }
      if nodes[a].work > nodes[b].work {
        return true;
      }
      if nodes[a].work < nodes[b].work {
        return false;
      }
      var pa := PathIdsOf(a);
      var pb := PathIdsOf(b);
      PathShape(law, nodes, a);
      PathShape(law, nodes, b);
      var i := ForkIndex(pa, pb);
      PathBeatsAtFork(nodes, pa, pb, i);
      if i == |pa| {
        return false;
      }
      if i == |pb| {
        return true;
      }
      var da, db := pa[i], pb[i];
      return nodes[da].ergoHeight < nodes[db].ergoHeight || (nodes[da].ergoHeight == nodes[db].ergoHeight && da < db);
    }

    // Length of the common prefix of two paths.
    method ForkIndex(p: seq<Id>, q: seq<Id>) returns (fork: nat)
      ensures fork <= |p| && fork <= |q| && p[..fork] == q[..fork]
      ensures fork < |p| && fork < |q| ==> p[fork] != q[fork]
    {
      fork := 0;
      while fork < |p| && fork < |q| && p[fork] == q[fork]
        invariant fork <= |p| && fork <= |q| && p[..fork] == q[..fork]
      {
        fork := fork + 1;
      }
    }

    /** Move the cursor onto `target`: through the undo ring to the fork point, or by replay from
        genesis when the ring runs dry. Re-extension along a validated path never fails. */
    method SwitchTo(target: Id)
      requires LawBound() && TreeOk(law, nodes) && Replayable(law, nodes) && Materialized() && target in nodes
      modifies `chain, `materialized, chain, chain.state
      ensures Materialized() && materialized == target
      ensures chain == old(chain) || (fresh(chain) && fresh(chain.state))
    {
      if materialized == target {
        return;
      }
      var targetPath := PathIdsOf(target);
      var currentPath := PathIdsOf(materialized);
      PathShape(law, nodes, target);
      PathShape(law, nodes, materialized);
      ghost var goal := PathBlocks(nodes, target);
      var fork := ForkIndex(targetPath, currentPath);
      SharedPrefix(law, nodes, target, materialized, fork);
      var rolledBack := RollbackTo(fork, |currentPath|);
      if !rolledBack {
        chain := new Chain(rules);
        assert goal[..1] == [law.GenesisBlock()];
      }
      Reextend(targetPath, if rolledBack then fork else 1, target);
      materialized := target;
    }

    // Extend the embedded chain; its verdict is the law's.
    method Extend(block: Block, now: nat) returns (err: Option<ExtendError>)
      requires LawBound() && chain.Valid() && chain.rules == rules
      requires now + MAX_FUTURE_DRIFT_MS <= U64_MAX
      modifies chain, chain.state
      ensures chain.Valid()
      ensures err == law.judge(old(chain.blocks), block, now)
      ensures chain.blocks == if err.None? then old(chain.blocks) + [block] else old(chain.blocks)
    {
      err := chain.TryExtend(block, now);
    }

    // The blocks of the path from the fork on join the chain again, none of them refused.
    method Reextend(path: seq<Id>, from: nat, ghost target: Id)
      requires LawBound() && TreeOk(law, nodes) && Replayable(law, nodes) && target in nodes
      requires path == PathIds(nodes, target) && 1 <= from <= |path|
      requires from <= |PathBlocks(nodes, target)|
      requires chain.Valid() && chain.rules == rules && chain.blocks == PathBlocks(nodes, target)[..from]
      modifies chain, chain.state
      ensures chain.Valid() && chain.blocks == PathBlocks(nodes, target)
    {
      ghost var goal := PathBlocks(nodes, target);
      PathShape(law, nodes, target);
      for i := from to |path|
        invariant chain.Valid() && chain.blocks == goal[..i]
      {
        PathStepAccepted(law, nodes, target, i);
        var block := nodes[path[i]].block;
        var failure := Extend(block, block.header.timestampMs);
        assert failure.None?;
        assert goal[..i] + [block] == goal[..i + 1];
      }
      assert goal[..|path|] == goal;
    }

    // Roll back from length `len` to length `fork` unless the undo ring runs dry first.
    method RollbackTo(fork: nat, len: nat) returns (ok: bool)
      requires chain.Valid() && 1 <= fork <= len == |chain.blocks|
      modifies chain, chain.state
      ensures chain.Valid()
      ensures ok ==> chain.blocks == old(chain.blocks)[..fork]
      ensures ok <==> len - fork <= |old(chain.undoRing)|
    {
      for i := fork to len
        invariant chain.Valid()
        invariant |chain.blocks| == len - (i - fork) && chain.blocks == old(chain.blocks)[..len - (i - fork)]
        invariant |chain.undoRing| == |old(chain.undoRing)| - (i - fork)
      {
        var done := chain.RollbackTip();
        if !done {
          return false;
        }
      }
      return true;
    }

    method Kill(x: Id, why: DeadReason)
      modifies `pending, `stashed, `dead
      ensures Snap() == Killed(old(Snap()), x, why)
    {
      pending := pending - {x};
      stashed := stashed - {x};
      dead := dead[x := why];
    }

    method StashedChildren(x: Id) returns (children: seq<Id>)
      ensures Distinct(children) && Elems(children) == Children(stashed, x)
    {
      children := SetToSeq(set c | c in stashed && stashed[c].header.prevId == x);
    }

    // Kill the last id of the worklist and put its stashed children there.
    method KillNext(work: seq<Id>, why: DeadReason, ghost open: set<Id>, ghost ev: Evidence,
                    ghost track: bool)
      returns (work': seq<Id>)
      requires work != []
      requires var s := Snap();
        Dying(law, s, open, work, ev, track) && forall x | x in work[..|work| - 1] :: OrphanIn(s, x)
      modifies `pending, `stashed, `dead
      ensures var s := Snap();
        Dying(law, s, open, work', ev, track) && forall x | x in work' :: OrphanIn(s, x)
      ensures Snap() == Killed(old(Snap()), work[|work| - 1], why)
      ensures stashed.Keys + Elems(work') < old(stashed.Keys) + Elems(work)
    {
      var x, rest := work[|work| - 1], work[..|work| - 1];
      assert work == rest + [x];
      Kill(x, why);
      var children := StashedChildren(x);
      DyingStepShrinks(old(Snap()), rest, x, why, children);
      DyingStep(law, old(Snap()), open, rest, x, why, children, ev, track);
      work' := rest + children;
    }

    // The death of `id` and of whatever is stashed below it.
    method MarkDead(id: Id, reason: DeadReason, ghost open: set<Id>, ghost ev: Evidence,
                    ghost track: bool)
      requires id !in nodes && id !in dead
      requires var s := Snap();
        && WellFormed(law, s, open, {id})
        && (track ==> Tracks(law, s, ev, {id}) && DeadTracked(law, s, ev, id))
      modifies `pending, `stashed, `dead
      ensures var s := Snap();
        && WellFormed(law, s, open - {id}, {})
        && Consumes(old(Snap()), s) && Reasoned(old(Snap()), s, id, reason)
        && (track ==> Tracks(law, s, ev, {}))
    {
      hide WellFormed, Tracks, DeadTracked, IsChainJudge;
      ghost var s0 := Snap();
      ghost var s := s0;
      DyingStart(law, s, open, id, ev, track);
      var work := KillNext([id], reason, open, ev, track);
      ConsumesKill(s0, s, id, reason);
      while work != []
        invariant var s := Snap();
          && Dying(law, s, open, work, ev, track) && Consumes(s0, s) && Reasoned(s0, s, id, reason)
          && forall x | x in work :: OrphanIn(s, x)
        decreases stashed.Keys + Elems(work)
      {
        s := Snap();
        var x := work[|work| - 1];
        assert OrphanIn(s, x);
        var parent := stashed[x].header.prevId;
        ReasonedKill(s0, s, id, reason, x);
        ConsumesKill(s0, s, x, DescendsFrom(parent));
        work := KillNext(work, DescendsFrom(parent), open, ev, track);
      }
      DyingDone(law, Snap(), open, id, ev, track);
    }

    method Install(id: Id)
      requires LawBound() && Ready(Snap(), id)
      modifies `materialized, `nodes, `pending, `stashed
      ensures Snap() == Activated(law, old(Snap()), id) && materialized == id
    {
      hide IsChainJudge;
      var block := stashed[id];
      var parent := block.header.prevId;
      var work := rules.prim.decodeBits(block.header.scNbits);
      var node := BlockNode(block, parent, block.header.height, nodes[parent].work + work, pending[id].ergoHeight);
      materialized := id;
      nodes := nodes[id := node];
      pending := pending - {id};
      stashed := stashed - {id};
    }

    method DropBody(id: Id)
      modifies `stashed
      ensures Snap() == Dropped(old(Snap()), id)
    {
      stashed := stashed - {id};
    }

    // The chain's verdict on a block on top of a validated parent; on acceptance the chain holds it.
    method Validate(parent: Id, block: Block, now: nat) returns (err: Option<ExtendError>)
      requires LawBound() && TreeOk(law, nodes) && Replayable(law, nodes) && Materialized() && parent in nodes
      requires now <= MAX_CLOCK
      modifies `chain, `materialized, chain, chain.state
      ensures chain == old(chain) || (fresh(chain) && fresh(chain.state))
      ensures chain.Valid() && chain.rules == rules && materialized == parent
      ensures PathBlocks(nodes, parent) != [] && err == law.judge(PathBlocks(nodes, parent), block, now)
      ensures chain.blocks == if err.None? then PathBlocks(nodes, parent) + [block] else PathBlocks(nodes, parent)
    {
      SwitchTo(parent);
      PathTip(law, nodes, parent);
      err := Extend(block, now);
    }

    // Record the verdict on a ready block in the bookkeeping.
    method Record(id: Id, err: Option<ExtendError>, now: nat, ghost open: set<Id>, ghost ev: Evidence,
                  ghost track: bool)
      requires LawBound() && now <= MAX_CLOCK
      requires var s := Snap(); Tracked(law, s, open, ev, now, track) && Ready(s, id)
      requires var q := PathBlocks(nodes, stashed[id].header.prevId); q != [] && err == law.judge(q, stashed[id], now)
      modifies `materialized, `nodes, `pending, `stashed, `dead
      ensures var s := Snap();
        && Tracked(law, s, if err.None? then (open - {id}) + Children(s.stashed, id) else open - {id}, ev, now, track)
        && ActivationOutcome(law, old(Snap()), id, now, err.None?, s)
      ensures err.None? ==> materialized == id
      ensures err.Some? ==> materialized == old(materialized) && nodes == old(nodes)
    {
      ghost var s := Snap();
      if err.None? {
        ActivateKeeps(law, s, open, id, now);
        if track {
          ActivateTracks(law, s, open, ev, now, id);
        }
        Install(id);
      } else if VerdictIsPermanent(err.value) {
        RejectionKills(law, s, open, ev, now, id, track);
        MarkDead(id, Rejected(err.value), open, ev, track);
      } else {
        DropStep(law, s, open, ev, now, id, track);
        DropBody(id);
      }
    }

    // The fate of one ready block: it joins the tree, dies, or loses its body.
    method TryActivate(id: Id, now: nat, ghost open: set<Id>, ghost ev: Evidence,
                       ghost track: bool) returns (joined: bool)
      requires LawBound() && Materialized() && now <= MAX_CLOCK
      requires var s := Snap(); Tracked(law, s, open, ev, now, track)
      modifies `chain, `materialized, `nodes, `pending, `stashed, `dead, chain, chain.state
      ensures Materialized()
      ensures chain == old(chain) || (fresh(chain) && fresh(chain.state))
      ensures var s := Snap();
        && Tracked(law, s, if joined then (open - {id}) + Children(s.stashed, id) else open - {id}, ev, now, track)
        && ActivationOutcome(law, old(Snap()), id, now, joined, s)
    {
      hide Chain.Valid, Tracks, IsChainJudge, LawOk, Disjoint, StashOk;
      ghost var s := Snap();
      if id !in stashed || id !in pending || stashed[id].header.prevId !in nodes {
        OpenWithoutUnready(law, s, open, id);
        return false;
      }
      var block := stashed[id];
      var err := Validate(block.header.prevId, block, now);
      assert Snap() == s;
      ActivatePath(law, s, open, id, now);
      Record(id, err, now, open, ev, track);
      return err.None?;
    }

    // Try the last id of the worklist; when it joins, its stashed children follow.
    method ActivateNext(queue: seq<Id>, now: nat, ghost ev: Evidence, ghost track: bool) returns (queue': seq<Id>,
                        joined: bool)
      requires LawBound() && Materialized() && now <= MAX_CLOCK && queue != []
      requires var s := Snap(); Tracked(law, s, Elems(queue), ev, now, track)
      modifies `chain, `materialized, `nodes, `pending, `stashed, `dead, chain, chain.state
      ensures Materialized()
      ensures chain == old(chain) || (fresh(chain) && fresh(chain.state))
      ensures !joined ==> queue' == queue[..|queue| - 1]
      ensures var s := Snap();
        && Tracked(law, s, Elems(queue'), ev, now, track)
        && ActivationOutcome(law, old(Snap()), Last(queue), now, joined, s)
        && OutcomeProgressed(old(Snap()), joined, s)
    {
      hide Chain.Valid, Materialized, LawBound, Tracked, ActivationOutcome, OutcomeProgressed;
      var id := queue[|queue| - 1];
      ghost var s0 := Snap();
      queue' := queue[..|queue| - 1];
      assert queue == queue' + [id];
      joined := TryActivate(id, now, Elems(queue), ev, track);
      ghost var open := Elems(queue) - {id};
      if joined {
        var children := StashedChildren(id);
        queue' := queue' + children;
        open := open + Elems(children);
      }
      OutcomeProgress(law, s0, Elems(queue), id, now, joined, Snap(), ev, track);
      TrackedMonotone(law, Snap(), open, Elems(queue'), ev, now, track);
    }

    // Everything that `start` makes ready, `start` first.
    method ActivateReadyFrom(start: Id, now: nat, ghost ev: Evidence, ghost track: bool) returns (activated: nat)
      requires LawBound() && Materialized() && now <= MAX_CLOCK
      requires var s := Snap(); Tracked(law, s, {start}, ev, now, track)
      modifies `chain, `materialized, `nodes, `pending, `stashed, `dead, chain, chain.state
      ensures Materialized()
      ensures chain == old(chain) || (fresh(chain) && fresh(chain.state))
      ensures |nodes| == |old(nodes)| + activated
      ensures var s := Snap();
        && Tracked(law, s, {}, ev, now, track)
        && Consumes(old(Snap()), s)
        && StartOutcome(law, old(Snap()), start, now, activated, s)
    {
      hide Chain.Valid, Materialized, LawBound, Tracked, ActivationOutcome, Activating, StartOutcome, Consumes;
      ghost var s0 := Snap();
      activated := 0;
      var queue := [start];
      ActivatingStart(law, s0, start, now, ev, track);
      while queue != []
        invariant Materialized()
        invariant chain == old(chain) || (fresh(chain) && fresh(chain.state))
        invariant var s := Snap(); Activating(law, s0, start, now, s, queue, activated, ev, track)
        decreases stashed.Keys, |queue|
      {
        ghost var s, all := Snap(), queue;
        assert Tracked(law, s, Elems(queue), ev, now, track) by {
          ActivatingOpen(law, s0, start, now, s, queue, activated, ev, track);
        }
        var joined;
        queue, joined := ActivateNext(queue, now, ev, track);
        ActivatingStep(law, s0, start, now, s, all, activated, ev, track, joined, Snap(), queue);
        if joined {
          activated := activated + 1;
        }
      }
      ActivatingDone(law, s0, start, now, Snap(), activated, ev, track);
    }

    // The scan for the best block, and the move of the chain onto it.
    method RefreshCanonical()
      requires LawBound() && Materialized()
      requires var s := Snap(); WellFormed(law, s, {}, {})
      modifies `canonical, `chain, `materialized, chain, chain.state
      ensures Materialized() && materialized == canonical
      ensures chain == old(chain) || (fresh(chain) && fresh(chain.state))
      ensures IsBest(nodes, canonical)
    {
      var best := ScanBest();
      canonical := best;
      if materialized != best {
        SwitchTo(best);
      }
    }

    method ScanBest() returns (best: Id)
      requires LawBound() && TreeOk(law, nodes)
      ensures IsBest(nodes, best)
    {
      best := genesis;
      var todo := nodes.Keys;
      while todo != {}
        invariant best in nodes && todo <= nodes.Keys
        invariant forall id | id in nodes && id !in todo && id != best :: Beats(nodes, best, id)
      {
        var id :| id in todo;
        ghost var before := best;
        var better := Preferred(id, best);
        if better {
          best := id;
        }
        forall x | x in nodes && x !in todo - {id} && x != best ensures Beats(nodes, best, x) {
          BeatsIsStrictTotalOrder(law, nodes, id, before, x);
        }
        todo := todo - {id};
      }
    }

    // What both entry points end with.
    method ActivateAndRefresh(start: Id, now: nat, ghost ev: Evidence, ghost track: bool) returns (activated: nat)
      requires LawBound() && Materialized() && now <= MAX_CLOCK
      requires var s := Snap(); Tracked(law, s, {start}, ev, now, track)
      modifies `chain, `materialized, `canonical, `nodes, `pending, `stashed, `dead, chain, chain.state
      ensures Materialized() && materialized == canonical
      ensures chain == old(chain) || (fresh(chain) && fresh(chain.state))
      ensures var s := Snap(); SettledFrom(law, old(Snap()), start, now, activated, s, ev, track)
    {
      hide Chain.Valid, Tracks, StartOutcome, Consumes;
      ghost var s0 := Snap();
      activated := ActivateReadyFrom(start, now, ev, track);
      ghost var s := Snap();
      RefreshCanonical();
      Recanonical(law, s, canonical, ev, now, track);
    }

    // Log the call that is being completed.
    ghost method Close(s0: Snapshot, e: Event)
      requires LawBound() && Materialized() && materialized == canonical
      requires var s := Snap(); Run(law, past + [s0], log) && Step(law, s0, e, s) && Explained(law, s, log + [e])
      modifies `log, `past
      ensures Valid()
      ensures Snap() == old(Snap()) && log == old(log) + [e] && past == old(past) + [s0]
    {
      hide Chain.Valid, Run, Explained, IsChainJudge;
      ghost var s := Snap();
      RunExtends(law, past + [s0], log, e, s);
      log, past := log + [e], past + [s0];
      assert Settled(law, s);
    }

    /** Ingest a verified share: recorded as pending weight, as a better tie-break key of a
        validated block, or refused on a dead id; then everything that became ready activates. */
    method IngestShare(share: Share, now: nat) returns (res: ShareIngest)
      requires Valid() && now <= MAX_CLOCK
      modifies this, chain, chain.state
      ensures Valid()
      ensures chain == old(chain) || (fresh(chain) && fresh(chain.state))
      ensures log == old(log) + [ShareSeen(share, now)] && past == old(past) + [old(Snap())]
      ensures var s := Snap(); ShareAnswer(law, old(Snap()), share, now, res, s)
    {
      hide Chain.Valid, Materialized, IsChainJudge, Settled, Run, Explained, Tracks, Step, ShareAnswer, Tracking,
           EvidenceOf, AddShare;
      ghost var s0 := Snap();
      ghost var e := ShareSeen(share, now);
      TrackingBefore(law, s0, log, e, now);
      if share.aegisId in dead {
        res := ShareIsDead;
        ShareOnDead(law, s0, share, now, EvidenceOf(law, log), Tracking(law, log + [e]));
      } else if share.aegisId in nodes {
        res := ShareIsKnown;
        ShareOnNode(share, now, EvidenceOf(law, log), Tracking(law, log + [e]));
      } else {
        res := ShareOnPending(share, now, EvidenceOf(law, log), Tracking(law, log + [e]));
      }
      ExplainedAfter(law, Snap(), log + [e]);
      Close(s0, e);
    }

    /** Ingest a block body: refused at the door, killed under a dead parent, or stashed and
        everything that became ready activated. */
    method IngestBody(block: Block, now: nat) returns (res: BodyIngest)
      requires Valid() && now <= MAX_CLOCK
      modifies this, chain, chain.state
      ensures Valid()
      ensures chain == old(chain) || (fresh(chain) && fresh(chain.state))
      ensures log == old(log) + [BodySeen(block, now)] && past == old(past) + [old(Snap())]
      ensures var s := Snap(); BodyAnswer(law, old(Snap()), block, now, res, s)
    {
      hide Chain.Valid, Materialized, IsChainJudge, Settled, Run, Explained, Tracks, Step, BodyAnswer, Tracking,
           EvidenceOf, AddBody, Authentic;
      ghost var s0, e := Snap(), BodySeen(block, now);
      ghost var track := Tracking(law, log + [e]);
      TrackingBefore(law, s0, log, e, now);
      var id := rules.BlockId(block);
      if id in nodes {
        res := AlreadyValidated;
        BodyIgnored(law, s0, block, now, EvidenceOf(law, log), track, res);
      } else if id in dead {
        res := BodyIsDead;
        BodyIgnored(law, s0, block, now, EvidenceOf(law, log), track, res);
      } else {
        var authentic := SelfAuthentic(block);
        if !authentic {
          res := NotSelfAuthenticating;
          BodyIgnored(law, s0, block, now, EvidenceOf(law, log), track, res);
        } else if block.header.prevId in dead {
          KillOrphan(block, now, log, track);
          res := BodyIsDead;
        } else {
          res := StashAndActivate(block, now, log, track);
        }
      }
      ExplainedAfter(law, Snap(), log + [e]);
      Close(s0, e);
    }

    // The bytes authenticate against the header's commitments.
    method SelfAuthentic(block: Block) returns (ok: bool)
      ensures ok == Authentic(rules, block)
    {
      if block.header.txRoot != rules.TxRoot(block.body) {
        return false;
      }
      match block.coinbase {
        case None => ok := block.header.rewardClaim == EMPTY_REWARD_CLAIM;
        case Some(proof) => ok := block.header.rewardClaim == rules.prim.encodeCm(proof.cm);
      }
    }

    // A body under a dead parent is dead.
    method KillOrphan(block: Block, now: nat, ghost known: seq<Event>, ghost track: bool)
      requires LawBound() && Materialized() && materialized == canonical
      requires Authentic(rules, block) && block.header.prevId in dead
      requires rules.BlockId(block) !in nodes && rules.BlockId(block) !in dead
      requires var s := Snap();
        && Settled(law, s)
        && (track ==> Tracks(law, s, EvidenceOf(law, known), {}) && Tracking(law, known + [BodySeen(block, now)]))
      modifies `pending, `stashed, `dead
      ensures Materialized() && materialized == canonical
      ensures var s := Snap();
        && Step(law, old(Snap()), BodySeen(block, now), s)
        && BodyAnswer(law, old(Snap()), block, now, BodyIsDead, s)
        && (track ==> Tracks(law, s, AddBody(law, EvidenceOf(law, known), block), {}))
    {
      hide Chain.Valid, Tracks, Settled, Step, BodyAnswer, WellFormed, EvidenceOf, AddBody, DeadTracked, Tracking,
           Consumes;
      ghost var s0, id, ev := Snap(), rules.BlockId(block), AddBody(law, EvidenceOf(law, known), block);
      OrphanReady(law, s0, block, now, known, track);
      MarkDead(rules.BlockId(block), DescendsFromDead, {}, ev, track);
      assert {} - {id} == {};
      OrphanCallIsStep(law, s0, block, now, Snap());
    }

    // Stash a body, unless one is there already, and activate what became ready.
    method StashAndActivate(block: Block, now: nat, ghost known: seq<Event>,
                            ghost track: bool) returns (res: BodyIngest)
      requires LawBound() && Materialized() && materialized == canonical && now <= MAX_CLOCK
      requires Authentic(rules, block) && block.header.prevId !in dead
      requires rules.BlockId(block) !in nodes && rules.BlockId(block) !in dead
      requires var s := Snap();
        && Settled(law, s)
        && (track ==> Tracks(law, s, EvidenceOf(law, known), {}) && Tracking(law, known + [BodySeen(block, now)]))
      modifies `chain, `materialized, `canonical, `nodes, `pending, `stashed, `dead, chain, chain.state
      ensures Materialized() && materialized == canonical
      ensures chain == old(chain) || (fresh(chain) && fresh(chain.state))
      ensures var s := Snap();
        && Step(law, old(Snap()), BodySeen(block, now), s)
        && BodyAnswer(law, old(Snap()), block, now, res, s)
        && (track ==> Tracks(law, s, AddBody(law, EvidenceOf(law, known), block), {}))
    {
      hide Chain.Valid, Tracks, Tracked, Settled, Step, BodyAnswer, SettledFrom, EvidenceOf, AddBody, Tracking;
      ghost var s0, ev := Snap(), AddBody(law, EvidenceOf(law, known), block);
      var id := rules.BlockId(block);
      StashReady(law, s0, block, now, known, track);
      if id !in stashed {
        stashed := stashed[id := block];
      }
      assert Snap() == BodyStashed(law, s0, block);
      var activated := ActivateAndRefresh(id, now, ev, track);
      res := if activated > 0 then BodyActivated(activated)
             else if id in dead then BodyIsDead
             else if id !in stashed then RejectedTransient
             else if id in pending then AwaitingParent else AwaitingShare;
      StashIsStep(law, s0, block, now, activated, Snap(), ev, track);
      StashAnswers(law, s0, block, now, activated, Snap(), ev, track, res);
    }

    /** A block was seen committed at an Ergo height: of all such heights the lowest counts. */
    method RecordAnchor(id: Id, inclusionHeight: nat)
      requires Valid()
      modifies `anchors, `log, `past
      ensures Valid()
      ensures log == old(log) + [AnchorSeen(id, inclusionHeight)] && past == old(past) + [old(Snap())]
      ensures Snap() == old(Snap()).(anchors := LowestAnchor(old(anchors), id, inclusionHeight))
    {
      hide Chain.Valid, Settled, Run, Explained, Step, IsBest, IsChainJudge;
      ghost var s0 := Snap();
      AnchorCallIsStep(law, s0, log, id, inclusionHeight);
      var lowest := if id in anchors then anchors[id] else inclusionHeight;
      if inclusionHeight < lowest {
        lowest := inclusionHeight;
      }
      anchors := anchors[id := lowest];
      assert anchors == LowestAnchor(s0.anchors, id, inclusionHeight);
      Close(s0, AnchorSeen(id, inclusionHeight));
    }

    /** The sum of the pending weights, whatever order the loop meets them in. */
    method PendingHostileWork() returns (total: nat)
      ensures total == PendingWork(Snap())
    {
      total := 0;
      var rest := pending;
      while rest != map[]
        invariant total + Sum(Works(rest)) == Sum(Works(pending))
        decreases rest.Keys
      {
        var id :| id in rest;
        SumRemove(Works(rest), id);
        assert Works(rest) - {id} == Works(rest - {id});
        total := total + rest[id].work;
        assert (rest - {id}).Keys == rest.Keys - {id};
        rest := rest - {id};
      }
      assert Works(rest) == map[];
    }

    /** The heaviest validated block outside the subtree of `x`, zero when there is none. */
    method HeaviestOutside(x: Id) returns (hostile: nat)
      requires LawBound() && TreeOk(law, nodes) && x in nodes
      ensures forall id | id in nodes && !IsAncestorOrEq(nodes, x, id) :: nodes[id].work <= hostile
      ensures hostile == 0 || exists id :: id in nodes && !IsAncestorOrEq(nodes, x, id) && nodes[id].work == hostile
    {
      hostile := 0;
      var todo := nodes.Keys;
      while todo != {}
        invariant todo <= nodes.Keys
        invariant forall id | id in nodes && id !in todo && !IsAncestorOrEq(nodes, x, id) :: nodes[id].work <= hostile
        invariant hostile == 0 || exists id :: id in nodes && !IsAncestorOrEq(nodes, x, id) && nodes[id].work == hostile
      {
        var id :| id in todo;
        var below := IsAncestor(x, id);
        if !below && nodes[id].work > hostile {
          hostile := nodes[id].work;
        }
        todo := todo - {id};
      }
    }

    // The newest canonical block whose anchor is settled.
    method SettledAnchor(settledHeight: nat) returns (anchor: Option<Id>)
      requires LawBound() && TreeOk(law, nodes) && canonical in nodes
      ensures anchor.Some? ==> anchor.value in nodes && IsSettledAnchor(Snap(), settledHeight, anchor.value)
      ensures anchor.None? ==> forall a :: !IsSettledAnchor(Snap(), settledHeight, a)
    {
      var path := PathIdsOf(canonical);
      PathShape(law, nodes, canonical);
      var i := |path|;
      while i > 0
        invariant 0 <= i <= |path|
        invariant forall j | i <= j < |path| :: !AnchoredBy(Snap(), settledHeight, path[j])
      {
        i := i - 1;
        if path[i] in anchors && anchors[path[i]] <= settledHeight {
          return Some(path[i]);
        }
      }
      return None;
    }

    /** The peg-finality verdict. */
    method IsFinalBlock(x: Id, margin: nat, settledHeight: nat) returns (res: bool)
      requires Valid()
      ensures res <==> IsFinal(Snap(), x, margin, settledHeight)
    {
      hide Chain.Valid, Run, Explained;
      if x !in nodes {
        return false;
      }
      var onBranch := IsAncestor(x, canonical);
      if !onBranch {
        return false;
      }
      var anchor := SettledAnchor(settledHeight);
      if anchor.None? {
        return false;
      }
      SettledAnchorIsUnique(Snap(), settledHeight, anchor.value);
      var under := IsAncestor(x, anchor.value);
      if !under {
        return false;
      }
      var hostile := HeaviestOutside(x);
      var hidden := PendingHostileWork();
      res := nodes[anchor.value].work >= hostile + hidden + margin;
      assert res <==> Leads(Snap(), x, anchor.value, margin);
    }

    /** The retarget view of the validated chain ending in `tip`: what the embedded chain would
        use for a child of that block. */
    method TipDaaView(tip: Id) returns (view: Option<seq<(nat, nat)>>)
      requires Valid()
      ensures view == if tip in nodes then Some(DaaView(PathBlocks(nodes, tip))) else None
      ensures tip == canonical ==> view == Some(DaaView(chain.blocks))
    {
      hide Chain.Valid, Run, Explained, IsBest;
      if tip !in nodes {
        return None;
      }
      var path := PathIdsOf(tip);
      PathShape(law, nodes, tip);
      ghost var blocks := PathBlocks(nodes, tip);
      var pairs: seq<(nat, nat)> := [];
      for i := 0 to |path|
        invariant pairs == DaaView(blocks)[..i]
      {
        var h := nodes[path[i]].block.header;
        pairs := pairs + [(h.timestampMs, h.scNbits)];
      }
      assert DaaView(blocks)[..|path|] == DaaView(blocks);
      return Some(pairs);
    }

    // A duplicate share of a validated block can only improve its tie-break key.
    method ShareOnNode(share: Share, now: nat, ghost ev: Evidence, ghost track: bool)
      requires LawBound() && Materialized() && materialized == canonical && share.aegisId in nodes
      requires var s := Snap();
        Settled(law, s) && (track ==> Tracks(law, s, ev, {}) && Punctual(AddShare(ev, share), now))
      modifies `chain, `materialized, `canonical, `nodes, chain, chain.state
      ensures Materialized() && materialized == canonical
      ensures chain == old(chain) || (fresh(chain) && fresh(chain.state))
      ensures var s := Snap();
        && Step(law, old(Snap()), ShareSeen(share, now), s)
        && ShareAnswer(law, old(Snap()), share, now, ShareIsKnown, s)
        && (track ==> Tracks(law, s, AddShare(ev, share), {}))
    {
      hide Chain.Valid, Tracks, Settled, Step, ShareAnswer, IsBest;
      ghost var s0, id := Snap(), share.aegisId;
      ghost var s1 := s0.(nodes := s0.nodes[id := WithBetterKey(s0.nodes[id], share.ergoHeight)]);
      BetterKeyReady(law, s0, s1, share, materialized, ev, now, track);
      if share.ergoHeight < nodes[share.aegisId].ergoHeight {
        nodes := nodes[share.aegisId := nodes[share.aegisId].(ergoHeight := share.ergoHeight)];
        assert Snap() == s1;
        RefreshCanonical();
        Recanonical(law, s1, canonical, AddShare(ev, share), now, track);
      } else {
        assert s1.nodes == s0.nodes;
        assert s1 == s0;
      }
      SettledNow(law, Snap());
      NodeCallIsStep(law, s0, share, now, Snap());
    }

    // A share for a block that is not validated is pending weight.
    method ShareOnPending(share: Share, now: nat, ghost ev: Evidence, ghost track: bool) returns (res: ShareIngest)
      requires LawBound() && Materialized() && materialized == canonical && now <= MAX_CLOCK
      requires share.aegisId !in nodes && share.aegisId !in dead
      requires var s := Snap();
        Settled(law, s) && (track ==> Tracks(law, s, ev, {}) && Punctual(AddShare(ev, share), now))
      modifies `chain, `materialized, `canonical, `nodes, `pending, `stashed, `dead, chain, chain.state
      ensures Materialized() && materialized == canonical
      ensures chain == old(chain) || (fresh(chain) && fresh(chain.state))
      ensures var s := Snap();
        && Step(law, old(Snap()), ShareSeen(share, now), s)
        && ShareAnswer(law, old(Snap()), share, now, res, s)
        && (track ==> Tracks(law, s, AddShare(ev, share), {}))
    {
      hide Chain.Valid, Tracks, Tracked, Settled, Step, ShareAnswer, SettledFrom;
      ghost var s0 := Snap();
      var id := share.aegisId;
      var entry := if id in pending then pending[id] else PendingShare(share.work, share.ergoHeight);
      if share.ergoHeight < entry.ergoHeight {
        entry := entry.(ergoHeight := share.ergoHeight);
      }
      assert entry == MergeShare(pending, share);
      PendingReady(law, s0, share, ev, now, track);
      pending := pending[id := entry];
      assert Snap() == ShareNoted(s0, share);
      var activated := ActivateAndRefresh(id, now, AddShare(ev, share), track);
      res := if activated > 0 then ShareActivated(activated) else if id in dead then ShareIsDead else ShareIsPending;
      PendingIsStep(law, s0, share, now, activated, Snap(), AddShare(ev, share), track);
      PendingAnswers(law, s0, share, now, activated, Snap(), AddShare(ev, share), track, res);
    }
  }
}
