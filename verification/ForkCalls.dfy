/** What the worklists and the public calls of fork choice do, on values: one lemma for each
    round of a worklist, and one for closing each kind of call. */
module ForkCalls {
  import opened Common
  import opened Blocks
  import opened ShieldedStates
  import opened Chains
  import opened BlockTree
  import opened ForkState
  import opened ForkSteps
  import opened ForkRuns

  datatype ShareIngest = ShareIsPending | ShareIsKnown | ShareIsDead | ShareActivated(activated: nat)

  datatype BodyIngest =
    | BodyActivated(joined: nat)
    | AwaitingShare
    | AwaitingParent
    | AlreadyValidated
    | BodyIsDead
    | NotSelfAuthenticating
    | RejectedTransient

  function Reversed<T>(s: seq<T>): (t: seq<T>)
    ensures |t| == |s|
  {
    if s == [] then [] else Reversed(s[1..]) + [s[0]]
  }

  lemma {:induction false} ReversedAppend<T>(s: seq<T>, x: T)
    ensures Reversed(s + [x]) == [x] + Reversed(s)
  {
    if s == [] {
      assert s + [x] == [x];
    } else {
      assert (s + [x])[1..] == s[1..] + [x];
      ReversedAppend(s[1..], x);
    }
  }

  // At most one common prefix length separates two paths.
  lemma SharedPrefix(r: Law, nodes: Nodes, a: Id, b: Id, k: nat)
    requires TreeOk(r, nodes) && a in nodes && b in nodes
    requires k <= |PathIds(nodes, a)| && k <= |PathIds(nodes, b)|
    requires PathIds(nodes, a)[..k] == PathIds(nodes, b)[..k]
    ensures k <= |PathBlocks(nodes, a)| && k <= |PathBlocks(nodes, b)|
    ensures PathBlocks(nodes, a)[..k] == PathBlocks(nodes, b)[..k]
  {
    PathShape(r, nodes, a);
    PathShape(r, nodes, b);
    forall i | 0 <= i < k ensures PathBlocks(nodes, a)[i] == PathBlocks(nodes, b)[i] {
      assert PathIds(nodes, a)[i] == PathIds(nodes, a)[..k][i] == PathIds(nodes, b)[..k][i] == PathIds(nodes, b)[i];
    }
  }

  // The tie-break between two paths is decided right after their common prefix.
  lemma {:induction false} PathBeatsAtFork(nodes: Nodes, p: seq<Id>, q: seq<Id>, k: nat)
    requires k <= |p| && k <= |q| && p[..k] == q[..k]
    ensures PathBeats(nodes, p, q) == PathBeats(nodes, p[k..], q[k..])
  {
    if k > 0 {
      assert p[0] == p[..k][0] == q[..k][0] == q[0];
      assert p[1..][..k - 1] == p[..k][1..] && q[1..][..k - 1] == q[..k][1..];
      PathBeatsAtFork(nodes, p[1..], q[1..], k - 1);
      assert p[1..][k - 1..] == p[k..] && q[1..][k - 1..] == q[k..];
    } else {
      assert p[0..] == p && q[0..] == q;
    }
  }

  // The next block of a path is accepted on the blocks before it, at its own timestamp.
  lemma PathStepAccepted(r: Law, nodes: Nodes, target: Id, i: nat)
    requires TreeOk(r, nodes) && Replayable(r, nodes) && target in nodes
    requires 1 <= i < |PathIds(nodes, target)|
    ensures |PathBlocks(nodes, target)| == |PathIds(nodes, target)|
    ensures var id := PathIds(nodes, target)[i];
      && id in nodes
      && PathBlocks(nodes, target)[i] == nodes[id].block
      && r.Accepts(PathBlocks(nodes, target)[..i], nodes[id].block)
      && nodes[id].block.header.timestampMs + MAX_FUTURE_DRIFT_MS <= U64_MAX
  {
    PathShape(r, nodes, target);
    var id := PathIds(nodes, target)[i];
    PathPrefix(r, nodes, target, i);
    PathPrefix(r, nodes, target, i - 1);
    assert id != r.GenesisId();
    assert Replays(r, nodes, id);
    PathOfChild(r, nodes, id);
    var q := PathBlocks(nodes, target)[..i];
    assert PathBlocks(nodes, id)[..i] == PathBlocks(nodes, target)[..i + 1][..i] == q;
  }

  lemma PopLast(rest: seq<Id>, x: Id)
    requires Distinct(rest + [x])
    ensures Distinct(rest) && x !in rest && Elems(rest) == Elems(rest + [x]) - {x}
  {
    var all := rest + [x];
    assert all[|rest|] == x;
    forall i | 0 <= i < |rest| ensures rest[i] != x {
      assert all[i] != all[|rest|];
    }
    forall i, j | 0 <= i < j < |rest| ensures rest[i] != rest[j] {
      assert all[i] != all[j];
    }
  }

  method SetToSeq(ids: set<Id>) returns (s: seq<Id>)
    ensures Distinct(s) && Elems(s) == ids
  {
    s := [];
    var todo := ids;
    while todo != {}
      invariant todo <= ids && Distinct(s) && Elems(s) == ids - todo
    {
      var x :| x in todo;
      FreshAppend(s, {}, x);
      assert Elems(s + [x]) == Elems(s) + {x};
      todo := todo - {x};
      s := s + [x];
    }
  }

  // An id that is not ready need not be in the open set.
  lemma OpenWithoutUnready(r: Law, s: Snapshot, open: set<Id>, id: Id)
    requires WellFormed(r, s, open, {}) && !Ready(s, id)
    ensures WellFormed(r, s, open - {id}, {})
  {
    forall x | Ready(s, x) ensures x in open - {id} {
    }
  }

  // A permanent rejection of a ready block: it may be killed.
  lemma RejectionKills(r: Law, s: Snapshot, open: set<Id>, ev: Evidence, now: nat, id: Id, track: bool)
    requires WellFormed(r, s, open, {}) && Ready(s, id)
    requires var q := PathBlocks(s.nodes, s.stashed[id].header.prevId);
      q != [] && r.judge(q, s.stashed[id], now).Some? && VerdictIsPermanent(r.judge(q, s.stashed[id], now).value)
    requires track ==> Tracks(r, s, ev, {}) && Punctual(ev, now)
    ensures WellFormed(r, s, open, {id})
    ensures track ==> Tracks(r, s, ev, {id}) && DeadTracked(r, s, ev, id)
  {
    if track {
      RejectedIsDoomed(r, s, open, ev, id);
      forall x | x in ev.bodies ensures BodyTracked(r, s, ev, x, {id}) {
        assert BodyTracked(r, s, ev, x, {});
      }
    }
  }

  // A transient rejection of a ready block: its body may be dropped.
  lemma DropStep(r: Law, s: Snapshot, open: set<Id>, ev: Evidence, now: nat, id: Id, track: bool)
    requires WellFormed(r, s, open, {}) && Ready(s, id)
    requires var q := PathBlocks(s.nodes, s.stashed[id].header.prevId);
      q != [] && r.judge(q, s.stashed[id], now).Some? && !VerdictIsPermanent(r.judge(q, s.stashed[id], now).value)
    requires track ==> Tracks(r, s, ev, {}) && Punctual(ev, now)
    ensures WellFormed(r, Dropped(s, id), open - {id}, {}) && Consumes(s, Dropped(s, id))
    ensures track ==> Tracks(r, Dropped(s, id), ev, {})
  {
    DropKeeps(r, s, open, id);
    if track {
      DropTracks(r, s, open, ev, id);
    }
  }

  /* ---------- the kill worklist ---------- */

  ghost predicate OrphanIn(s: Snapshot, x: Id) {
    x in s.stashed && s.stashed[x].header.prevId in s.dead
  }

  // The worklist holds distinct, doomed, not yet dead ids: all that may still have a dead parent.
  ghost predicate Dying(r: Law, s: Snapshot, open: set<Id>, work: seq<Id>, ev: Evidence, track: bool) {
    && Distinct(work)
    && WellFormed(r, s, open, Elems(work))
    && (forall x | x in work :: x !in s.nodes && x !in s.dead)
    && (track ==> Tracks(r, s, ev, Elems(work)) && forall x | x in work :: DeadTracked(r, s, ev, x))
  }

  lemma ConsumesKill(s0: Snapshot, s: Snapshot, x: Id, why: DeadReason)
    requires Consumes(s0, s) && x !in s.dead
    ensures Consumes(s0, Killed(s, x, why))
  {
  }

  // The reasons of the dead: one for the first id, the parent's death for whatever was stashed below it.
  ghost predicate Reasoned(s0: Snapshot, s: Snapshot, id: Id, why: DeadReason) {
    && id in s.dead && s.dead[id] == why
    && forall x | x in s.dead && x !in s0.dead && x != id ::
         x in s0.stashed && s.dead[x] == DescendsFrom(s0.stashed[x].header.prevId)
  }

  lemma ReasonedKill(s0: Snapshot, s: Snapshot, id: Id, why: DeadReason, x: Id)
    requires Reasoned(s0, s, id, why) && Consumes(s0, s) && x in s.stashed && x !in s.dead
    ensures Reasoned(s0, Killed(s, x, DescendsFrom(s.stashed[x].header.prevId)), id, why)
  {
  }

  lemma DyingStart(r: Law, s: Snapshot, open: set<Id>, id: Id, ev: Evidence, track: bool)
    requires WellFormed(r, s, open, {id}) && id !in s.nodes && id !in s.dead
    requires track ==> Tracks(r, s, ev, {id}) && DeadTracked(r, s, ev, id)
    ensures Dying(r, s, open, [id], ev, track)
    ensures Consumes(s, s)
  {
    assert Elems([id]) == {id};
  }

  // One round of the worklist, structurally: the killed id is replaced by its children.
  lemma DyingStepKeeps(r: Law, s: Snapshot, open: set<Id>, work: seq<Id>, x: Id, why: DeadReason, children: seq<Id>)
    requires Distinct(work + [x]) && WellFormed(r, s, open, Elems(work + [x])) && x !in s.nodes
    requires Elems(children) == Children(Killed(s, x, why).stashed, x)
    ensures WellFormed(r, Killed(s, x, why), open, Elems(work + children))
  {
    var s' := Killed(s, x, why);
    PopLast(work, x);
    KillKeeps(r, s, open, Elems(work + [x]), x, why);
    assert Elems(work + children) == Elems(work) + Elems(children);
    OpenUnion(r, s', open - {x}, open, Elems(work + children));
  }

  lemma DyingStepTracks(r: Law, s: Snapshot, open: set<Id>, work: seq<Id>, x: Id, why: DeadReason, children: seq<Id>,
                        ev: Evidence)
    requires Distinct(work + [x]) && WellFormed(r, s, open, Elems(work + [x])) && x !in s.nodes
    requires Tracks(r, s, ev, Elems(work + [x])) && DeadTracked(r, s, ev, x)
    requires Elems(children) == Children(Killed(s, x, why).stashed, x)
    ensures Tracks(r, Killed(s, x, why), ev, Elems(work + children))
  {
    PopLast(work, x);
    KillTracks(r, s, open, Elems(work + [x]), ev, x, why);
    assert Elems(work + children) == Elems(work) + Elems(children);
  }

  lemma DyingStepShrinks(s: Snapshot, work: seq<Id>, x: Id, why: DeadReason, children: seq<Id>)
    requires Distinct(work + [x])
    requires Elems(children) == Children(Killed(s, x, why).stashed, x)
    ensures Killed(s, x, why).stashed.Keys + Elems(work + children) < s.stashed.Keys + Elems(work + [x])
  {
    PopLast(work, x);
    assert (work + [x])[|work|] == x;
    assert x in s.stashed.Keys + Elems(work + [x]);
    assert Elems(work + children) == Elems(work) + Elems(children);
    assert x !in Killed(s, x, why).stashed.Keys + Elems(work + children);
  }

  // The children of a killed block are new to the worklist: their parent was alive until now.
  lemma ChildrenAreOrphans(s: Snapshot, work: seq<Id>, x: Id, why: DeadReason, children: seq<Id>)
    requires Distinct(work + [x]) && Distinct(children) && x !in s.dead
    requires forall y | y in work :: OrphanIn(s, y)
    requires Elems(children) == Children(Killed(s, x, why).stashed, x)
    ensures Distinct(work + children)
    ensures forall y | y in work + children :: OrphanIn(Killed(s, x, why), y)
  {
    PopLast(work, x);
    forall y | y in children ensures y !in Elems(work) && OrphanIn(Killed(s, x, why), y) {
      assert y in Elems(children);
      assert y in work ==> OrphanIn(s, y);
    }
    DistinctConcat(work, children);
    forall y | y in work ensures OrphanIn(Killed(s, x, why), y) {
      assert OrphanIn(s, y);
    }
  }

  lemma ChildrenAreDoomed(r: Law, s: Snapshot, work: seq<Id>, x: Id, why: DeadReason, children: seq<Id>,
                          ev: Evidence)
    requires x !in s.nodes && DeadTracked(r, s, ev, x)
    requires forall y | y in work :: DeadTracked(r, s, ev, y)
    requires Elems(children) == Children(Killed(s, x, why).stashed, x)
    requires PoolsTracked(Killed(s, x, why), ev)
    ensures forall y | y in work + children :: DeadTracked(r, Killed(s, x, why), ev, y)
  {
    var s' := Killed(s, x, why);
    forall y | y in work + children ensures DeadTracked(r, s', ev, y) {
      if y in work {
        assert DeadTracked(r, s, ev, y);
      } else {
        assert y in Elems(children);
        DoomedChild(r, ev, x, y);
      }
    }
  }

  lemma DyingStep(r: Law, s: Snapshot, open: set<Id>, work: seq<Id>, x: Id, why: DeadReason, children: seq<Id>,
                  ev: Evidence, track: bool)
    requires Dying(r, s, open, work + [x], ev, track)
    requires forall y | y in work :: OrphanIn(s, y)
    requires Distinct(children) && Elems(children) == Children(Killed(s, x, why).stashed, x)
    ensures Dying(r, Killed(s, x, why), open, work + children, ev, track)
    ensures forall y | y in work + children :: OrphanIn(Killed(s, x, why), y)
  {
    assert (work + [x])[|work|] == x;
    DyingStepKeeps(r, s, open, work, x, why, children);
    ChildrenAreOrphans(s, work, x, why, children);
    forall y | y in work + children ensures y !in s.nodes && y !in Killed(s, x, why).dead {
      assert OrphanIn(Killed(s, x, why), y);
    }
    if track {
      DyingStepTracks(r, s, open, work, x, why, children, ev);
      forall y | y in work ensures DeadTracked(r, s, ev, y) {
        assert y in work + [x];
      }
      ChildrenAreDoomed(r, s, work, x, why, children, ev);
    }
  }

  lemma OpenUnion(r: Law, s: Snapshot, open: set<Id>, open': set<Id>, dying: set<Id>)
    requires WellFormed(r, s, open, dying) && open <= open'
    ensures WellFormed(r, s, open', dying)
  {
  }

  lemma DyingDone(r: Law, s: Snapshot, open: set<Id>, id: Id, ev: Evidence, track: bool)
    requires Dying(r, s, open, [], ev, track) && id in s.dead
    ensures WellFormed(r, s, open - {id}, {})
    ensures track ==> Tracks(r, s, ev, {})
  {
    assert Elems<Id>([]) == {};
    OpenWithoutUnready(r, s, open, id);
  }

  lemma ActivatePath(r: Law, s: Snapshot, open: set<Id>, id: Id, now: nat)
    requires WellFormed(r, s, open, {}) && Ready(s, id) && now <= MAX_CLOCK
    ensures var q := PathBlocks(s.nodes, s.stashed[id].header.prevId);
      q != [] && r.judge(q, s.stashed[id], now).None? ==>
        PathBlocks(Activated(r, s, id).nodes, id) == q + [s.stashed[id]]
  {
    var q := PathBlocks(s.nodes, s.stashed[id].header.prevId);
    if q != [] && r.judge(q, s.stashed[id], now).None? {
      var s' := Activated(r, s, id);
      ActivateKeeps(r, s, open, id, now);
      PathOfChild(r, s'.nodes, id);
      PathFrame(r, s.nodes, s'.nodes, s.stashed[id].header.prevId);
    }
  }

  // The invariant during activation: structural always, against the evidence when tracking.
  ghost predicate Tracked(r: Law, s: Snapshot, open: set<Id>, ev: Evidence, now: nat, track: bool) {
    WellFormed(r, s, open, {}) && (track ==> Tracks(r, s, ev, {}) && Punctual(ev, now))
  }

  // Exactly what trying a block does, by readiness and verdict.
  ghost predicate ActivationOutcome(r: Law, s: Snapshot, id: Id, now: nat, joined: bool, s': Snapshot) {
    if !Ready(s, id) then !joined && s' == s
    else
      var v := r.judge(PathBlocks(s.nodes, s.stashed[id].header.prevId), s.stashed[id], now);
      if v.None? then joined && s' == Activated(r, s, id)
      else if VerdictIsPermanent(v.value)
      then !joined && s'.nodes == s.nodes && Reasoned(s, s', id, Rejected(v.value)) && Consumes(s, s')
      else !joined && s' == Dropped(s, id)
  }

  // The same for the block a call starts from, with `activated` blocks joining in total.
  ghost predicate StartOutcome(r: Law, s: Snapshot, id: Id, now: nat, activated: nat, s': Snapshot) {
    if !Ready(s, id) then activated == 0 && s' == s
    else
      var v := r.judge(PathBlocks(s.nodes, s.stashed[id].header.prevId), s.stashed[id], now);
      if v.None? then activated > 0 && id in s'.nodes
      else if VerdictIsPermanent(v.value) then activated == 0 && Reasoned(s, s', id, Rejected(v.value))
      else activated == 0 && s' == Dropped(s, id)
  }

  lemma TrackedMonotone(r: Law, s: Snapshot, open: set<Id>, open': set<Id>, ev: Evidence, now: nat, track: bool)
    requires Tracked(r, s, open, ev, now, track) && open <= open'
    ensures Tracked(r, s, open', ev, now, track)
  {
    OpenUnion(r, s, open, open', {});
  }

  ghost predicate OutcomeProgressed(s: Snapshot, joined: bool, s': Snapshot) {
    && Consumes(s, s')
    && |s'.nodes| == |s.nodes| + (if joined then 1 else 0)
    && s'.stashed.Keys <= s.stashed.Keys && (joined ==> s'.stashed.Keys < s.stashed.Keys)
  }

  // A tried block costs the stash an entry or leaves the tree alone.
  lemma OutcomeProgress(r: Law, s: Snapshot, open: set<Id>, id: Id, now: nat, joined: bool, s': Snapshot,
                        ev: Evidence, track: bool)
    requires Tracked(r, s, open, ev, now, track) && now <= MAX_CLOCK && ActivationOutcome(r, s, id, now, joined, s')
    ensures OutcomeProgressed(s, joined, s')
  {
    if Ready(s, id) {
      PathTip(r, s.nodes, s.stashed[id].header.prevId);
    }
    if joined {
      JoinProgress(r, s, open, id, now);
    }
  }

  lemma JoinProgress(r: Law, s: Snapshot, open: set<Id>, id: Id, now: nat)
    requires WellFormed(r, s, open, {}) && Ready(s, id) && now <= MAX_CLOCK
    requires var q := PathBlocks(s.nodes, s.stashed[id].header.prevId); q != [] && r.judge(q, s.stashed[id], now).None?
    ensures OutcomeProgressed(s, true, Activated(r, s, id))
  {
    var s' := Activated(r, s, id);
    assert Grows(s.nodes, s'.nodes) by {
      ActivateKeeps(r, s, open, id, now);
    }
    assert id in s.stashed && id !in s'.stashed;
    assert id !in s.nodes;
  }

  // The state of the activation worklist, relative to where the call started.
  ghost predicate Activating(r: Law, s0: Snapshot, start: Id, now: nat, s: Snapshot, queue: seq<Id>, activated: nat,
                             ev: Evidence, track: bool) {
    && Tracked(r, s, Elems(queue), ev, now, track)
    && Consumes(s0, s)
    && |s.nodes| == |s0.nodes| + activated
    && if queue == [start] && s == s0 then activated == 0
       else StartOutcome(r, s0, start, now, activated, s) && (activated == 0 ==> queue == [])
  }

  lemma ActivatingStart(r: Law, s: Snapshot, start: Id, now: nat, ev: Evidence, track: bool)
    requires Tracked(r, s, {start}, ev, now, track)
    ensures Activating(r, s, start, now, s, [start], 0, ev, track)
  {
    assert Elems([start]) == {start};
  }

  lemma ActivatingDone(r: Law, s0: Snapshot, start: Id, now: nat, s: Snapshot, activated: nat, ev: Evidence,
                       track: bool)
    requires Activating(r, s0, start, now, s, [], activated, ev, track)
    ensures Tracked(r, s, {}, ev, now, track) && Consumes(s0, s) && |s.nodes| == |s0.nodes| + activated
    ensures StartOutcome(r, s0, start, now, activated, s)
  {
    assert Elems<Id>([]) == {};
  }

  lemma ActivatingOpen(r: Law, s0: Snapshot, start: Id, now: nat, s: Snapshot, queue: seq<Id>, activated: nat,
                       ev: Evidence, track: bool)
    requires Activating(r, s0, start, now, s, queue, activated, ev, track)
    ensures Tracked(r, s, Elems(queue), ev, now, track)
  {
  }

  lemma FirstOutcome(r: Law, s: Snapshot, start: Id, now: nat, joined: bool, s': Snapshot)
    requires ActivationOutcome(r, s, start, now, joined, s')
    ensures StartOutcome(r, s, start, now, if joined then 1 else 0, s')
  {
  }

  // Once blocks have joined, more of them do not change how the first one fared.
  lemma LaterOutcome(r: Law, s0: Snapshot, start: Id, now: nat, activated: nat, s: Snapshot, joined: bool, s': Snapshot)
    requires StartOutcome(r, s0, start, now, activated, s) && activated > 0 && Consumes(s, s')
    ensures StartOutcome(r, s0, start, now, activated + (if joined then 1 else 0), s')
  {
    hide LawOk, PathBlocks, VerdictIsPermanent;
  }

  // While activating, every open id is on the worklist, and an attempted id costs the stash an entry.
  lemma ActivatingStep(r: Law, s0: Snapshot, start: Id, now: nat, s: Snapshot, queue: seq<Id>, activated: nat,
                       ev: Evidence, track: bool, joined: bool, s': Snapshot, queue': seq<Id>)
    requires Activating(r, s0, start, now, s, queue, activated, ev, track) && queue != []
    requires Tracked(r, s', Elems(queue'), ev, now, track)
    requires ActivationOutcome(r, s, Last(queue), now, joined, s') && OutcomeProgressed(s, joined, s')
    requires !joined ==> queue' == queue[..|queue| - 1]
    ensures Activating(r, s0, start, now, s', queue', activated + (if joined then 1 else 0), ev, track)
  {
    hide Tracked, StartOutcome, ActivationOutcome, Consumes;
    ConsumesTransitive(s0, s, s');
    if queue == [start] && s == s0 {
      FirstOutcome(r, s0, start, now, joined, s');
    } else {
      LaterOutcome(r, s0, start, now, activated, s, joined, s');
    }
  }

  // The canonical tip plays no part in the bookkeeping invariants.
  lemma Recanonical(r: Law, s: Snapshot, c: Id, ev: Evidence, now: nat, track: bool)
    requires Tracked(r, s, {}, ev, now, track)
    ensures Tracked(r, s.(canonical := c), {}, ev, now, track)
  {
    var s' := s.(canonical := c);
    forall x ensures !Ready(s', x) {
      assert !Ready(s, x);
    }
    if track {
      forall x | x in s'.nodes && x != r.GenesisId() ensures NodeTracked(s', ev, x) {
        assert NodeTracked(s, ev, x);
      }
      forall x | x in s'.dead ensures DeadTracked(r, s', ev, x) {
        assert DeadTracked(r, s, ev, x);
      }
      forall x | x in ev.bodies ensures BodyTracked(r, s', ev, x, {}) {
        assert BodyTracked(r, s, ev, x, {});
      }
    }
  }

  /* ---------- closing a public call ---------- */

  lemma TrackingPrefix(r: Law, log: seq<Event>, e: Event)
    requires Tracking(r, log + [e])
    ensures Tracking(r, log)
  {
    forall f | f in log ensures f in log + [e] {
    }
    forall i, j | 0 <= i <= j < |log| && log[i].BodySeen? && Authentic(r.rules, log[i].block) && !log[j].AnchorSeen?
      ensures log[i].block.header.timestampMs <= ClockOf(log[j]) + MAX_FUTURE_DRIFT_MS
    {
      assert (log + [e])[i] == log[i] && (log + [e])[j] == log[j];
    }
  }

  // Bodies on time are not ahead of the newest clock.
  lemma OnTimeIsPunctual(r: Law, log: seq<Event>, e: Event)
    requires OnTime(r, log + [e]) && !e.AnchorSeen?
    ensures Punctual(EvidenceOf(r, log + [e]), ClockOf(e))
  {
    var all := log + [e];
    BodiesOfLog(r, all);
    forall id | id in EvidenceOf(r, all).bodies
      ensures EvidenceOf(r, all).bodies[id].header.timestampMs <= ClockOf(e) + MAX_FUTURE_DRIFT_MS
    {
      var f :| BodyEvent(r, all, id, EvidenceOf(r, all).bodies[id], f);
      var i :| 0 <= i < |all| && all[i] == f;
      assert all[|log|] == e;
    }
  }

  // What the evidence invariant says before a call, for a log that is regular after it.
  lemma TrackingBefore(r: Law, s: Snapshot, log: seq<Event>, e: Event, now: nat)
    requires Explained(r, s, log) && !e.AnchorSeen? && ClockOf(e) == now
    ensures Tracking(r, log + [e]) ==> Tracks(r, s, EvidenceOf(r, log), {}) && Punctual(EvidenceOf(r, log + [e]), now)
    ensures EvidenceOf(r, log + [e]) == AddEvent(r, EvidenceOf(r, log), e)
  {
    assert (log + [e])[..|log|] == log;
    if Tracking(r, log + [e]) {
      TrackingPrefix(r, log, e);
      OnTimeIsPunctual(r, log, e);
    }
  }

  // A body that is already known is the same body, in a coherent log.
  lemma CoherentBody(r: Law, log: seq<Event>, b: Block, now: nat)
    requires Coherent(r, log + [BodySeen(b, now)]) && Authentic(r.rules, b)
    requires r.BlockId(b) in EvidenceOf(r, log).bodies
    ensures EvidenceOf(r, log).bodies[r.BlockId(b)] == b
  {
    BodiesOfLog(r, log);
    var e :| BodyEvent(r, log, r.BlockId(b), EvidenceOf(r, log).bodies[r.BlockId(b)], e);
    assert e in log + [BodySeen(b, now)] && BodySeen(b, now) in log + [BodySeen(b, now)];
  }

  lemma ExplainedAfter(r: Law, s: Snapshot, log: seq<Event>)
    requires var ev := EvidenceOf(r, log); Tracking(r, log) ==> Tracks(r, s, ev, {})
    ensures Explained(r, s, log)
  {
  }

  lemma Stutter(r: Law, s: Snapshot, e: Event)
    requires Settled(r, s)
    ensures Step(r, s, e, s)
  {
  }

  // A share of a dead id changes nothing.
  lemma ShareOnDead(r: Law, s: Snapshot, sh: Share, now: nat, ev: Evidence, track: bool)
    requires Settled(r, s) && sh.aegisId in s.dead && (track ==> Tracks(r, s, ev, {}))
    ensures Step(r, s, ShareSeen(sh, now), s) && ShareAnswer(r, s, sh, now, ShareIsDead, s)
    ensures track ==> Tracks(r, s, AddShare(ev, sh), {})
  {
    Stutter(r, s, ShareSeen(sh, now));
    if track {
      ShareOnDeadTracks(r, s, sh, ev);
    }
  }

  lemma SettledNow(r: Law, s: Snapshot)
    requires WellFormed(r, s, {}, {}) && IsBest(s.nodes, s.canonical)
    ensures Settled(r, s)
  {
  }

  // A better tie-break key keeps every invariant but the choice of the tip.
  lemma BetterKeyReady(r: Law, s: Snapshot, s': Snapshot, sh: Share, at: Id, ev: Evidence, now: nat, track: bool)
    requires Settled(r, s) && sh.aegisId in s.nodes && at in s.nodes
    requires s' == s.(nodes := s.nodes[sh.aegisId := WithBetterKey(s.nodes[sh.aegisId], sh.ergoHeight)])
    requires track ==> Tracks(r, s, ev, {}) && Punctual(AddShare(ev, sh), now)
    ensures Tracked(r, s', {}, AddShare(ev, sh), now, track)
    ensures TreeOk(r, s.nodes) && PathBlocks(s'.nodes, at) == PathBlocks(s.nodes, at)
    ensures s'.nodes == s.nodes ==> IsBest(s'.nodes, s'.canonical)
  {
    BetterKeyKeeps(r, s, sh.aegisId, sh.ergoHeight);
    PathFrame(r, s.nodes, s'.nodes, at);
    if track {
      ShareOnNodeTracks(r, s, s', sh, ev);
    }
  }

  // Noting a share that is not for a validated block opens only that id.
  lemma PendingReady(r: Law, s: Snapshot, sh: Share, ev: Evidence, now: nat, track: bool)
    requires Settled(r, s) && sh.aegisId !in s.nodes && sh.aegisId !in s.dead
    requires track ==> Tracks(r, s, ev, {}) && Punctual(AddShare(ev, sh), now)
    ensures Tracked(r, s.(pending := s.pending[sh.aegisId := MergeShare(s.pending, sh)]), {sh.aegisId},
                    AddShare(ev, sh), now, track)
  {
    NewShareKeeps(r, s, sh.aegisId, MergeShare(s.pending, sh));
    if track {
      ShareOnPendingTracks(r, s, sh, ev);
    }
  }

  // The state after activating from `start` and choosing the canonical tip.
  ghost predicate SettledFrom(r: Law, s0: Snapshot, start: Id, now: nat, activated: nat, s: Snapshot, ev: Evidence,
                              track: bool) {
    && Tracked(r, s, {}, ev, now, track)
    && IsBest(s.nodes, s.canonical)
    && |s.nodes| == |s0.nodes| + activated
    && var t := s.(canonical := s0.canonical);
       Consumes(s0, t) && StartOutcome(r, s0, start, now, activated, t)
  }

  /** What the answer to a share says: exactly where its id now is, and how many blocks joined. */
  ghost predicate ShareAnswer(r: Law, s: Snapshot, sh: Share, now: nat, res: ShareIngest, s': Snapshot) {
    var id := sh.aegisId;
    var activated := if res.ShareActivated? then res.activated else 0;
    && |s'.nodes| == |s.nodes| + activated
    && (res.ShareIsKnown? <==> id in s.nodes)
    && (res.ShareIsDead? <==> id in s'.dead)
    && (res.ShareIsPending? <==> id in s'.pending)
    && (res.ShareActivated? <==> id in s'.nodes && id !in s.nodes)
    && (res.ShareActivated? ==> activated > 0)
    && if id in s.dead then s' == s
       else if id in s.nodes then s'.(canonical := s.canonical) == ShareNoted(s, sh)
       else StartOutcome(r, ShareNoted(s, sh), id, now, activated, s'.(canonical := s.canonical))
  }

  lemma NodeCallIsStep(r: Law, s: Snapshot, sh: Share, now: nat, s': Snapshot)
    requires Settled(r, s) && Settled(r, s') && sh.aegisId in s.nodes
    requires s' == s.(nodes := s.nodes[sh.aegisId := WithBetterKey(s.nodes[sh.aegisId], sh.ergoHeight)],
                      canonical := s'.canonical)
    ensures Step(r, s, ShareSeen(sh, now), s')
    ensures ShareAnswer(r, s, sh, now, ShareIsKnown, s')
  {
    assert s'.nodes.Keys == s.nodes.Keys;
    assert |s'.nodes| == |s'.nodes.Keys| && |s.nodes| == |s.nodes.Keys|;
  }

  lemma PendingIsStep(r: Law, s: Snapshot, sh: Share, now: nat, activated: nat, s': Snapshot, ev: Evidence, track: bool)
    requires sh.aegisId !in s.nodes && sh.aegisId !in s.dead
    requires SettledFrom(r, ShareNoted(s, sh), sh.aegisId, now, activated, s', ev, track)
    ensures Step(r, s, ShareSeen(sh, now), s')
    ensures track ==> Tracks(r, s', ev, {})
  {
    hide StartOutcome, Tracks;
    SettledNow(r, s');
  }

  lemma PendingAnswers(r: Law, s: Snapshot, sh: Share, now: nat, activated: nat, s': Snapshot, ev: Evidence,
                       track: bool, res: ShareIngest)
    requires sh.aegisId !in s.nodes && sh.aegisId !in s.dead
    requires SettledFrom(r, ShareNoted(s, sh), sh.aegisId, now, activated, s', ev, track)
    requires res == if activated > 0 then ShareActivated(activated)
                    else if sh.aegisId in s'.dead then ShareIsDead else ShareIsPending
    ensures ShareAnswer(r, s, sh, now, res, s')
  {
    hide Tracks, TreeOk, Replayable, LawOk, IsBest;
  }

  /** What the answer to a body says: where its id now is and why, and how many blocks joined. */
  ghost predicate BodyAnswer(r: Law, s: Snapshot, b: Block, now: nat, res: BodyIngest, s': Snapshot) {
    var id := r.BlockId(b);
    var activated := if res.BodyActivated? then res.joined else 0;
    && |s'.nodes| == |s.nodes| + activated
    && (res.AlreadyValidated? <==> id in s.nodes)
    && (res.BodyIsDead? <==> id in s'.dead)
    && (res.NotSelfAuthenticating? <==> id !in s.nodes && id !in s.dead && !Authentic(r.rules, b))
    && (res.BodyActivated? <==> id in s'.nodes && id !in s.nodes)
    && (res.BodyActivated? ==> activated > 0)
    && (res.AwaitingShare? ==> id in s'.stashed && id !in s'.pending)
    && (res.AwaitingParent? ==> id in s'.stashed && id in s'.pending && s'.stashed[id].header.prevId !in s'.nodes)
    && (res.RejectedTransient? ==> id in s'.pending && id !in s'.stashed)
    && if id in s.nodes || id in s.dead || !Authentic(r.rules, b) then s' == s
       else
         || (b.header.prevId in s.dead && Reasoned(s, s', id, DescendsFromDead))
         || StartOutcome(r, BodyStashed(r, s, b), id, now, activated, s'.(canonical := s.canonical))
  }

  // A body that is refused at the door changes nothing.
  lemma BodyIgnored(r: Law, s: Snapshot, b: Block, now: nat, ev: Evidence, track: bool, res: BodyIngest)
    requires Settled(r, s) && (track ==> Tracks(r, s, ev, {}))
    requires r.BlockId(b) in s.nodes || r.BlockId(b) in s.dead || !Authentic(r.rules, b)
    requires res == if r.BlockId(b) in s.nodes then AlreadyValidated
                    else if r.BlockId(b) in s.dead then BodyIsDead else NotSelfAuthenticating
    ensures Step(r, s, BodySeen(b, now), s) && BodyAnswer(r, s, b, now, res, s)
    ensures track ==> Tracks(r, s, AddBody(r, ev, b), {})
  {
    Stutter(r, s, BodySeen(b, now));
    if track {
      BodyAddsNothing(r, s, b, ev);
    }
  }

  lemma OrphanReady(r: Law, s: Snapshot, b: Block, now: nat, log: seq<Event>, track: bool)
    requires Settled(r, s) && Authentic(r.rules, b) && b.header.prevId in s.dead
    requires r.BlockId(b) !in s.nodes && r.BlockId(b) !in s.dead
    requires track ==> Tracks(r, s, EvidenceOf(r, log), {}) && Tracking(r, log + [BodySeen(b, now)])
    ensures var ev, id := AddBody(r, EvidenceOf(r, log), b), r.BlockId(b);
      WellFormed(r, s, {}, {id}) && (track ==> Tracks(r, s, ev, {id}) && DeadTracked(r, s, ev, id))
  {
    if track {
      var ev := EvidenceOf(r, log);
      if r.BlockId(b) in ev.bodies {
        CoherentBody(r, log, b, now);
      }
      OrphanTracks(r, s, b, ev);
    }
  }

  lemma OrphanCallIsStep(r: Law, s: Snapshot, b: Block, now: nat, s': Snapshot)
    requires Settled(r, s) && WellFormed(r, s', {}, {}) && Consumes(s, s') && s'.nodes == s.nodes
    requires Authentic(r.rules, b) && b.header.prevId in s.dead
    requires r.BlockId(b) !in s.nodes && r.BlockId(b) !in s.dead && Reasoned(s, s', r.BlockId(b), DescendsFromDead)
    ensures Step(r, s, BodySeen(b, now), s') && BodyAnswer(r, s, b, now, BodyIsDead, s')
  {
  }

  lemma StashReady(r: Law, s: Snapshot, b: Block, now: nat, log: seq<Event>, track: bool)
    requires Settled(r, s) && Authentic(r.rules, b) && b.header.prevId !in s.dead
    requires r.BlockId(b) !in s.nodes && r.BlockId(b) !in s.dead
    requires track ==> Tracks(r, s, EvidenceOf(r, log), {}) && Tracking(r, log + [BodySeen(b, now)])
    ensures Tracked(r, BodyStashed(r, s, b), {r.BlockId(b)}, AddBody(r, EvidenceOf(r, log), b), now, track)
  {
    BodyKeeps(r, s, b);
    if track {
      var ev := EvidenceOf(r, log);
      OnTimeIsPunctual(r, log, BodySeen(b, now));
      assert (log + [BodySeen(b, now)])[..|log|] == log;
      if r.BlockId(b) in ev.bodies {
        CoherentBody(r, log, b, now);
      }
      BodyTracks(r, s, b, ev);
    }
  }

  lemma StashAnswers(r: Law, s: Snapshot, b: Block, now: nat, activated: nat, s': Snapshot, ev: Evidence,
                     track: bool, res: BodyIngest)
    requires Settled(r, s) && Authentic(r.rules, b) && b.header.prevId !in s.dead
    requires r.BlockId(b) !in s.nodes && r.BlockId(b) !in s.dead
    requires SettledFrom(r, BodyStashed(r, s, b), r.BlockId(b), now, activated, s', ev, track)
    requires var id := r.BlockId(b);
      res == if activated > 0 then BodyActivated(activated)
             else if id in s'.dead then BodyIsDead
             else if id !in s'.stashed then RejectedTransient
             else if id in s'.pending then AwaitingParent else AwaitingShare
    ensures BodyAnswer(r, s, b, now, res, s')
  {
    hide LawOk, TreeOk, Replayable, IsBest, StashOk, Tracks, Punctual, Authentic;
    var id, noted := r.BlockId(b), BodyStashed(r, s, b);
    assert id in noted.stashed;
    assert !Ready(s', id);
  }

  lemma StashIsStep(r: Law, s: Snapshot, b: Block, now: nat, activated: nat, s': Snapshot, ev: Evidence, track: bool)
    requires Settled(r, s) && SettledFrom(r, BodyStashed(r, s, b), r.BlockId(b), now, activated, s', ev, track)
    ensures Step(r, s, BodySeen(b, now), s')
    ensures track ==> Tracks(r, s', ev, {})
  {
    SettledNow(r, s');
  }

  lemma SettledAnchorIsUnique(s: Snapshot, settledHeight: nat, a: Id)
    requires IsSettledAnchor(s, settledHeight, a)
    ensures forall b | IsSettledAnchor(s, settledHeight, b) :: b == a
  {
    var path := PathIds(s.nodes, s.canonical);
    var i :| 0 <= i < |path| && path[i] == a && forall j | i < j < |path| :: !AnchoredBy(s, settledHeight, path[j]);
    forall b | IsSettledAnchor(s, settledHeight, b) ensures b == a {
      var k :| 0 <= k < |path| && path[k] == b && AnchoredBy(s, settledHeight, b)
               && forall j | k < j < |path| :: !AnchoredBy(s, settledHeight, path[j]);
    }
  }

  lemma AnchorCallIsStep(r: Law, s: Snapshot, log: seq<Event>, id: Id, h: nat)
    requires Settled(r, s) && Explained(r, s, log)
    ensures var s', e := s.(anchors := LowestAnchor(s.anchors, id, h)), AnchorSeen(id, h);
      Step(r, s, e, s') && Explained(r, s', log + [e])
  {
    var s', e := s.(anchors := LowestAnchor(s.anchors, id, h)), AnchorSeen(id, h);
    forall x ensures !Ready(s', x) {
      assert !Ready(s, x);
    }
    assert (log + [e])[..|log|] == log;
    if Tracking(r, log + [e]) {
      TrackingPrefix(r, log, e);
      AnchorTracks(r, s, EvidenceOf(r, log), id, h);
    }
  }

  lemma ChainLawIsJudge(rules: Rules)
    ensures IsChainJudge(ChainLaw(rules))
  {
  }

  lemma InitialIsSettled(r: Law)
    requires IsChainJudge(r)
    ensures Settled(r, InitialSnapshot(r))
    ensures PathBlocks(InitialSnapshot(r).nodes, r.GenesisId()) == [r.GenesisBlock()]
  {
    ChainJudgeIsLawful(r);
    PathShape(r, InitialSnapshot(r).nodes, r.GenesisId());
  }
}
