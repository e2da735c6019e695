/** Safety over whole runs of fork choice: order-independent convergence, and a finality test
    that hidden branches cannot undo. */
module ForkRuns {
  import opened Blocks
  import opened Chains
  import opened BlockTree
  import opened ForkState

  /* ---------- runs ---------- */

  // What one public call may do to the bookkeeping.
  ghost predicate Step(r: Law, s: Snapshot, e: Event, s': Snapshot) {
    && Settled(r, s')
    && Grows(s.nodes, s'.nodes)
    && SubMap(s.dead, s'.dead)
    && (forall id | id in s'.nodes :: id in s.nodes || id in s.pending || (e.ShareSeen? && e.share.aegisId == id))
    && (forall id | id in s'.pending ::
          if id in s.pending then s'.pending[id].work == s.pending[id].work
          else e.ShareSeen? && e.share.aegisId == id && e.share.work == s'.pending[id].work)
  }

  ghost predicate StepAt(r: Law, states: seq<Snapshot>, log: seq<Event>, i: nat)
    requires i < |log| && |states| == |log| + 1
  {
    Step(r, states[i], log[i], states[i + 1])
  }

  // A run: the snapshots before, between and after the logged calls.
  ghost predicate Run(r: Law, states: seq<Snapshot>, log: seq<Event>) {
    && |states| == |log| + 1
    && states[0] == InitialSnapshot(r)
    && Settled(r, states[0])
    && forall i: nat {:trigger StepAt(r, states, log, i)} | i < |log| :: StepAt(r, states, log, i)
  }

  lemma RunExtends(r: Law, states: seq<Snapshot>, log: seq<Event>, e: Event, s': Snapshot)
    requires Run(r, states, log) && Step(r, Last(states), e, s')
    ensures Run(r, states + [s'], log + [e])
  {
    forall i: nat | i < |log + [e]| ensures StepAt(r, states + [s'], log + [e], i) {
      assert i < |log| ==> StepAt(r, states, log, i);
    }
  }

  lemma RunSettled(r: Law, states: seq<Snapshot>, log: seq<Event>, i: nat)
    requires Run(r, states, log) && i < |states|
    ensures Settled(r, states[i])
  {
    if i > 0 {
      assert StepAt(r, states, log, i - 1);
    }
  }

  /** Over any run the validated tree and the dead set only grow, and the dead keep their reasons. */
  lemma {:induction false} RunGrows(r: Law, states: seq<Snapshot>, log: seq<Event>, i: nat, j: nat)
    requires Run(r, states, log) && i <= j < |states|
    ensures Grows(states[i].nodes, states[j].nodes) && SubMap(states[i].dead, states[j].dead)
    decreases j - i
  {
    if i < j {
      RunGrows(r, states, log, i, j - 1);
      assert StepAt(r, states, log, j - 1);
    }
  }

  /** A dead verdict is permanent: no later event of the run validates or re-pends the id, or gives another
      reason. */
  lemma DeadIsPermanent(r: Law, states: seq<Snapshot>, log: seq<Event>, i: nat, j: nat, id: Id)
    requires Run(r, states, log) && i <= j < |states| && id in states[i].dead
    ensures id in states[j].dead && states[j].dead[id] == states[i].dead[id]
    ensures id !in states[j].nodes && id !in states[j].pending && id !in states[j].stashed
  {
    RunGrows(r, states, log, i, j);
    RunSettled(r, states, log, j);
  }

  /* ---------- convergence ---------- */

  // Bodies arrive on time, and there is one of them per id.
  ghost predicate Tracking(r: Law, log: seq<Event>) {
    OnTime(r, log) && Coherent(r, log)
  }

  // The evidence explains the snapshot.
  ghost predicate Explained(r: Law, s: Snapshot, log: seq<Event>) {
    Tracking(r, log) ==> Tracks(r, s, EvidenceOf(r, log), {})
  }

  ghost predicate SameEvents(log1: seq<Event>, log2: seq<Event>) {
    forall e :: e in log1 <==> e in log2
  }

  // The call without its clock.
  function Timeless(e: Event): Event {
    match e
    case ShareSeen(sh, _) => ShareSeen(sh, 0)
    case BodySeen(b, _) => BodySeen(b, 0)
    case AnchorSeen(_, _) => e
  }

  function Timelessly(log: seq<Event>): seq<Event> {
    seq(|log|, i requires 0 <= i < |log| => Timeless(log[i]))
  }

  // The same shares, bodies and anchors, at whatever clocks.
  ghost predicate SameContent(log1: seq<Event>, log2: seq<Event>) {
    SameEvents(Timelessly(log1), Timelessly(log2))
  }

  ghost predicate ShareEvent(log: seq<Event>, id: Id, e: Event) {
    e in log && e.ShareSeen? && e.share.aegisId == id
  }

  // Every share in the log is in the evidence, and the evidence comes from the log.
  ghost predicate SharesExact(log: seq<Event>, shares: map<Id, PendingShare>) {
    && (forall id, e | ShareEvent(log, id, e) :: id in shares && shares[id].ergoHeight <= e.share.ergoHeight)
    && (forall id | id in shares :: exists e :: ShareEvent(log, id, e) && e.share.work == shares[id].work)
    && (forall id | id in shares :: exists e :: ShareEvent(log, id, e) && e.share.ergoHeight == shares[id].ergoHeight)
  }

  lemma SharesStep(log: seq<Event>, last: Event, before: map<Id, PendingShare>, after: map<Id, PendingShare>)
    requires SharesExact(log, before)
    requires after == if last.ShareSeen? then before[last.share.aegisId := MergeShare(before, last.share)] else before
    ensures SharesExact(log + [last], after)
  {
    var log' := log + [last];
    forall id, e | ShareEvent(log', id, e) ensures id in after && after[id].ergoHeight <= e.share.ergoHeight {
      assert e != last ==> ShareEvent(log, id, e);
    }
    forall id | id in after
      ensures exists e :: ShareEvent(log', id, e) && e.share.work == after[id].work
      ensures exists e :: ShareEvent(log', id, e) && e.share.ergoHeight == after[id].ergoHeight
    {
      assert last in log';
      if id in before {
        var e :| ShareEvent(log, id, e) && e.share.work == before[id].work;
        var f :| ShareEvent(log, id, f) && f.share.ergoHeight == before[id].ergoHeight;
        assert ShareEvent(log', id, e) && ShareEvent(log', id, f);
      }
      assert last.ShareSeen? && last.share.aegisId == id ==> ShareEvent(log', id, last);
    }
  }

  lemma {:induction false} SharesOfLog(r: Law, log: seq<Event>)
    ensures SharesExact(log, EvidenceOf(r, log).shares)
  {
    if log != [] {
      var rest := log[..|log| - 1];
      SharesOfLog(r, rest);
      assert rest + [Last(log)] == log;
      SharesStep(rest, Last(log), EvidenceOf(r, rest).shares, EvidenceOf(r, log).shares);
    }
  }

  ghost predicate BodyEvent(r: Law, log: seq<Event>, id: Id, b: Block, e: Event) {
    && e in log && e.BodySeen? && e.block == b
    && Authentic(r.rules, b) && r.BlockId(b) == id && id != r.GenesisId()
  }

  lemma {:induction false} BodiesOfLog(r: Law, log: seq<Event>)
    ensures forall e | e in log && e.BodySeen? && Authentic(r.rules, e.block) && r.BlockId(e.block) != r.GenesisId() ::
      r.BlockId(e.block) in EvidenceOf(r, log).bodies
    ensures forall id | id in EvidenceOf(r, log).bodies ::
      exists e :: BodyEvent(r, log, id, EvidenceOf(r, log).bodies[id], e)
  {
    if log != [] {
      var rest, last := log[..|log| - 1], Last(log);
      BodiesOfLog(r, rest);
      var before, after := EvidenceOf(r, rest), EvidenceOf(r, log);
      assert forall e :: e in log <==> e in rest || e == last;
      forall id | id in after.bodies
        ensures exists e :: BodyEvent(r, log, id, after.bodies[id], e)
      {
        if id in before.bodies {
          var e :| BodyEvent(r, rest, id, before.bodies[id], e);
          assert BodyEvent(r, log, id, after.bodies[id], e);
        } else {
          assert BodyEvent(r, log, id, after.bodies[id], last);
        }
      }
    }
  }

  lemma {:induction false} AnchorsOfLog(r: Law, log: seq<Event>)
    ensures forall e | e in log && e.AnchorSeen? ::
      e.anchorId in EvidenceOf(r, log).anchors && EvidenceOf(r, log).anchors[e.anchorId] <= e.inclusionHeight
    ensures forall id | id in EvidenceOf(r, log).anchors ::
      exists e :: e in log && e.AnchorSeen? && e.anchorId == id && e.inclusionHeight == EvidenceOf(r, log).anchors[id]
  {
    if log != [] {
      var rest, last := log[..|log| - 1], Last(log);
      AnchorsOfLog(r, rest);
      var before, after := EvidenceOf(r, rest), EvidenceOf(r, log);
      assert forall e :: e in log <==> e in rest || e == last;
      forall id | id in after.anchors
        ensures exists e :: e in log && e.AnchorSeen? && e.anchorId == id && e.inclusionHeight == after.anchors[id]
      {
        if id in before.anchors {
          var e :| e in rest && e.AnchorSeen? && e.anchorId == id && e.inclusionHeight == before.anchors[id];
          assert e in log && last in log;
        } else {
          assert last in log;
        }
      }
    }
  }

  lemma SharesAgree(r: Law, log1: seq<Event>, log2: seq<Event>, id: Id)
    requires SameEvents(log1, log2) && Coherent(r, log1) && id in EvidenceOf(r, log1).shares
    ensures id in EvidenceOf(r, log2).shares
    ensures EvidenceOf(r, log1).shares[id].work == EvidenceOf(r, log2).shares[id].work
    ensures EvidenceOf(r, log1).shares[id].ergoHeight >= EvidenceOf(r, log2).shares[id].ergoHeight
  {
    SharesOfLog(r, log1);
    SharesOfLog(r, log2);
    var e :| ShareEvent(log1, id, e) && e.share.work == EvidenceOf(r, log1).shares[id].work;
    var f :| ShareEvent(log1, id, f) && f.share.ergoHeight == EvidenceOf(r, log1).shares[id].ergoHeight;
    assert ShareEvent(log2, id, e) && ShareEvent(log2, id, f);
    var g :| ShareEvent(log2, id, g) && g.share.work == EvidenceOf(r, log2).shares[id].work;
    assert g in log1;
  }

  lemma BodiesAgree(r: Law, log1: seq<Event>, log2: seq<Event>, id: Id)
    requires SameEvents(log1, log2) && Coherent(r, log1) && id in EvidenceOf(r, log1).bodies
    ensures id in EvidenceOf(r, log2).bodies && EvidenceOf(r, log1).bodies[id] == EvidenceOf(r, log2).bodies[id]
  {
    BodiesOfLog(r, log1);
    BodiesOfLog(r, log2);
    var e :| BodyEvent(r, log1, id, EvidenceOf(r, log1).bodies[id], e);
    assert e in log2;
    var f :| BodyEvent(r, log2, id, EvidenceOf(r, log2).bodies[id], f);
    assert f in log1;
  }

  lemma AnchorsAgree(r: Law, log1: seq<Event>, log2: seq<Event>, id: Id)
    requires SameEvents(log1, log2) && id in EvidenceOf(r, log1).anchors
    ensures id in EvidenceOf(r, log2).anchors
    ensures EvidenceOf(r, log1).anchors[id] >= EvidenceOf(r, log2).anchors[id]
  {
    AnchorsOfLog(r, log1);
    AnchorsOfLog(r, log2);
    var e :| e in log1 && e.AnchorSeen? && e.anchorId == id && e.inclusionHeight == EvidenceOf(r, log1).anchors[id];
    assert e in log2;
  }

  /** The evidence is a function of the set of events, whatever their order and repetition. */
  lemma EvidenceIsOrderFree(r: Law, log1: seq<Event>, log2: seq<Event>)
    requires SameEvents(log1, log2) && Coherent(r, log1)
    ensures EvidenceOf(r, log1) == EvidenceOf(r, log2)
  {
    var e1, e2 := EvidenceOf(r, log1), EvidenceOf(r, log2);
    assert Coherent(r, log2);
    forall id | id in e1.shares || id in e2.shares
      ensures id in e1.shares && id in e2.shares && e1.shares[id] == e2.shares[id]
    {
      if id in e1.shares {
        SharesAgree(r, log1, log2, id);
      }
      SharesAgree(r, log2, log1, id);
      SharesAgree(r, log1, log2, id);
    }
    assert e1.shares == e2.shares;
    forall id | id in e1.bodies || id in e2.bodies
      ensures id in e1.bodies && id in e2.bodies && e1.bodies[id] == e2.bodies[id]
    {
      if id in e1.bodies {
        BodiesAgree(r, log1, log2, id);
      } else {
        BodiesAgree(r, log2, log1, id);
      }
    }
    assert e1.bodies == e2.bodies;
    forall id | id in e1.anchors || id in e2.anchors
      ensures id in e1.anchors && id in e2.anchors && e1.anchors[id] == e2.anchors[id]
    {
      if id in e1.anchors {
        AnchorsAgree(r, log1, log2, id);
      }
      AnchorsAgree(r, log2, log1, id);
      AnchorsAgree(r, log1, log2, id);
    }
    assert e1.anchors == e2.anchors;
  }

  lemma {:induction false} NodesAgree(r: Law, s1: Snapshot, s2: Snapshot, ev: Evidence, id: Id)
    requires Settled(r, s1) && Settled(r, s2) && Tracks(r, s1, ev, {}) && Tracks(r, s2, ev, {})
    requires id in s1.nodes
    ensures id in s2.nodes && s1.nodes[id] == s2.nodes[id]
    decreases s1.nodes[id].height
  {
    SetsMatchReference(r, s1, ev, id);
    SetsMatchReference(r, s2, ev, id);
    if id != r.GenesisId() {
      assert NodeTracked(s1, ev, id) && NodeTracked(s2, ev, id);
      assert Linked(r, s1.nodes, id) && Linked(r, s2.nodes, id);
      NodesAgree(r, s1, s2, ev, s1.nodes[id].parent);
    }
  }

  lemma StashAgrees(r: Law, s1: Snapshot, s2: Snapshot, ev: Evidence, id: Id)
    requires Settled(r, s1) && Settled(r, s2) && Tracks(r, s1, ev, {}) && Tracks(r, s2, ev, {})
    requires s1.nodes.Keys == s2.nodes.Keys && s1.dead.Keys == s2.dead.Keys && s1.pending == s2.pending
    requires id in s1.stashed
    ensures id in s2.stashed && s1.stashed[id] == s2.stashed[id]
  {
    assert BodyTracked(r, s2, ev, id, {});
    assert !Ready(s1, id);
  }

  lemma SameEvidenceSameState(r: Law, s1: Snapshot, s2: Snapshot, ev: Evidence)
    requires Settled(r, s1) && Settled(r, s2) && Tracks(r, s1, ev, {}) && Tracks(r, s2, ev, {})
    ensures s1.nodes == s2.nodes && s1.pending == s2.pending && s1.dead.Keys == s2.dead.Keys
    ensures s1.stashed == s2.stashed && s1.anchors == s2.anchors && s1.canonical == s2.canonical
  {
    forall id | id in s1.nodes || id in s2.nodes
      ensures id in s1.nodes && id in s2.nodes && s1.nodes[id] == s2.nodes[id]
    {
      if id in s1.nodes {
        NodesAgree(r, s1, s2, ev, id);
      } else {
        NodesAgree(r, s2, s1, ev, id);
      }
    }
    assert s1.nodes == s2.nodes;
    forall id ensures id in s1.dead <==> id in s2.dead {
      SetsMatchReference(r, s1, ev, id);
      SetsMatchReference(r, s2, ev, id);
    }
    assert s1.dead.Keys == s2.dead.Keys;
    assert s1.pending == s2.pending;
    forall id | id in s1.stashed || id in s2.stashed
      ensures id in s1.stashed && id in s2.stashed && s1.stashed[id] == s2.stashed[id]
    {
      if id in s1.stashed {
        StashAgrees(r, s1, s2, ev, id);
      } else {
        StashAgrees(r, s2, s1, ev, id);
      }
    }
    assert s1.stashed == s2.stashed;
    BestIsUnique(r, s1.nodes, s1.canonical, s2.canonical);
  }

  // Evidence has no clocks.
  lemma {:induction false} EvidenceIsTimeless(r: Law, log: seq<Event>)
    ensures EvidenceOf(r, Timelessly(log)) == EvidenceOf(r, log)
  {
    if log != [] {
      EvidenceIsTimeless(r, log[..|log| - 1]);
      assert Timelessly(log)[..|log| - 1] == Timelessly(log[..|log| - 1]);
    }
  }

  lemma CoherentTimeless(r: Law, log: seq<Event>)
    requires Coherent(r, log)
    ensures Coherent(r, Timelessly(log))
  {
    forall e | e in Timelessly(log) ensures exists f :: f in log && Timeless(f) == e {
      var i :| 0 <= i < |log| && Timelessly(log)[i] == e;
      assert log[i] in log;
    }
  }

  lemma CoherentContent(r: Law, log1: seq<Event>, log2: seq<Event>)
    requires SameContent(log1, log2) && Coherent(r, log1)
    ensures Coherent(r, log2)
  {
    CoherentTimeless(r, log1);
    forall e | e in log2 ensures Timeless(e) in Timelessly(log1) {
      var i :| 0 <= i < |log2| && log2[i] == e;
      assert Timelessly(log2)[i] in Timelessly(log2);
    }
  }

  /** Convergence: any two runs that saw the same set of shares, bodies and anchors, in any order,
      with any repetition and at any clocks for which no body came too early, end with the same
      validated tree, pending weight, stash, dead set, anchors and canonical tip. */
  lemma Convergence(r: Law, s1: Snapshot, log1: seq<Event>, s2: Snapshot, log2: seq<Event>)
    requires Settled(r, s1) && Explained(r, s1, log1)
    requires Settled(r, s2) && Explained(r, s2, log2)
    requires SameContent(log1, log2) && Coherent(r, log1) && OnTime(r, log1) && OnTime(r, log2)
    ensures s1.nodes == s2.nodes
    ensures s1.pending == s2.pending
    ensures s1.dead.Keys == s2.dead.Keys
    ensures s1.stashed == s2.stashed
    ensures s1.anchors == s2.anchors
    ensures s1.canonical == s2.canonical
  {
    CoherentTimeless(r, log1);
    CoherentContent(r, log1, log2);
    EvidenceIsOrderFree(r, Timelessly(log1), Timelessly(log2));
    EvidenceIsTimeless(r, log1);
    EvidenceIsTimeless(r, log2);
    SameEvidenceSameState(r, s1, s2, EvidenceOf(r, log1));
  }

  /* ---------- finality ---------- */

  ghost function Sum(m: map<Id, nat>): nat {
    if m == map[] then 0 else
      var id :| id in m;
      m[id] + Sum(m - {id})
  }

  lemma {:induction false} SumRemove(m: map<Id, nat>, id: Id)
    requires id in m
    ensures Sum(m) == m[id] + Sum(m - {id})
  {
    var first :| first in m && Sum(m) == m[first] + Sum(m - {first});
    if first != id {
      SumRemove(m - {first}, id);
      SumRemove(m - {id}, first);
      assert m - {first} - {id} == m - {id} - {first};
    }
  }

  lemma {:induction false} SumUnion(a: map<Id, nat>, b: map<Id, nat>)
    requires a.Keys !! b.Keys
    ensures Sum(a + b) == Sum(a) + Sum(b)
    decreases a.Keys
  {
    if a == map[] {
      assert a + b == b;
    } else {
      var id :| id in a;
      var rest := a - {id};
      assert rest.Keys == a.Keys - {id};
      SumUnion(rest, b);
      calc {
        Sum(a + b);
      == { SumRemove(a + b, id); assert (a + b) - {id} == rest + b; }
        a[id] + Sum(rest + b);
      ==
        a[id] + Sum(rest) + Sum(b);
      == { SumRemove(a, id); }
        Sum(a) + Sum(b);
      }
    }
  }

  function Works(pending: map<Id, PendingShare>): map<Id, nat> {
    map id | id in pending :: pending[id].work
  }

  // What all pending blocks would weigh together.
  ghost function PendingWork(s: Snapshot): nat {
    Sum(Works(s.pending))
  }

  ghost predicate AnchoredBy(s: Snapshot, settledHeight: nat, id: Id) {
    id in s.anchors && s.anchors[id] <= settledHeight
  }

  // The highest block of the canonical path with a settled anchor.
  ghost predicate IsSettledAnchor(s: Snapshot, settledHeight: nat, a: Id) {
    var path := PathIds(s.nodes, s.canonical);
    exists i :: 0 <= i < |path| && path[i] == a && AnchoredBy(s, settledHeight, a)
             && forall j | i < j < |path| :: !AnchoredBy(s, settledHeight, path[j])
  }

  // The work of `a` leads every block outside x's subtree by the margin, all pending weight charged.
  ghost predicate Leads(s: Snapshot, x: Id, a: Id, margin: nat)
    requires a in s.nodes
  {
    && s.nodes[a].work >= PendingWork(s) + margin
    && forall id | id in s.nodes && !IsAncestorOrEq(s.nodes, x, id) ::
         s.nodes[a].work >= s.nodes[id].work + PendingWork(s) + margin
  }

  /** The peg-finality verdict: canonical, below the settled anchor, and unbeatable by the margin. */
  ghost predicate IsFinal(s: Snapshot, x: Id, margin: nat, settledHeight: nat) {
    && x in s.nodes
    && s.canonical in s.nodes
    && IsAncestorOrEq(s.nodes, x, s.canonical)
    && exists a :: a in s.nodes && IsSettledAnchor(s, settledHeight, a)
                && IsAncestorOrEq(s.nodes, x, a) && Leads(s, x, a, margin)
  }

  // Shares carry the work of the block with their id: what share verification establishes.
  ghost predicate HonestShares(r: Law, log: seq<Event>) {
    forall e | e in log && e.ShareSeen? :: HonestShare(r, e.share)
  }

  ghost predicate HonestShare(r: Law, sh: Share) {
    forall b {:trigger r.BlockId(b)} | r.BlockId(b) == sh.aegisId ::
      sh.work == r.rules.prim.decodeBits(b.header.scNbits)
  }

  // The work of the shares first seen in `later`: ids neither validated, pending nor dead in s.
  function NewWorks(s: Snapshot, later: seq<Event>): map<Id, nat> {
    if later == [] then map[] else
      var before := NewWorks(s, later[..|later| - 1]);
      match Last(later)
      case ShareSeen(sh, _) =>
        if sh.aegisId in s.nodes || sh.aegisId in s.pending || sh.aegisId in s.dead then before
        else before[sh.aegisId := sh.work]
      case _ => before
  }

  lemma {:induction false} NewWorksAreNew(s: Snapshot, later: seq<Event>, id: Id)
    requires id in NewWorks(s, later)
    ensures id !in s.nodes && id !in s.pending && id !in s.dead
  {
    if id in NewWorks(s, later[..|later| - 1]) {
      NewWorksAreNew(s, later[..|later| - 1], id);
    }
  }

  // The weight an id can bring to the tree after `s`.
  ghost function Hidden(s: Snapshot, later: seq<Event>): map<Id, nat> {
    Works(s.pending) + NewWorks(s, later)
  }

  // Every pending weight is that of the id's block.
  ghost predicate PendingHonest(r: Law, s: Snapshot) {
    forall id | id in s.pending :: HonestShare(r, Share(id, s.pending[id].work, 0))
  }

  lemma {:induction false} RunPendingHonest(r: Law, states: seq<Snapshot>, log: seq<Event>, i: nat)
    requires Run(r, states, log) && HonestShares(r, log) && i < |states|
    ensures PendingHonest(r, states[i])
    decreases i
  {
    if i > 0 {
      RunPendingHonest(r, states, log, i - 1);
      assert StepAt(r, states, log, i - 1);
      var s, s' := states[i - 1], states[i];
      forall id | id in s'.pending ensures HonestShare(r, Share(id, s'.pending[id].work, 0)) {
        if id in s.pending {
          assert HonestShare(r, Share(id, s.pending[id].work, 0));
        } else {
          assert HonestShare(r, log[i - 1].share);
        }
      }
    }
  }

  // What the later part of a run can know: old ids, or hidden weight charged at its true work.
  ghost predicate Charged(r: Law, s: Snapshot, later: seq<Event>, s': Snapshot) {
    && (forall id | id in s'.nodes && id !in s.nodes :: id in Hidden(s, later))
    && (forall id | id in s'.pending :: id in Hidden(s, later))
    && (forall id | id in Hidden(s, later) :: HonestShare(r, Share(id, Hidden(s, later)[id], 0)))
  }

  lemma HiddenGrows(r: Law, s: Snapshot, later: seq<Event>, e: Event)
    requires e.ShareSeen? ==> HonestShare(r, e.share)
    requires forall id | id in Hidden(s, later) :: HonestShare(r, Share(id, Hidden(s, later)[id], 0))
    ensures forall id | id in Hidden(s, later) :: id in Hidden(s, later + [e])
    ensures e.ShareSeen? && e.share.aegisId !in s.nodes && e.share.aegisId !in s.dead ==>
              e.share.aegisId in Hidden(s, later + [e])
    ensures forall id | id in Hidden(s, later + [e]) :: HonestShare(r, Share(id, Hidden(s, later + [e])[id], 0))
  {
    assert (later + [e])[..|later|] == later;
    forall id | id in Hidden(s, later + [e]) ensures HonestShare(r, Share(id, Hidden(s, later + [e])[id], 0)) {
      if id in NewWorks(s, later + [e]) {
        NewWorksAreNew(s, later + [e], id);
        if !(e.ShareSeen? && e.share.aegisId == id) {
          assert id in Hidden(s, later);
        }
      } else {
        assert id in Hidden(s, later);
      }
    }
  }

  lemma ChargeStep(r: Law, s: Snapshot, later: seq<Event>, t: Snapshot, e: Event, t': Snapshot)
    requires Charged(r, s, later, t) && Step(r, t, e, t') && (e.ShareSeen? ==> HonestShare(r, e.share))
    requires SubMap(s.dead, t'.dead) && s.nodes.Keys <= t'.nodes.Keys
    ensures Charged(r, s, later + [e], t')
  {
    HiddenGrows(r, s, later, e);
  }

  lemma ChargedNow(r: Law, s: Snapshot)
    requires PendingHonest(r, s)
    ensures Charged(r, s, [], s)
  {
  }

  lemma {:induction false} RunCharges(r: Law, states: seq<Snapshot>, log: seq<Event>, i: nat, j: nat)
    requires Run(r, states, log) && HonestShares(r, log) && i <= j < |states|
    ensures Charged(r, states[i], log[i..j], states[j])
    decreases j - i
  {
    hide Step, Charged, Settled, HonestShare;
    if i == j {
      RunPendingHonest(r, states, log, i);
      ChargedNow(r, states[i]);
      assert log[i..j] == [];
    } else {
      RunCharges(r, states, log, i, j - 1);
      RunGrows(r, states, log, i, j);
      assert StepAt(r, states, log, j - 1);
      assert log[i..j] == log[i..j - 1] + [log[j - 1]];
      ChargeStep(r, states[i], log[i..j - 1], states[j - 1], log[j - 1], states[j]);
    }
  }

  // From any later node, walking down to an old ancestor costs at most the hidden weight.
  lemma {:induction false} HiddenWorkBound(r: Law, nodes: Nodes, nodes': Nodes, c: Id, hidden: map<Id, nat>)
    returns (o: Id)
    requires TreeOk(r, nodes) && TreeOk(r, nodes') && Grows(nodes, nodes') && c in nodes'
    requires forall id | id in PathIds(nodes', c) && id !in nodes :: id in hidden
    requires forall id | id in hidden :: HonestShare(r, Share(id, hidden[id], 0))
    ensures o in nodes && IsAncestorOrEq(nodes', o, c)
    ensures nodes'[c].work <= nodes[o].work + Sum(hidden)
    decreases nodes'[c].height
  {
    PathShape(r, nodes', c);
    if c in nodes {
      o := c;
    } else {
      assert c in PathIds(nodes', c);
      assert Linked(r, nodes', c);
      PathOfChild(r, nodes', c);
      var parent := nodes'[c].parent;
      PathShape(r, nodes', parent);
      forall id | id in PathIds(nodes', parent) && id !in nodes ensures id in hidden - {c} {
        assert id in PathIds(nodes', c);
      }
      o := HiddenWorkBound(r, nodes, nodes', parent, hidden - {c});
      SumRemove(hidden, c);
      assert HonestShare(r, Share(c, hidden[c], 0));
      assert hidden[c] == r.Work(nodes'[c].block);
    }
  }

  lemma BestIsHeaviest(nodes: Nodes, best: Id, id: Id)
    requires IsBest(nodes, best) && id in nodes
    ensures nodes[best].work >= nodes[id].work
  {
  }

  // Blocks outside the subtree of a final block stay lighter than its settled anchor.
  lemma OutsideStaysLighter(r: Law, states: seq<Snapshot>, log: seq<Event>, i: nat, j: nat, x: Id, a: Id,
                            margin: nat, c: Id)
    requires Run(r, states, log) && HonestShares(r, log) && i <= j < |states|
    requires x in states[i].nodes && a in states[i].nodes && Leads(states[i], x, a, margin)
    requires Sum(NewWorks(states[i], log[i..j])) < margin
    requires c in states[j].nodes && !IsAncestorOrEq(states[j].nodes, x, c)
    ensures states[j].nodes[c].work < states[i].nodes[a].work
  {
    var s, s' := states[i], states[j];
    var later := log[i..j];
    RunSettled(r, states, log, i);
    RunSettled(r, states, log, j);
    RunGrows(r, states, log, i, j);
    RunCharges(r, states, log, i, j);
    PathShape(r, s'.nodes, c);
    var o := HiddenWorkBound(r, s.nodes, s'.nodes, c, Hidden(s, later));
    assert !IsAncestorOrEq(s.nodes, x, o) by {
      PathFrame(r, s.nodes, s'.nodes, o);
      if IsAncestorOrEq(s.nodes, x, o) {
        AncestorTransitive(r, s'.nodes, x, o, c);
      }
    }
    forall id | id in NewWorks(s, later) ensures id !in Works(s.pending) {
      NewWorksAreNew(s, later, id);
    }
    SumUnion(Works(s.pending), NewWorks(s, later));
  }

  /** Finality safety: once a block is final with a positive margin, then after any later part of
      the run whose newly seen shares total less than the margin, including the reveal of every
      pending body, the block is still on the canonical branch. */
  lemma FinalityIsSafe(r: Law, states: seq<Snapshot>, log: seq<Event>, i: nat, j: nat, x: Id, margin: nat,
                       settledHeight: nat)
    requires Run(r, states, log) && HonestShares(r, log) && i <= j < |states|
    requires IsFinal(states[i], x, margin, settledHeight)
    requires Sum(NewWorks(states[i], log[i..j])) < margin
    ensures x in states[j].nodes && IsAncestorOrEq(states[j].nodes, x, states[j].canonical)
  {
    var s, s' := states[i], states[j];
    RunSettled(r, states, log, j);
    RunGrows(r, states, log, i, j);
    var a :| a in s.nodes && IsSettledAnchor(s, settledHeight, a) && Leads(s, x, a, margin);
    BestIsHeaviest(s'.nodes, s'.canonical, a);
    if !IsAncestorOrEq(s'.nodes, x, s'.canonical) {
      OutsideStaysLighter(r, states, log, i, j, x, a, margin, s'.canonical);
    }
  }

  /** The margin is real: every block outside the subtree of a final block, with all pending weight
      added to it, is still that far below the canonical tip. */
  lemma FinalBlockLeads(r: Law, s: Snapshot, x: Id, margin: nat, settledHeight: nat, id: Id)
    requires Settled(r, s) && IsFinal(s, x, margin, settledHeight)
    requires id in s.nodes && !IsAncestorOrEq(s.nodes, x, id)
    ensures s.nodes[id].work + PendingWork(s) + margin <= s.nodes[s.canonical].work
  {
    var a :| a in s.nodes && IsSettledAnchor(s, settledHeight, a) && Leads(s, x, a, margin);
    BestIsHeaviest(s.nodes, s.canonical, a);
  }
}
