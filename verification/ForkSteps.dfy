/** The atomic updates fork choice makes to its bookkeeping, and what each one keeps. */
module ForkSteps {
  import opened Common
  import opened Blocks
  import opened Chains
  import opened BlockTree
  import opened ForkState

  const MAX_CLOCK: nat := U64_MAX - 2 * MAX_FUTURE_DRIFT_MS

  function Children(stashed: map<Id, Block>, id: Id): set<Id> {
    set c | c in stashed && stashed[c].header.prevId == id
  }

  // A stashed block joins the tree.
  ghost function Activated(r: Law, s: Snapshot, id: Id): Snapshot
    requires Ready(s, id)
  {
    var b := s.stashed[id];
    var parent := b.header.prevId;
    var node := BlockNode(b, parent, b.header.height, s.nodes[parent].work + r.Work(b), s.pending[id].ergoHeight);
    s.(nodes := s.nodes[id := node], pending := s.pending - {id}, stashed := s.stashed - {id})
  }

  // A body is dropped; its share stays pending.
  ghost function Dropped(s: Snapshot, id: Id): Snapshot {
    s.(stashed := s.stashed - {id})
  }

  ghost function Killed(s: Snapshot, id: Id, reason: DeadReason): Snapshot {
    s.(pending := s.pending - {id}, stashed := s.stashed - {id}, dead := s.dead[id := reason])
  }

  lemma TreeGrows(r: Law, nodes: Nodes, id: Id, n: BlockNode)
    requires TreeOk(r, nodes) && Replayable(r, nodes) && id !in nodes
    requires n.parent in nodes && n.parent == n.block.header.prevId && r.BlockId(n.block) == id
    requires n.height == n.block.header.height == nodes[n.parent].height + 1
    requires n.work == nodes[n.parent].work + r.Work(n.block)
    requires PathBlocks(nodes, n.parent) != [] && r.Accepts(PathBlocks(nodes, n.parent), n.block)
    requires n.block.header.timestampMs + MAX_FUTURE_DRIFT_MS <= U64_MAX
    ensures TreeOk(r, nodes[id := n]) && Replayable(r, nodes[id := n]) && Grows(nodes, nodes[id := n])
  {
    var nodes' := nodes[id := n];
    forall x | x in nodes' && x != r.GenesisId() ensures Linked(r, nodes', x) {
      if x != id {
        assert Linked(r, nodes, x);
      }
    }
    forall x | x in nodes' && x != r.GenesisId() ensures Replays(r, nodes', x) {
      if x != id {
        assert Linked(r, nodes, x);
        assert Replays(r, nodes, x);
        PathFrame(r, nodes, nodes', nodes[x].parent);
      } else {
        PathFrame(r, nodes, nodes', n.parent);
      }
    }
  }

  lemma PathTip(r: Law, nodes: Nodes, id: Id)
    requires TreeOk(r, nodes) && id in nodes
    ensures PathBlocks(nodes, id) != [] && Last(PathBlocks(nodes, id)) == nodes[id].block
    ensures r.BlockId(nodes[id].block) == id && nodes[id].block.header.height == nodes[id].height
  {
    PathShape(r, nodes, id);
    if id != r.GenesisId() {
      assert Linked(r, nodes, id);
    }
  }

  // Activating a ready, accepted block keeps the invariant; its stashed children become open.
  lemma ActivateKeeps(r: Law, s: Snapshot, open: set<Id>, id: Id, now: nat)
    requires WellFormed(r, s, open, {}) && Ready(s, id) && now <= MAX_CLOCK
    requires var q := PathBlocks(s.nodes, s.stashed[id].header.prevId); q != [] && r.judge(q, s.stashed[id], now).None?
    ensures var s' := Activated(r, s, id);
      && WellFormed(r, s', (open - {id}) + Children(s'.stashed, id), {})
      && Grows(s.nodes, s'.nodes)
  {
    var s' := Activated(r, s, id);
    var b := s.stashed[id];
    var q := PathBlocks(s.nodes, b.header.prevId);
    PathTip(r, s.nodes, b.header.prevId);
    TreeGrows(r, s.nodes, id, s'.nodes[id]);
    forall x | Ready(s', x) ensures x in (open - {id}) + Children(s'.stashed, id) {
      assert s'.stashed[x].header.prevId != id ==> Ready(s, x);
    }
  }

  lemma DropKeeps(r: Law, s: Snapshot, open: set<Id>, id: Id)
    requires WellFormed(r, s, open, {})
    ensures WellFormed(r, Dropped(s, id), open - {id}, {})
  {
    var s' := Dropped(s, id);
    forall x | Ready(s', x) ensures x in open - {id} {
      assert Ready(s, x);
    }
  }

  lemma KillKeeps(r: Law, s: Snapshot, open: set<Id>, dying: set<Id>, id: Id, reason: DeadReason)
    requires WellFormed(r, s, open, dying) && id !in s.nodes
    ensures var s' := Killed(s, id, reason);
      WellFormed(r, s', open - {id}, (dying - {id}) + Children(s'.stashed, id))
  {
    var s' := Killed(s, id, reason);
    forall x | Ready(s', x) ensures x in open - {id} {
      assert Ready(s, x);
    }
  }

  /* ---------- the same updates against the evidence ---------- */

  lemma RejectedFrame(r: Law, s: Snapshot, s': Snapshot, ev: Evidence, id: Id, permanent: bool)
    requires TreeOk(r, s.nodes) && TreeOk(r, s'.nodes) && Grows(s.nodes, s'.nodes)
    requires id in ev.bodies && RejectedAt(r, s, ev, id, permanent)
    ensures RejectedAt(r, s', ev, id, permanent)
  {
    PathFrame(r, s.nodes, s'.nodes, ev.bodies[id].header.prevId);
  }

  lemma ActivateTracks(r: Law, s: Snapshot, open: set<Id>, ev: Evidence, now: nat, id: Id)
    requires WellFormed(r, s, open, {}) && Ready(s, id) && now <= MAX_CLOCK
    requires var q := PathBlocks(s.nodes, s.stashed[id].header.prevId); q != [] && r.judge(q, s.stashed[id], now).None?
    requires Tracks(r, s, ev, {})
    ensures Tracks(r, Activated(r, s, id), ev, {})
  {
    var s' := Activated(r, s, id);
    ActivateKeeps(r, s, open, id, now);
    forall x | x in s'.nodes && x != r.GenesisId() ensures NodeTracked(s', ev, x) {
      assert x != id ==> NodeTracked(s, ev, x);
    }
    forall x | x in s'.dead ensures DeadTracked(r, s', ev, x) {
      assert DeadTracked(r, s, ev, x);
      if ev.bodies[x].header.prevId !in s.dead {
        RejectedFrame(r, s, s', ev, x, true);
      }
    }
    forall x | x in ev.bodies ensures BodyTracked(r, s', ev, x, {}) {
      assert BodyTracked(r, s, ev, x, {});
      if x !in s.nodes && x !in s.dead && x !in s.stashed {
        RejectedFrame(r, s, s', ev, x, false);
      }
    }
  }

  lemma DropTracks(r: Law, s: Snapshot, open: set<Id>, ev: Evidence, id: Id)
    requires WellFormed(r, s, open, {}) && Ready(s, id) && Tracks(r, s, ev, {})
    requires id in ev.bodies && RejectedAt(r, s, ev, id, false)
    ensures Tracks(r, Dropped(s, id), ev, {})
  {
    var s' := Dropped(s, id);
    forall x | x in s'.nodes && x != r.GenesisId() ensures NodeTracked(s', ev, x) {
      assert NodeTracked(s, ev, x);
    }
    forall x | x in s'.dead ensures DeadTracked(r, s', ev, x) {
      assert DeadTracked(r, s, ev, x);
    }
    forall x | x in ev.bodies ensures BodyTracked(r, s', ev, x, {}) {
      assert BodyTracked(r, s, ev, x, {});
    }
  }

  lemma KillTracksBody(r: Law, s: Snapshot, dying: set<Id>, ev: Evidence, id: Id, reason: DeadReason, x: Id)
    requires TreeOk(r, s.nodes) && Disjoint(s) && Tracks(r, s, ev, dying)
    requires id !in s.nodes && x in ev.bodies
    ensures var s' := Killed(s, id, reason);
      BodyTracked(r, s', ev, x, (dying - {id}) + Children(s'.stashed, id))
  {
    hide IsDoomed, DeadTracked;
    assert BodyTracked(r, s, ev, x, dying);
    if x in s.nodes {
      assert NodeTracked(s, ev, x);
      assert Linked(r, s.nodes, x);
    }
  }

  lemma KillKeepsPools(s: Snapshot, ev: Evidence, id: Id, reason: DeadReason)
    requires PoolsTracked(s, ev)
    ensures PoolsTracked(Killed(s, id, reason), ev)
  {
  }

  lemma KillTracks(r: Law, s: Snapshot, open: set<Id>, dying: set<Id>, ev: Evidence, id: Id,
                   reason: DeadReason)
    requires WellFormed(r, s, open, dying) && Tracks(r, s, ev, dying)
    requires id !in s.nodes && DeadTracked(r, s, ev, id)
    ensures var s' := Killed(s, id, reason);
      Tracks(r, s', ev, (dying - {id}) + Children(s'.stashed, id))
  {
    hide BodyTracked, PoolsTracked, Disjoint, TreeOk, Replayable;
    KillKeepsPools(s, ev, id, reason);
    var s' := Killed(s, id, reason);
    var dying' := (dying - {id}) + Children(s'.stashed, id);
    forall x | x in s'.nodes && x != r.GenesisId() ensures NodeTracked(s', ev, x) {
      assert NodeTracked(s, ev, x);
    }
    forall x | x in s'.dead ensures DeadTracked(r, s', ev, x) {
      assert x != id ==> DeadTracked(r, s, ev, x);
    }
    forall x | x in ev.bodies ensures BodyTracked(r, s', ev, x, dying') {
      KillTracksBody(r, s, dying, ev, id, reason, x);
    }
  }

  lemma DoomedChild(r: Law, ev: Evidence, parent: Id, child: Id)
    requires IsDoomed(r, ev, parent)
    requires child in ev.bodies && ev.bodies[child].header.prevId == parent
    ensures IsDoomed(r, ev, child)
  {
    var k: nat :| DoomedIn(r, ev, parent, k);
    assert DoomedIn(r, ev, child, k + 1);
  }

  // A permanently rejected body on a validated parent is doomed, and may be killed.
  lemma RejectedIsDoomed(r: Law, s: Snapshot, open: set<Id>, ev: Evidence, id: Id)
    requires WellFormed(r, s, open, {}) && Tracks(r, s, ev, {})
    requires id in ev.bodies && RejectedAt(r, s, ev, id, true)
    ensures DeadTracked(r, s, ev, id)
  {
    var parent := ev.bodies[id].header.prevId;
    NodesAreValid(r, s, ev, parent, open, {});
    assert PermanentlyRejected(r, PathBlocks(s.nodes, parent), ev.bodies[id]);
    assert DoomedIn(r, ev, id, 0);
  }

  /* ---------- evidence arriving ---------- */

  ghost predicate EvidenceGrows(ev: Evidence, ev': Evidence) {
    && ev.shares.Keys <= ev'.shares.Keys
    && (forall id | id in ev.bodies :: id in ev'.bodies && ev'.bodies[id] == ev.bodies[id])
  }

  lemma {:induction false} ValidPathGrows(r: Law, ev: Evidence, ev': Evidence, q: seq<Block>)
    requires EvidenceGrows(ev, ev') && ValidPath(r, ev, q)
    ensures ValidPath(r, ev', q)
    decreases |q|
  {
    if |q| > 1 {
      ValidPathGrows(r, ev, ev', q[..|q| - 1]);
      assert Extends(r, ev, q[..|q| - 1], Last(q));
    }
  }

  lemma {:induction false} DoomedInGrows(r: Law, ev: Evidence, ev': Evidence, id: Id, k: nat)
    requires EvidenceGrows(ev, ev') && DoomedIn(r, ev, id, k)
    ensures DoomedIn(r, ev', id, k)
    decreases k
  {
    var b := ev.bodies[id];
    if k > 0 {
      DoomedInGrows(r, ev, ev', b.header.prevId, k - 1);
    } else {
      var q :| ValidPath(r, ev, q) && r.BlockId(Last(q)) == b.header.prevId && PermanentlyRejected(r, q, b);
      ValidPathGrows(r, ev, ev', q);
    }
  }

  lemma DoomedGrows(r: Law, ev: Evidence, ev': Evidence, id: Id)
    requires EvidenceGrows(ev, ev') && IsDoomed(r, ev, id)
    ensures IsDoomed(r, ev', id)
  {
    var k: nat :| DoomedIn(r, ev, id, k);
    DoomedInGrows(r, ev, ev', id, k);
  }

  function WithBetterKey(n: BlockNode, ergoHeight: nat): BlockNode {
    n.(ergoHeight := Min(n.ergoHeight, ergoHeight))
  }

  // A share is noted: lost on a dead id, a better tie-break key on a node, else pending weight.
  ghost function ShareNoted(s: Snapshot, sh: Share): Snapshot {
    var id := sh.aegisId;
    if id in s.dead then s
    else if id in s.nodes then s.(nodes := s.nodes[id := WithBetterKey(s.nodes[id], sh.ergoHeight)])
    else s.(pending := s.pending[id := MergeShare(s.pending, sh)])
  }

  lemma BetterKeyKeepsTree(r: Law, nodes: Nodes, id: Id, ergoHeight: nat)
    requires TreeOk(r, nodes) && Replayable(r, nodes) && id in nodes
    ensures var nodes' := nodes[id := WithBetterKey(nodes[id], ergoHeight)];
      TreeOk(r, nodes') && Replayable(r, nodes') && Grows(nodes, nodes') && nodes'.Keys == nodes.Keys
  {
    var nodes' := nodes[id := WithBetterKey(nodes[id], ergoHeight)];
    forall x | x in nodes' && x != r.GenesisId() ensures Linked(r, nodes', x) {
      assert Linked(r, nodes, x);
    }
    assert TreeOk(r, nodes');
    forall x | x in nodes' && x != r.GenesisId() ensures Replays(r, nodes', x) {
      assert Linked(r, nodes, x);
      assert Replays(r, nodes, x);
      PathFrame(r, nodes, nodes', nodes[x].parent);
    }
  }

  lemma NewShareKeeps(r: Law, s: Snapshot, id: Id, p: PendingShare)
    requires WellFormed(r, s, {}, {}) && id !in s.nodes && id !in s.dead
    ensures WellFormed(r, s.(pending := s.pending[id := p]), {id}, {})
  {
    var s' := s.(pending := s.pending[id := p]);
    assert Disjoint(s');
    forall x | Ready(s', x) ensures x in {id} {
      assert x != id ==> !Ready(s, x);
    }
  }

  lemma BetterKeyKeeps(r: Law, s: Snapshot, id: Id, ergoHeight: nat)
    requires WellFormed(r, s, {}, {}) && id in s.nodes
    ensures var s' := s.(nodes := s.nodes[id := WithBetterKey(s.nodes[id], ergoHeight)]);
      WellFormed(r, s', {}, {}) && Grows(s.nodes, s'.nodes) && s'.nodes.Keys == s.nodes.Keys
  {
    var s' := s.(nodes := s.nodes[id := WithBetterKey(s.nodes[id], ergoHeight)]);
    BetterKeyKeepsTree(r, s.nodes, id, ergoHeight);
    assert Disjoint(s');
    forall x | Ready(s', x) ensures false {
      assert Ready(s, x);
    }
  }

  // New shares and anchors leave what is known of dead ids and of bodies in place.
  lemma VerdictsKept(r: Law, s: Snapshot, s': Snapshot, ev: Evidence, ev': Evidence)
    requires TreeOk(r, s.nodes) && TreeOk(r, s'.nodes) && Grows(s.nodes, s'.nodes) && s'.nodes.Keys == s.nodes.Keys
    requires s'.dead == s.dead && s'.stashed == s.stashed
    requires EvidenceGrows(ev, ev') && ev'.bodies == ev.bodies
    requires Tracks(r, s, ev, {})
    ensures forall x | x in s'.dead :: DeadTracked(r, s', ev', x)
    ensures forall x | x in ev'.bodies :: BodyTracked(r, s', ev', x, {})
  {
    forall x | x in s'.dead ensures DeadTracked(r, s', ev', x) {
      assert DeadTracked(r, s, ev, x);
      DoomedGrows(r, ev, ev', x);
      if ev.bodies[x].header.prevId !in s.dead {
        RejectedFrame(r, s, s', ev, x, true);
      }
    }
    forall x | x in ev'.bodies ensures BodyTracked(r, s', ev', x, {}) {
      assert BodyTracked(r, s, ev, x, {});
      if x !in s.nodes && x !in s.dead && x !in s.stashed {
        RejectedFrame(r, s, s', ev, x, false);
      }
    }
  }

  lemma ShareOnDeadTracks(r: Law, s: Snapshot, sh: Share, ev: Evidence)
    requires TreeOk(r, s.nodes) && s.nodes.Keys !! s.dead.Keys && Tracks(r, s, ev, {})
    requires sh.aegisId in s.dead
    ensures Tracks(r, s, AddShare(ev, sh), {})
  {
    var ev' := AddShare(ev, sh);
    VerdictsKept(r, s, s, ev, ev');
    forall x | x in s.nodes && x != r.GenesisId() ensures NodeTracked(s, ev', x) {
      assert NodeTracked(s, ev, x);
    }
  }

  lemma ShareOnNodeTracks(r: Law, s: Snapshot, s': Snapshot, sh: Share, ev: Evidence)
    requires TreeOk(r, s.nodes) && TreeOk(r, s'.nodes) && Tracks(r, s, ev, {})
    requires sh.aegisId in s.nodes
    requires s' == s.(nodes := s.nodes[sh.aegisId := WithBetterKey(s.nodes[sh.aegisId], sh.ergoHeight)])
    ensures Tracks(r, s', AddShare(ev, sh), {})
  {
    var ev' := AddShare(ev, sh);
    assert s'.nodes.Keys == s.nodes.Keys;
    VerdictsKept(r, s, s', ev, ev');
    forall x | x in s'.nodes && x != r.GenesisId() ensures NodeTracked(s', ev', x) {
      assert NodeTracked(s, ev, x);
    }
  }

  lemma ShareOnPendingPools(s: Snapshot, sh: Share, ev: Evidence)
    requires PoolsTracked(s, ev) && sh.aegisId !in s.nodes && sh.aegisId !in s.dead
    ensures PoolsTracked(s.(pending := s.pending[sh.aegisId := MergeShare(s.pending, sh)]), AddShare(ev, sh))
  {
  }

  lemma ShareOnPendingTracks(r: Law, s: Snapshot, sh: Share, ev: Evidence)
    requires TreeOk(r, s.nodes) && Tracks(r, s, ev, {})
    requires sh.aegisId !in s.nodes && sh.aegisId !in s.dead
    ensures Tracks(r, s.(pending := s.pending[sh.aegisId := MergeShare(s.pending, sh)]), AddShare(ev, sh), {})
  {
    hide PoolsTracked, MergeShare, TreeOk;
    ShareOnPendingPools(s, sh, ev);
    var s' := s.(pending := s.pending[sh.aegisId := MergeShare(s.pending, sh)]);
    var ev' := AddShare(ev, sh);
    VerdictsKept(r, s, s', ev, ev');
    forall x | x in s'.nodes && x != r.GenesisId() ensures NodeTracked(s', ev', x) {
      assert NodeTracked(s, ev, x);
    }
  }

  // A body is stashed unless one is there already.
  ghost function BodyStashed(r: Law, s: Snapshot, b: Block): Snapshot {
    var id := r.BlockId(b);
    s.(stashed := if id in s.stashed then s.stashed else s.stashed[id := b])
  }

  ghost function OrphanOfDead(r: Law, s: Snapshot, b: Block): set<Id> {
    if b.header.prevId in s.dead then {r.BlockId(b)} else {}
  }

  lemma BodyKeeps(r: Law, s: Snapshot, b: Block)
    requires WellFormed(r, s, {}, {}) && Authentic(r.rules, b)
    requires r.BlockId(b) !in s.nodes && r.BlockId(b) !in s.dead
    ensures WellFormed(r, BodyStashed(r, s, b), {r.BlockId(b)}, OrphanOfDead(r, s, b))
  {
    var s' := BodyStashed(r, s, b);
    forall x | Ready(s', x) ensures x == r.BlockId(b) {
      assert x != r.BlockId(b) ==> Ready(s, x);
    }
  }

  lemma BodyPools(r: Law, s: Snapshot, b: Block, ev: Evidence)
    requires PoolsTracked(s, ev) && Authentic(r.rules, b) && r.BlockId(b) != r.GenesisId()
    requires r.BlockId(b) in ev.bodies ==> ev.bodies[r.BlockId(b)] == b
    ensures PoolsTracked(BodyStashed(r, s, b), AddBody(r, ev, b))
  {
  }

  lemma BodyTracks(r: Law, s: Snapshot, b: Block, ev: Evidence)
    requires TreeOk(r, s.nodes) && Tracks(r, s, ev, {}) && Authentic(r.rules, b)
    requires r.BlockId(b) !in s.nodes && r.BlockId(b) !in s.dead
    requires r.BlockId(b) in ev.bodies ==> ev.bodies[r.BlockId(b)] == b
    ensures Tracks(r, BodyStashed(r, s, b), AddBody(r, ev, b), OrphanOfDead(r, s, b))
  {
    hide PoolsTracked, Authentic;
    BodyPools(r, s, b, ev);
    var id := r.BlockId(b);
    var s' := BodyStashed(r, s, b);
    var ev' := AddBody(r, ev, b);
    var dying := OrphanOfDead(r, s, b);
    assert ev'.bodies == ev.bodies[id := b] && ev'.shares == ev.shares && EvidenceGrows(ev, ev');
    forall x | x in s'.nodes && x != r.GenesisId() ensures NodeTracked(s', ev', x) {
      assert NodeTracked(s, ev, x);
    }
    forall x | x in s'.dead ensures DeadTracked(r, s', ev', x) {
      assert DeadTracked(r, s, ev, x);
      DoomedGrows(r, ev, ev', x);
    }
    forall x | x in ev'.bodies ensures BodyTracked(r, s', ev', x, dying) {
      if x != id {
        assert BodyTracked(r, s, ev, x, {});
      }
    }
  }

  // A body under a dead parent is doomed, stashed or not.
  lemma OrphanTracks(r: Law, s: Snapshot, b: Block, ev: Evidence)
    requires TreeOk(r, s.nodes) && Tracks(r, s, ev, {}) && Authentic(r.rules, b)
    requires r.BlockId(b) !in s.nodes && r.BlockId(b) !in s.dead && b.header.prevId in s.dead
    requires r.BlockId(b) in ev.bodies ==> ev.bodies[r.BlockId(b)] == b
    ensures Tracks(r, s, AddBody(r, ev, b), {r.BlockId(b)})
    ensures DeadTracked(r, s, AddBody(r, ev, b), r.BlockId(b))
  {
    var id := r.BlockId(b);
    var ev' := AddBody(r, ev, b);
    assert ev'.bodies == ev.bodies[id := b] && ev'.shares == ev.shares && EvidenceGrows(ev, ev');
    forall x | x in s.nodes && x != r.GenesisId() ensures NodeTracked(s, ev', x) {
      assert NodeTracked(s, ev, x);
    }
    forall x | x in s.dead ensures DeadTracked(r, s, ev', x) {
      assert DeadTracked(r, s, ev, x);
      DoomedGrows(r, ev, ev', x);
    }
    forall x | x in ev'.bodies ensures BodyTracked(r, s, ev', x, {id}) {
      if x != id {
        assert BodyTracked(r, s, ev, x, {});
      }
    }
    assert DeadTracked(r, s, ev', b.header.prevId);
    DoomedChild(r, ev', b.header.prevId, id);
  }

  // Bodies of validated or dead ids, and bytes that are not the block's, add no evidence.
  lemma BodyAddsNothing(r: Law, s: Snapshot, b: Block, ev: Evidence)
    requires WellFormed(r, s, {}, {}) && Tracks(r, s, ev, {})
    requires r.BlockId(b) in s.nodes || r.BlockId(b) in s.dead || !Authentic(r.rules, b)
    ensures AddBody(r, ev, b) == ev
  {
    var id := r.BlockId(b);
    if id in s.nodes && id != r.GenesisId() {
      assert NodeTracked(s, ev, id);
    }
    if id in s.dead {
      assert DeadTracked(r, s, ev, id);
    }
  }

  lemma AnchorTracks(r: Law, s: Snapshot, ev: Evidence, id: Id, h: nat)
    requires WellFormed(r, s, {}, {}) && Tracks(r, s, ev, {})
    ensures Tracks(r, s.(anchors := LowestAnchor(s.anchors, id, h)),
                   ev.(anchors := LowestAnchor(ev.anchors, id, h)), {})
  {
    var s' := s.(anchors := LowestAnchor(s.anchors, id, h));
    var ev' := ev.(anchors := LowestAnchor(ev.anchors, id, h));
    VerdictsKept(r, s, s', ev, ev');
    forall x | x in s'.nodes && x != r.GenesisId() ensures NodeTracked(s', ev', x) {
      assert NodeTracked(s, ev, x);
    }
  }

  /* ---------- what the worklists do overall ---------- */

  // Pools only shrink; nodes only come out of the pending pool.
  ghost predicate Consumes(s: Snapshot, s': Snapshot) {
    && Grows(s.nodes, s'.nodes)
    && (forall id | id in s'.nodes :: id in s.nodes || id in s.pending)
    && SubMap(s'.pending, s.pending)
    && SubMap(s'.stashed, s.stashed)
    && SubMap(s.dead, s'.dead)
    && s'.anchors == s.anchors && s'.canonical == s.canonical
  }

  lemma ConsumesTransitive(s: Snapshot, t: Snapshot, u: Snapshot)
    requires Consumes(s, t) && Consumes(t, u)
    ensures Consumes(s, u)
  {
  }

  // A fresh tree is explained by the empty log.
  lemma InitialTracks(r: Law)
    ensures Tracks(r, InitialSnapshot(r), EvidenceOf(r, []), {})
  {
  }
}
