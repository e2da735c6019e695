/** The bookkeeping of fork choice as a value, its structural invariant, and what it must
    equal: a reference that is defined from the shares and bodies seen, without any order. */
module ForkState {
  import opened Common
  import opened Blocks
  import opened Chains
  import opened BlockTree

  // What a share that passed verification says: whose work it is, how much, and how early.
  datatype Share = Share(aegisId: Id, work: nat, ergoHeight: nat)

  datatype PendingShare = PendingShare(work: nat, ergoHeight: nat)

  // Refused, stashed below this id when it died, or delivered when its parent was dead already.
  datatype DeadReason = Rejected(err: ExtendError) | DescendsFrom(parent: Id) | DescendsFromDead

  datatype Snapshot = Snapshot(
    nodes: Nodes,
    pending: map<Id, PendingShare>,
    stashed: map<Id, Block>,
    dead: map<Id, DeadReason>,
    anchors: map<Id, nat>,
    canonical: Id)

  /** A refusal that another clock, coinbase proof or body of the same id is not expected to change. */
  predicate VerdictIsPermanent(e: ExtendError) {
    !e.TimestampTooFarInFuture? && !e.TxRootMismatch? && !e.RewardClaimMismatch? && !e.CoinbaseMint?
  }

  // The header names this body and this coinbase note.
  predicate Authentic(r: Rules, b: Block) {
    && b.header.txRoot == r.TxRoot(b.body)
    && b.header.rewardClaim == (match b.coinbase case None => EMPTY_REWARD_CLAIM case Some(p) => r.prim.encodeCm(p.cm))
  }

  /* ---------- structural invariant ---------- */

  // A stashed block that could be tried now.
  ghost predicate Ready(s: Snapshot, id: Id) {
    id in s.stashed && id in s.pending && s.stashed[id].header.prevId in s.nodes
  }

  ghost predicate SubMap<K(!new), V(!new)>(m: map<K, V>, m': map<K, V>) {
    forall k | k in m :: k in m' && m'[k] == m[k]
  }

  ghost predicate Disjoint(s: Snapshot) {
    && s.nodes.Keys !! s.pending.Keys
    && s.nodes.Keys !! s.stashed.Keys
    && s.nodes.Keys !! s.dead.Keys
    && s.pending.Keys !! s.dead.Keys
    && s.stashed.Keys !! s.dead.Keys
  }

  ghost predicate StashOk(r: Law, s: Snapshot, dying: set<Id>) {
    forall id | id in s.stashed ::
      && r.BlockId(s.stashed[id]) == id
      && Authentic(r.rules, s.stashed[id])
      && (s.stashed[id].header.prevId in s.dead ==> id in dying)
  }

  // `open` blocks may still be ready, `dying` ones may still have a dead parent.
  ghost predicate WellFormed(r: Law, s: Snapshot, open: set<Id>, dying: set<Id>) {
    && LawOk(r)
    && TreeOk(r, s.nodes)
    && Replayable(r, s.nodes)
    && Disjoint(s)
    && StashOk(r, s, dying)
    && (forall id | Ready(s, id) :: id in open)
  }

  // Between calls: worklists are empty and the canonical tip is the best node.
  ghost predicate Settled(r: Law, s: Snapshot) {
    WellFormed(r, s, {}, {}) && IsBest(s.nodes, s.canonical)
  }

  function InitialSnapshot(r: Law): Snapshot {
    Snapshot(map[r.GenesisId() := GenesisNode(r)], map[], map[], map[], map[], r.GenesisId())
  }

  /** On a settled state no validated block has a dead or a pending ancestor. */
  lemma NoDeadAncestor(r: Law, s: Snapshot, a: Id, d: Id)
    requires Settled(r, s) && d in s.nodes && IsAncestorOrEq(s.nodes, a, d)
    ensures a in s.nodes && a !in s.dead && a !in s.pending && a !in s.stashed
  {
    PathShape(r, s.nodes, d);
  }

  /* ---------- events and evidence ---------- */

  datatype Event =
    | ShareSeen(share: Share, shareNow: nat)
    | BodySeen(block: Block, bodyNow: nat)
    | AnchorSeen(anchorId: Id, inclusionHeight: nat)

  // Everything ever presented: per id the share data, the authentic body, the lowest anchor.
  datatype Evidence = Evidence(shares: map<Id, PendingShare>, bodies: map<Id, Block>, anchors: map<Id, nat>)

  // Weight counts once per id; only the Ergo height can improve.
  function MergeShare(shares: map<Id, PendingShare>, sh: Share): PendingShare {
    if sh.aegisId in shares
    then PendingShare(shares[sh.aegisId].work, Min(shares[sh.aegisId].ergoHeight, sh.ergoHeight))
    else PendingShare(sh.work, sh.ergoHeight)
  }

  function AddShare(ev: Evidence, sh: Share): Evidence {
    ev.(shares := ev.shares[sh.aegisId := MergeShare(ev.shares, sh)])
  }

  function AddBody(r: Law, ev: Evidence, b: Block): Evidence {
    var id := r.BlockId(b);
    if Authentic(r.rules, b) && id != r.GenesisId() && id !in ev.bodies then ev.(bodies := ev.bodies[id := b]) else ev
  }

  function LowestAnchor(anchors: map<Id, nat>, id: Id, h: nat): map<Id, nat> {
    anchors[id := if id in anchors then Min(anchors[id], h) else h]
  }

  function AddEvent(r: Law, ev: Evidence, e: Event): Evidence {
    match e
    case ShareSeen(sh, _) => AddShare(ev, sh)
    case BodySeen(b, _) => AddBody(r, ev, b)
    case AnchorSeen(id, h) => ev.(anchors := LowestAnchor(ev.anchors, id, h))
  }

  function EvidenceOf(r: Law, log: seq<Event>): Evidence {
    if log == [] then Evidence(map[], map[], map[]) else AddEvent(r, EvidenceOf(r, log[..|log| - 1]), Last(log))
  }

  // No delivered body is ahead of the drift bound at its own call or at any later one.
  ghost predicate OnTime(r: Law, log: seq<Event>) {
    forall i, j | 0 <= i <= j < |log| && log[i].BodySeen? && Authentic(r.rules, log[i].block) && !log[j].AnchorSeen? ::
      log[i].block.header.timestampMs <= ClockOf(log[j]) + MAX_FUTURE_DRIFT_MS
  }

  function ClockOf(e: Event): nat
    requires !e.AnchorSeen?
  {
    if e.ShareSeen? then e.shareNow else e.bodyNow
  }

  // The same for what has been delivered so far and one clock.
  ghost predicate Punctual(ev: Evidence, now: nat) {
    forall id | id in ev.bodies :: ev.bodies[id].header.timestampMs <= now + MAX_FUTURE_DRIFT_MS
  }

  // One authentic body per id, one work per id (share work is decoded from the id's header).
  ghost predicate Coherent(r: Law, log: seq<Event>) {
    && (forall e, f | e in log && f in log && e.BodySeen? && f.BodySeen?
                      && Authentic(r.rules, e.block) && Authentic(r.rules, f.block)
                      && r.BlockId(e.block) == r.BlockId(f.block)
          :: e.block == f.block)
    && (forall e, f | e in log && f in log && e.ShareSeen? && f.ShareSeen? && e.share.aegisId == f.share.aegisId
          :: e.share.work == f.share.work)
  }

  /* ---------- the order-free reference ---------- */

  // A chain from genesis all of whose blocks have a share and a body and are accepted in turn.
  ghost predicate ValidPath(r: Law, ev: Evidence, q: seq<Block>) {
    && q != []
    && if |q| == 1 then q == [r.GenesisBlock()]
       else ValidPath(r, ev, q[..|q| - 1]) && Extends(r, ev, q[..|q| - 1], Last(q))
  }

  // The block has a share and a body, and is accepted on top of q.
  ghost predicate Extends(r: Law, ev: Evidence, q: seq<Block>, b: Block)
    requires q != []
  {
    var id := r.BlockId(b);
    && id in ev.shares
    && id in ev.bodies && ev.bodies[id] == b
    && r.Accepts(q, b)
  }

  // An id is valid when it is the tip of such a chain.
  ghost predicate IsValid(r: Law, ev: Evidence, id: Id) {
    exists q :: ValidPath(r, ev, q) && r.BlockId(Last(q)) == id
  }

  ghost predicate PermanentlyRejected(r: Law, q: seq<Block>, b: Block)
    requires q != []
  {
    var v := r.PinnedVerdict(q, b);
    v.Some? && VerdictIsPermanent(v.value)
  }

  // An id is doomed in k steps: rejected on a valid chain, or k links below such a block.
  ghost predicate DoomedIn(r: Law, ev: Evidence, id: Id, k: nat)
    decreases k
  {
    && id in ev.bodies
    && var b := ev.bodies[id];
       if k > 0 then DoomedIn(r, ev, b.header.prevId, k - 1)
       else
         && id in ev.shares
         && exists q :: ValidPath(r, ev, q) && r.BlockId(Last(q)) == b.header.prevId && PermanentlyRejected(r, q, b)
  }

  ghost predicate IsDoomed(r: Law, ev: Evidence, id: Id) {
    exists k: nat :: DoomedIn(r, ev, id, k)
  }

  /* ---------- the inductive invariant tying a snapshot to the evidence ---------- */

  ghost predicate NodeTracked(s: Snapshot, ev: Evidence, id: Id)
    requires id in s.nodes
  {
    && id in ev.shares && id in ev.bodies
    && s.nodes[id].block == ev.bodies[id]
    && s.nodes[id].ergoHeight == ev.shares[id].ergoHeight
  }

  // A rejected body whose parent is validated.
  ghost predicate RejectedAt(r: Law, s: Snapshot, ev: Evidence, id: Id, permanent: bool)
    requires id in ev.bodies
  {
    var b := ev.bodies[id];
    var q := PathBlocks(s.nodes, b.header.prevId);
    && id in ev.shares
    && b.header.prevId in s.nodes
    && q != []
    && r.PinnedVerdict(q, b).Some?
    && VerdictIsPermanent(r.PinnedVerdict(q, b).value) == permanent
  }

  ghost predicate DeadTracked(r: Law, s: Snapshot, ev: Evidence, id: Id) {
    && id in ev.bodies
    && IsDoomed(r, ev, id)
    && (ev.bodies[id].header.prevId in s.dead || RejectedAt(r, s, ev, id, true))
  }

  ghost predicate BodyTracked(r: Law, s: Snapshot, ev: Evidence, id: Id, dying: set<Id>)
    requires id in ev.bodies
  {
    && r.BlockId(ev.bodies[id]) == id
    && id != r.GenesisId()
    && (ev.bodies[id].header.prevId in s.dead ==> id in s.dead || id in dying)
    && (id in s.nodes || id in s.dead || id in s.stashed || id in dying || RejectedAt(r, s, ev, id, false))
  }

  ghost predicate PoolsTracked(s: Snapshot, ev: Evidence) {
    && (forall id | id in s.stashed :: id in ev.bodies && ev.bodies[id] == s.stashed[id])
    && (forall id | id in s.pending ::
          id in ev.shares && id !in s.nodes && id !in s.dead && s.pending[id] == ev.shares[id])
    && (forall id | id in ev.shares :: id in s.nodes || id in s.dead || id in s.pending)
    && s.anchors == ev.anchors
  }

  ghost predicate Tracks(r: Law, s: Snapshot, ev: Evidence, dying: set<Id>) {
    && (forall id {:trigger NodeTracked(s, ev, id)} | id in s.nodes && id != r.GenesisId() :: NodeTracked(s, ev, id))
    && (forall id {:trigger DeadTracked(r, s, ev, id)} | id in s.dead :: DeadTracked(r, s, ev, id))
    && (forall id {:trigger BodyTracked(r, s, ev, id, dying)} | id in ev.bodies :: BodyTracked(r, s, ev, id, dying))
    && PoolsTracked(s, ev)
  }

  /* ---------- the reference is what the invariant forces ---------- */

  lemma NodeVerdict(r: Law, s: Snapshot, ev: Evidence, id: Id, open: set<Id>, dying: set<Id>)
    requires WellFormed(r, s, open, dying) && Tracks(r, s, ev, dying)
    requires id in s.nodes && id != r.GenesisId()
    ensures NodeTracked(s, ev, id)
    ensures var n := s.nodes[id];
      && n.parent in s.nodes && n.parent == n.block.header.prevId
      && r.BlockId(n.block) == id
      && PathBlocks(s.nodes, n.parent) != []
      && r.Accepts(PathBlocks(s.nodes, n.parent), n.block)
      && PathBlocks(s.nodes, id) == PathBlocks(s.nodes, n.parent) + [n.block]
  {
    assert NodeTracked(s, ev, id);
    assert Linked(r, s.nodes, id);
    assert Replays(r, s.nodes, id);
    PathOfChild(r, s.nodes, id);
  }

  lemma {:induction false} NodesAreValid(r: Law, s: Snapshot, ev: Evidence, id: Id, open: set<Id>,
                                         dying: set<Id>)
    requires WellFormed(r, s, open, dying) && Tracks(r, s, ev, dying) && id in s.nodes
    ensures ValidPath(r, ev, PathBlocks(s.nodes, id))
    ensures r.BlockId(Last(PathBlocks(s.nodes, id))) == id
    decreases s.nodes[id].height
  {
    PathShape(r, s.nodes, id);
    if id == r.GenesisId() {
      assert PathBlocks(s.nodes, id) == [r.GenesisBlock()];
    } else {
      NodeVerdict(r, s, ev, id, open, dying);
      assert Linked(r, s.nodes, id);
      var parent := s.nodes[id].parent;
      NodesAreValid(r, s, ev, parent, open, dying);
      var q := PathBlocks(s.nodes, id);
      assert q[..|q| - 1] == PathBlocks(s.nodes, parent);
    }
  }

  // A body accepted on the path of a validated block is itself validated.
  lemma AcceptedIsNode(r: Law, s: Snapshot, ev: Evidence, id: Id)
    requires WellFormed(r, s, {}, {}) && Tracks(r, s, ev, {})
    requires id in ev.bodies && id in ev.shares && ev.bodies[id].header.prevId in s.nodes
    requires var q := PathBlocks(s.nodes, ev.bodies[id].header.prevId);
      q != [] && r.Accepts(q, ev.bodies[id])
    ensures id in s.nodes && id != r.GenesisId()
    ensures PathBlocks(s.nodes, id) == PathBlocks(s.nodes, ev.bodies[id].header.prevId) + [ev.bodies[id]]
  {
    assert BodyTracked(r, s, ev, id, {});
    assert id in s.dead ==> DeadTracked(r, s, ev, id);
    assert id in s.stashed && id in s.pending ==> Ready(s, id);
    NodeVerdict(r, s, ev, id, {}, {});
  }

  lemma ExtensionIsNode(r: Law, s: Snapshot, ev: Evidence, q: seq<Block>, b: Block)
    requires WellFormed(r, s, {}, {}) && Tracks(r, s, ev, {})
    requires q != [] && Extends(r, ev, q, b)
    requires r.BlockId(Last(q)) in s.nodes && PathBlocks(s.nodes, r.BlockId(Last(q))) == q
    ensures r.BlockId(b) in s.nodes
    ensures PathBlocks(s.nodes, r.BlockId(b)) == q + [b]
  {
    AcceptedIsNode(r, s, ev, r.BlockId(b));
  }

  // Every acceptable extension of a validated path is validated.
  ghost predicate ExtensionClosed(r: Law, nodes: Nodes, ev: Evidence) {
    forall q, b {:trigger Extends(r, ev, q, b)} |
      q != [] && r.BlockId(Last(q)) in nodes && PathBlocks(nodes, r.BlockId(Last(q))) == q && Extends(r, ev, q, b) ::
      r.BlockId(b) in nodes && PathBlocks(nodes, r.BlockId(b)) == q + [b]
  }

  lemma {:induction false} ValidPathIsTree(r: Law, nodes: Nodes, ev: Evidence, q: seq<Block>)
    requires ExtensionClosed(r, nodes, ev) && ValidPath(r, ev, q)
    requires r.GenesisId() in nodes && PathBlocks(nodes, r.GenesisId()) == [r.GenesisBlock()]
    ensures r.BlockId(Last(q)) in nodes
    ensures PathBlocks(nodes, r.BlockId(Last(q))) == q
    decreases |q|
  {
    if |q| > 1 {
      ValidPathIsTree(r, nodes, ev, q[..|q| - 1]);
      assert Extends(r, ev, q[..|q| - 1], Last(q));
      assert q == q[..|q| - 1] + [Last(q)];
    }
  }

  lemma ValidAreNodes(r: Law, s: Snapshot, ev: Evidence, q: seq<Block>)
    requires WellFormed(r, s, {}, {}) && Tracks(r, s, ev, {}) && ValidPath(r, ev, q)
    ensures r.BlockId(Last(q)) in s.nodes
    ensures PathBlocks(s.nodes, r.BlockId(Last(q))) == q
  {
    forall q, b | q != [] && r.BlockId(Last(q)) in s.nodes && PathBlocks(s.nodes, r.BlockId(Last(q))) == q
                  && Extends(r, ev, q, b)
      ensures r.BlockId(b) in s.nodes && PathBlocks(s.nodes, r.BlockId(b)) == q + [b]
    {
      ExtensionIsNode(r, s, ev, q, b);
    }
    PathShape(r, s.nodes, r.GenesisId());
    assert PathBlocks(s.nodes, r.GenesisId()) == [r.GenesisBlock()];
    ValidPathIsTree(r, s.nodes, ev, q);
  }

  lemma {:induction false} DoomedAreDead(r: Law, s: Snapshot, ev: Evidence, id: Id, k: nat)
    requires WellFormed(r, s, {}, {}) && Tracks(r, s, ev, {}) && DoomedIn(r, ev, id, k)
    ensures id in s.dead
    decreases k
  {
    var b := ev.bodies[id];
    assert BodyTracked(r, s, ev, id, {});
    if k > 0 {
      DoomedAreDead(r, s, ev, b.header.prevId, k - 1);
    } else {
      var q :| ValidPath(r, ev, q) && r.BlockId(Last(q)) == b.header.prevId && PermanentlyRejected(r, q, b);
      ValidAreNodes(r, s, ev, q);
      if id in s.nodes {
        NodeVerdict(r, s, ev, id, {}, {});
      }
      assert id in s.stashed && id in s.pending ==> Ready(s, id);
    }
  }

  /** The validated set is exactly the set of valid ids, the dead set exactly the doomed ids,
      and the pending set the remaining shares: the arrival order left no trace. */
  lemma SetsMatchReference(r: Law, s: Snapshot, ev: Evidence, id: Id)
    requires Settled(r, s) && Tracks(r, s, ev, {})
    ensures id in s.nodes <==> IsValid(r, ev, id)
    ensures id in s.dead <==> IsDoomed(r, ev, id)
    ensures id in s.pending <==> id in ev.shares && !IsValid(r, ev, id) && !IsDoomed(r, ev, id)
  {
    if id in s.nodes {
      NodesAreValid(r, s, ev, id, {}, {});
    }
    if IsValid(r, ev, id) {
      var q :| ValidPath(r, ev, q) && r.BlockId(Last(q)) == id;
      ValidAreNodes(r, s, ev, q);
    }
    if id in s.dead {
      assert DeadTracked(r, s, ev, id);
    }
    if IsDoomed(r, ev, id) {
      var k: nat :| DoomedIn(r, ev, id, k);
      DoomedAreDead(r, s, ev, id, k);
    }
  }
}
