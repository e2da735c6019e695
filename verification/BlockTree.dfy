/** The validated block tree as a value: paths, ancestry, and the fork-choice order. */
module BlockTree {
  import opened Common
  import opened Blocks
  import opened Chains

  /** Block validation as fork choice sees it: a verdict on a block given the blocks before it
      and the clock. Fork choice needs nothing else of the chain rules; that the judge is
      `Chains.Verdict` is stated by IsChainJudge, and LawOk is what follows from that. */
  datatype Law = Law(rules: Rules, judge: (seq<Block>, Block, nat) -> Option<ExtendError>)
  {
    function BlockId(b: Block): Id {
      rules.BlockId(b)
    }

    function GenesisBlock(): Block {
      rules.GenesisBlock()
    }

    function GenesisId(): Id {
      rules.GenesisId()
    }

    // The weight fork choice gives a block: the difficulty its bits decode to.
    function Work(b: Block): nat {
      rules.prim.decodeBits(b.header.scNbits)
    }

    // The verdict at the block's own timestamp, which no drift bound can touch.
    function PinnedVerdict(q: seq<Block>, b: Block): Option<ExtendError> {
      judge(q, b, b.header.timestampMs)
    }

    predicate Accepts(q: seq<Block>, b: Block) {
      PinnedVerdict(q, b).None?
    }
  }

  ghost predicate IsChainJudge(r: Law) {
    forall q, b, now: nat {:trigger Verdict(r.rules, q, b, now)} | q != [] ::
      r.judge(q, b, now) == Verdict(r.rules, q, b, now)
  }

  // The judge that is the chain's verdict.
  function ChainLaw(rules: Rules): Law {
    Law(rules, (q: seq<Block>, b: Block, now: nat) => if q == [] then None else Verdict(rules, q, b, now))
  }

  // Accepted blocks link to the tip; the clock matters only through the drift bound.
  ghost predicate LawOk(r: Law) {
    forall q, b, now: nat {:trigger r.judge(q, b, now)} | q != [] ::
      && (r.judge(q, b, now).None? <==> r.Accepts(q, b) && b.header.timestampMs <= now + MAX_FUTURE_DRIFT_MS)
      && (b.header.timestampMs <= now + MAX_FUTURE_DRIFT_MS ==> r.judge(q, b, now) == r.PinnedVerdict(q, b))
      && (r.judge(q, b, now).None? ==>
            b.header.prevId == r.BlockId(Last(q)) && b.header.height == Last(q).header.height + 1)
  }

  lemma ChainJudgeIsLawful(r: Law)
    requires IsChainJudge(r)
    ensures LawOk(r)
  {
    forall q, b, now: nat | q != []
      ensures r.judge(q, b, now).None? <==> r.Accepts(q, b) && b.header.timestampMs <= now + MAX_FUTURE_DRIFT_MS
      ensures b.header.timestampMs <= now + MAX_FUTURE_DRIFT_MS ==> r.judge(q, b, now) == r.PinnedVerdict(q, b)
      ensures r.judge(q, b, now).None? ==>
                b.header.prevId == r.BlockId(Last(q)) && b.header.height == Last(q).header.height + 1
    {
      AcceptedIffPinnedAndNotAhead(r.rules, q, b, now);
      assert r.judge(q, b, now) == Verdict(r.rules, q, b, now);
      assert r.PinnedVerdict(q, b) == Verdict(r.rules, q, b, b.header.timestampMs);
    }
  }

  // One validated block with its linkage, cumulative work and tie-break key.
  datatype BlockNode = BlockNode(block: Block, parent: Id, height: nat, work: nat, ergoHeight: nat)

  type Nodes = map<Id, BlockNode>

  function GenesisNode(r: Law): BlockNode {
    BlockNode(r.GenesisBlock(), 0, 0, 0, 0)
  }

  /** A non-genesis node hangs under a validated parent, one higher, and carries the parent's
      work plus its own. */
  ghost predicate Linked(r: Law, nodes: Nodes, id: Id)
    requires id in nodes
  {
    var n := nodes[id];
    && r.BlockId(n.block) == id
    && n.parent == n.block.header.prevId
    && n.height == n.block.header.height
    && n.parent in nodes
    && n.height == nodes[n.parent].height + 1
    && n.work == nodes[n.parent].work + r.Work(n.block)
  }

  ghost predicate TreeOk(r: Law, nodes: Nodes) {
    && r.GenesisId() in nodes
    && nodes[r.GenesisId()] == GenesisNode(r)
    && forall id {:trigger Linked(r, nodes, id)} | id in nodes && id != r.GenesisId() :: Linked(r, nodes, id)
  }

  // Ids on the path from genesis to `id`, root first.
  ghost function PathIds(nodes: Nodes, id: Id): seq<Id>
    decreases if id in nodes then nodes[id].height else 0
  {
    if id !in nodes || nodes[id].height == 0 then [id]
    else
      var p := nodes[id].parent;
      if p in nodes && nodes[p].height < nodes[id].height then PathIds(nodes, p) + [id] else [p, id]
  }

  ghost function BlocksAt(nodes: Nodes, ids: seq<Id>): seq<Block>
    requires forall i | 0 <= i < |ids| :: ids[i] in nodes
  {
    seq(|ids|, i requires 0 <= i < |ids| => nodes[ids[i]].block)
  }

  // The blocks on the path from genesis to `id`.
  ghost function PathBlocks(nodes: Nodes, id: Id): seq<Block> {
    var ids := PathIds(nodes, id);
    if forall i | 0 <= i < |ids| :: ids[i] in nodes then BlocksAt(nodes, ids) else []
  }

  ghost predicate IsAncestorOrEq(nodes: Nodes, a: Id, d: Id) {
    a in PathIds(nodes, d)
  }

  lemma {:induction false} PathShape(r: Law, nodes: Nodes, id: Id)
    requires TreeOk(r, nodes) && id in nodes
    ensures var p := PathIds(nodes, id);
      && |p| == nodes[id].height + 1
      && p[0] == r.GenesisId() && Last(p) == id
      && (forall i | 0 <= i < |p| :: p[i] in nodes && nodes[p[i]].height == i)
      && PathBlocks(nodes, id) == BlocksAt(nodes, p)
    decreases nodes[id].height
  {
    if id != r.GenesisId() {
      assert Linked(r, nodes, id);
      PathShape(r, nodes, nodes[id].parent);
    }
  }

  lemma PathOfChild(r: Law, nodes: Nodes, id: Id)
    requires TreeOk(r, nodes) && id in nodes && id != r.GenesisId()
    ensures nodes[id].parent in nodes
    ensures PathIds(nodes, id) == PathIds(nodes, nodes[id].parent) + [id]
    ensures PathBlocks(nodes, id) == PathBlocks(nodes, nodes[id].parent) + [nodes[id].block]
  {
    assert Linked(r, nodes, id);
    var parent := nodes[id].parent;
    PathShape(r, nodes, id);
    PathShape(r, nodes, parent);
    BlocksAtPush(nodes, PathIds(nodes, parent), id);
  }

  lemma BlocksAtPush(nodes: Nodes, ids: seq<Id>, id: Id)
    requires id in nodes && forall i | 0 <= i < |ids| :: ids[i] in nodes
    ensures forall i | 0 <= i < |ids + [id]| :: (ids + [id])[i] in nodes
    ensures BlocksAt(nodes, ids + [id]) == BlocksAt(nodes, ids) + [nodes[id].block]
  {
  }

  // Prefixes of a path are the paths of its members.
  lemma {:induction false} PathPrefix(r: Law, nodes: Nodes, id: Id, i: nat)
    requires TreeOk(r, nodes) && id in nodes && i < |PathIds(nodes, id)|
    ensures var a := PathIds(nodes, id)[i];
      && a in nodes
      && PathIds(nodes, id)[..i + 1] == PathIds(nodes, a)
      && |PathBlocks(nodes, id)| == |PathIds(nodes, id)|
      && PathBlocks(nodes, id)[..i + 1] == PathBlocks(nodes, a)
      && nodes[a].work <= nodes[id].work
    decreases nodes[id].height
  {
    PathShape(r, nodes, id);
    var p := PathIds(nodes, id);
    if i == |p| - 1 {
      assert p[..i + 1] == p;
      assert PathBlocks(nodes, id)[..i + 1] == PathBlocks(nodes, id);
    } else {
      assert id != r.GenesisId();
      assert Linked(r, nodes, id);
      PathOfChild(r, nodes, id);
      var parent := nodes[id].parent;
      PathPrefix(r, nodes, parent, i);
      assert p[..i + 1] == PathIds(nodes, parent)[..i + 1];
      assert PathBlocks(nodes, id)[..i + 1] == PathBlocks(nodes, parent)[..i + 1];
    }
  }

  // Ancestry is decided by the path entry at the ancestor's height.
  lemma AncestorAtHeight(r: Law, nodes: Nodes, a: Id, d: Id)
    requires TreeOk(r, nodes) && a in nodes && d in nodes
    ensures |PathIds(nodes, d)| == nodes[d].height + 1
    ensures IsAncestorOrEq(nodes, a, d) <==>
            nodes[a].height <= nodes[d].height && PathIds(nodes, d)[nodes[a].height] == a
  {
    PathShape(r, nodes, d);
  }

  lemma AncestorTransitive(r: Law, nodes: Nodes, a: Id, b: Id, c: Id)
    requires TreeOk(r, nodes) && a in nodes && b in nodes && c in nodes
    requires IsAncestorOrEq(nodes, a, b) && IsAncestorOrEq(nodes, b, c)
    ensures IsAncestorOrEq(nodes, a, c)
  {
    PathShape(r, nodes, c);
    var i :| 0 <= i < |PathIds(nodes, c)| && PathIds(nodes, c)[i] == b;
    PathPrefix(r, nodes, c, i);
  }

  // Same blocks, linkage and work; the tie-break keys may differ.
  ghost predicate Grows(nodes: Nodes, nodes': Nodes) {
    forall id | id in nodes ::
      && id in nodes'
      && nodes'[id].(ergoHeight := nodes[id].ergoHeight) == nodes[id]
  }

  lemma {:induction false} PathFrame(r: Law, nodes: Nodes, nodes': Nodes, id: Id)
    requires TreeOk(r, nodes) && TreeOk(r, nodes') && Grows(nodes, nodes') && id in nodes
    ensures PathIds(nodes', id) == PathIds(nodes, id)
    ensures PathBlocks(nodes', id) == PathBlocks(nodes, id)
    decreases nodes[id].height
  {
    PathShape(r, nodes, id);
    PathShape(r, nodes', id);
    if id != r.GenesisId() {
      assert Linked(r, nodes, id);
      PathFrame(r, nodes, nodes', nodes[id].parent);
      PathOfChild(r, nodes, id);
      PathOfChild(r, nodes', id);
    }
  }

  /* ---------- weight ---------- */

  // The difficulties of the blocks above genesis, added up.
  function TotalDifficulty(r: Rules, blocks: seq<Block>): nat {
    if |blocks| <= 1 then 0
    else TotalDifficulty(r, blocks[..|blocks| - 1]) + r.prim.decodeBits(blocks[|blocks| - 1].header.scNbits)
  }

  /** A node weighs what the bits of the blocks on its path decode to, all together. */
  lemma {:induction false} WorkIsTotalDifficulty(r: Law, nodes: Nodes, id: Id)
    requires TreeOk(r, nodes) && id in nodes
    ensures nodes[id].work == TotalDifficulty(r.rules, PathBlocks(nodes, id))
    decreases nodes[id].height
  {
    PathShape(r, nodes, id);
    if id != r.GenesisId() {
      assert Linked(r, nodes, id);
      PathOfChild(r, nodes, id);
      PathShape(r, nodes, nodes[id].parent);
      WorkIsTotalDifficulty(r, nodes, nodes[id].parent);
      var blocks := PathBlocks(nodes, id);
      assert blocks[..|blocks| - 1] == PathBlocks(nodes, nodes[id].parent);
    }
  }

  /* ---------- every node replays ---------- */

  // The node's block is accepted on its parent's path at its own timestamp.
  ghost predicate Replays(r: Law, nodes: Nodes, id: Id)
    requires id in nodes
  {
    var path := PathBlocks(nodes, nodes[id].parent);
    && path != []
    && r.Accepts(path, nodes[id].block)
    && nodes[id].block.header.timestampMs + MAX_FUTURE_DRIFT_MS <= U64_MAX
  }

  ghost predicate Replayable(r: Law, nodes: Nodes) {
    forall id {:trigger Replays(r, nodes, id)} | id in nodes && id != r.GenesisId() :: Replays(r, nodes, id)
  }

  lemma {:induction false} PathIsChain(r: Law, nodes: Nodes, id: Id)
    requires IsChainJudge(r) && TreeOk(r, nodes) && Replayable(r, nodes) && id in nodes
    ensures ChainOk(r.rules, PathBlocks(nodes, id))
    decreases nodes[id].height
  {
    PathShape(r, nodes, id);
    if id != r.GenesisId() {
      assert Linked(r, nodes, id);
      assert Replays(r, nodes, id);
      PathOfChild(r, nodes, id);
      PathIsChain(r, nodes, nodes[id].parent);
      ChainOkPush(r.rules, PathBlocks(nodes, nodes[id].parent), nodes[id].block);
    } else {
      assert PathBlocks(nodes, id) == [r.GenesisBlock()];
    }
  }

  /* ---------- the fork-choice order ---------- */

  function ErgoOf(nodes: Nodes, id: Id): nat {
    if id in nodes then nodes[id].ergoHeight else 0
  }

  // Sibling order: earliest Ergo-committed share, then lexicographically smaller id.
  predicate KeyLess(nodes: Nodes, a: Id, b: Id) {
    ErgoOf(nodes, a) < ErgoOf(nodes, b) || (ErgoOf(nodes, a) == ErgoOf(nodes, b) && a < b)
  }

  // Tie-break on paths: decided at the first difference; of a path and its prefix the longer wins.
  predicate PathBeats(nodes: Nodes, p: seq<Id>, q: seq<Id>) {
    if p == [] then false
    else if q == [] then true
    else if p[0] == q[0] then PathBeats(nodes, p[1..], q[1..])
    else KeyLess(nodes, p[0], q[0])
  }

  // The order that picks the tip: `a` comes before `b`.
  ghost predicate Beats(nodes: Nodes, a: Id, b: Id)
    requires a in nodes && b in nodes
  {
    && a != b
    && (nodes[a].work > nodes[b].work ||
        (nodes[a].work == nodes[b].work && PathBeats(nodes, PathIds(nodes, a), PathIds(nodes, b))))
  }

  lemma {:induction false} PathBeatsTotal(nodes: Nodes, p: seq<Id>, q: seq<Id>)
    ensures p == q ==> !PathBeats(nodes, p, q)
    ensures p != q ==> (PathBeats(nodes, p, q) <==> !PathBeats(nodes, q, p))
  {
    if p != [] && q != [] && p[0] == q[0] {
      PathBeatsTotal(nodes, p[1..], q[1..]);
      assert p == [p[0]] + p[1..] && q == [q[0]] + q[1..];
    }
  }

  lemma {:induction false} PathBeatsTransitive(nodes: Nodes, p: seq<Id>, q: seq<Id>, t: seq<Id>)
    requires PathBeats(nodes, p, q) && PathBeats(nodes, q, t)
    ensures PathBeats(nodes, p, t)
  {
    if q != [] && t != [] && p[0] == q[0] == t[0] {
      PathBeatsTransitive(nodes, p[1..], q[1..], t[1..]);
    }
  }

  /** The fork-choice order is a strict total order on validated nodes: irreflexive,
      asymmetric, any two distinct nodes comparable, and transitive. */
  lemma BeatsIsStrictTotalOrder(r: Law, nodes: Nodes, a: Id, b: Id, c: Id)
    requires TreeOk(r, nodes) && a in nodes && b in nodes && c in nodes
    ensures !Beats(nodes, a, a)
    ensures a != b ==> (Beats(nodes, a, b) <==> !Beats(nodes, b, a))
    ensures Beats(nodes, a, b) && Beats(nodes, b, c) ==> Beats(nodes, a, c)
  {
    PathShape(r, nodes, a);
    PathShape(r, nodes, b);
    PathBeatsTotal(nodes, PathIds(nodes, a), PathIds(nodes, b));
    if Beats(nodes, a, b) && Beats(nodes, b, c) {
      if nodes[a].work == nodes[b].work == nodes[c].work {
        PathBeatsTransitive(nodes, PathIds(nodes, a), PathIds(nodes, b), PathIds(nodes, c));
        PathBeatsTotal(nodes, PathIds(nodes, a), PathIds(nodes, c));
      }
      if a == c {
        PathBeatsTotal(nodes, PathIds(nodes, b), PathIds(nodes, a));
      }
    }
  }

  // `best` beats every other node.
  ghost predicate IsBest(nodes: Nodes, best: Id) {
    best in nodes && forall id | id in nodes && id != best :: Beats(nodes, best, id)
  }

  /** The winner of fork choice is unique, hence independent of any scan order. */
  lemma BestIsUnique(r: Law, nodes: Nodes, a: Id, b: Id)
    requires TreeOk(r, nodes) && IsBest(nodes, a) && IsBest(nodes, b)
    ensures a == b
  {
    if a != b {
      BeatsIsStrictTotalOrder(r, nodes, a, b, a);
    }
  }
}
