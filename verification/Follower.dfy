/** The Ergo header follower: a tree of headers below one root, the heaviest tip with first-seen
    ties, the depth of a reorg, and the best chain truncated at a settled height. */
module Followers {
  import opened Common
  import opened Blocks
  import opened ShieldedStates

  datatype FollowedHeader = FollowedHeader(
    id: Id, parentId: Id, height: nat, work: nat, cumulativeWork: nat, level: nat)

  type Headers = map<Id, FollowedHeader>

  datatype Ingest = IsRoot | Extended | SideBranch | Reorg(depth: nat) | Duplicate

  datatype FollowError =
    | InvalidPow
    | Serialize
    | RootMismatch
    | UnknownParent
    | HeightGap(expectedParent: nat, got: nat)

  // A header as it arrives, with what its proof-of-work check and its serialization say.
  datatype ErgoHeader = ErgoHeader(
    powOk: bool, id: Option<Id>, parentId: Id, height: nat, work: nat, level: nat)

  datatype SettledRef = SettledRef(id: Id, height: nat, cumulativeWork: nat)

  /* ---------- the header tree as a value ---------- */

  // All followed headers, the first one, and the current best one.
  datatype Tree = Tree(headers: Headers, root: Id, tip: Id)

  ghost predicate LinkedTo(hs: Headers, root: Id, id: Id)
    requires root in hs && id in hs
  {
    && hs[id].id == id
    && if id == root then hs[id].cumulativeWork == hs[id].work
       else
         && hs[id].parentId in hs
         && hs[id].height == hs[hs[id].parentId].height + 1
         && hs[id].height > hs[root].height
         && hs[id].cumulativeWork == hs[hs[id].parentId].cumulativeWork + hs[id].work
  }

  ghost predicate HeadersOk(hs: Headers, root: Id) {
    && root in hs
    && forall id {:trigger LinkedTo(hs, root, id)} | id in hs :: LinkedTo(hs, root, id)
  }

  ghost predicate TreeOk(t: Tree) {
    HeadersOk(t.headers, t.root) && t.tip in t.headers
  }

  // Ids from the root up to `id`.
  ghost function Path(hs: Headers, root: Id, id: Id): seq<Id>
    requires HeadersOk(hs, root) && id in hs
    decreases hs[id].height
  {
    assert LinkedTo(hs, root, id);
    if id == root then [id] else Path(hs, root, hs[id].parentId) + [id]
  }

  // Path[i] is the ancestor i above the root.
  ghost predicate PathEntry(hs: Headers, root: Id, p: seq<Id>, i: nat)
    requires root in hs && i < |p|
  {
    && p[i] in hs && hs[p[i]].id == p[i] && hs[p[i]].height == hs[root].height + i
    && (p[i] == root <==> i == 0)
    && (i > 0 ==> hs[p[i]].parentId == p[i - 1])
  }

  lemma {:induction false} PathShape(hs: Headers, root: Id, id: Id)
    requires HeadersOk(hs, root) && id in hs
    ensures var p := Path(hs, root, id);
      && hs[id].height >= hs[root].height
      && |p| == hs[id].height - hs[root].height + 1
      && p[|p| - 1] == id
      && forall i: nat {:trigger PathEntry(hs, root, p, i)} | i < |p| :: PathEntry(hs, root, p, i)
    decreases hs[id].height
  {
    assert LinkedTo(hs, root, id);
    assert LinkedTo(hs, root, root);
    var p := Path(hs, root, id);
    if id == root {
      assert PathEntry(hs, root, p, 0);
    } else {
      var parent := hs[id].parentId;
      PathShape(hs, root, parent);
      var q := Path(hs, root, parent);
      forall i: nat | i < |p| ensures PathEntry(hs, root, p, i) {
        if i < |q| {
          assert PathEntry(hs, root, q, i);
        }
      }
    }
  }

  // The same, read off the entries.
  lemma PathMembers(hs: Headers, root: Id, id: Id)
    requires HeadersOk(hs, root) && id in hs
    ensures var p := Path(hs, root, id);
      && hs[id].height >= hs[root].height
      && |p| == hs[id].height - hs[root].height + 1
      && p[0] == root && p[|p| - 1] == id
      && forall i | 0 <= i < |p| :: p[i] in hs && hs[p[i]].id == p[i] && hs[p[i]].height == hs[root].height + i
  {
    PathShape(hs, root, id);
    var p := Path(hs, root, id);
    forall i: nat | i < |p|
      ensures p[i] in hs && hs[p[i]].id == p[i] && hs[p[i]].height == hs[root].height + i && (i == 0 ==> p[i] == root)
    {
      assert PathEntry(hs, root, p, i);
    }
  }

  // Prefixes of a path are paths.
  lemma {:induction false} PathPrefix(hs: Headers, root: Id, id: Id, i: nat)
    requires HeadersOk(hs, root) && id in hs && i < |Path(hs, root, id)|
    ensures var a := Path(hs, root, id)[i]; a in hs && Path(hs, root, id)[..i + 1] == Path(hs, root, a)
    decreases hs[id].height
  {
    PathShape(hs, root, id);
    assert LinkedTo(hs, root, id);
    var p := Path(hs, root, id);
    if i == |p| - 1 {
      assert p[..i + 1] == p;
    } else {
      PathPrefix(hs, root, hs[id].parentId, i);
      assert p[..i + 1] == Path(hs, root, hs[id].parentId)[..i + 1];
    }
  }

  // Headers are only added.
  ghost predicate Extends(hs: Headers, hs': Headers) {
    forall id | id in hs :: id in hs' && hs'[id] == hs[id]
  }

  lemma {:induction false} PathFrame(hs: Headers, hs': Headers, root: Id, id: Id)
    requires HeadersOk(hs, root) && HeadersOk(hs', root) && Extends(hs, hs') && id in hs
    ensures Path(hs', root, id) == Path(hs, root, id)
    decreases hs[id].height
  {
    assert LinkedTo(hs, root, id);
    assert LinkedTo(hs', root, id);
    if id != root {
      PathFrame(hs, hs', root, hs[id].parentId);
    }
  }

  // The work of the headers with these ids, added up.
  ghost function TotalWork(hs: Headers, ids: seq<Id>): nat
    requires forall id | id in ids :: id in hs
  {
    if ids == [] then 0 else TotalWork(hs, ids[..|ids| - 1]) + hs[ids[|ids| - 1]].work
  }

  /** The cumulative work of a header is the work of all headers from the root up to it. */
  lemma {:induction false} CumulativeIsTotal(hs: Headers, root: Id, id: Id)
    requires HeadersOk(hs, root) && id in hs
    ensures forall x | x in Path(hs, root, id) :: x in hs
    ensures hs[id].cumulativeWork == TotalWork(hs, Path(hs, root, id))
    decreases hs[id].height
  {
    PathMembers(hs, root, id);
    assert LinkedTo(hs, root, id);
    var p := Path(hs, root, id);
    if id == root {
      assert p[..0] == [];
    } else {
      CumulativeIsTotal(hs, root, hs[id].parentId);
      assert p[..|p| - 1] == Path(hs, root, hs[id].parentId);
    }
  }

  /* ---------- common ancestors ---------- */

  function CommonPrefix(p: seq<Id>, q: seq<Id>): (n: nat)
    ensures n <= |p| && n <= |q| && p[..n] == q[..n]
    ensures n < |p| && n < |q| ==> p[n] != q[n]
  {
    if p == [] || q == [] || p[0] != q[0] then 0
    else
      var n := 1 + CommonPrefix(p[1..], q[1..]);
      assert p[..n] == [p[0]] + p[1..][..n - 1] && q[..n] == [q[0]] + q[1..][..n - 1];
      n
  }

  // Two paths of one tree agree exactly up to the last common ancestor.
  lemma SharedIsPrefix(hs: Headers, root: Id, a: Id, b: Id, i: nat, j: nat)
    requires HeadersOk(hs, root) && a in hs && b in hs
    requires i < |Path(hs, root, a)| && j < |Path(hs, root, b)|
    requires Path(hs, root, a)[i] == Path(hs, root, b)[j]
    ensures i == j < CommonPrefix(Path(hs, root, a), Path(hs, root, b))
  {
    var p, q := Path(hs, root, a), Path(hs, root, b);
    PathShape(hs, root, a);
    PathShape(hs, root, b);
    assert PathEntry(hs, root, p, i) && PathEntry(hs, root, q, j);
    PathPrefix(hs, root, a, i);
    PathPrefix(hs, root, b, j);
    forall k | 0 <= k <= i ensures p[k] == q[k] {
      assert p[k] == p[..i + 1][k] == q[..i + 1][k] == q[k];
    }
  }

  // The height of the last common ancestor of two headers.
  ghost function CommonHeight(t: Tree, a: Id, b: Id): (h: nat)
    requires HeadersOk(t.headers, t.root) && a in t.headers && b in t.headers
    ensures t.headers[t.root].height <= h <= t.headers[a].height && h <= t.headers[b].height
  {
    var p, q := Path(t.headers, t.root, a), Path(t.headers, t.root, b);
    PathShape(t.headers, t.root, a);
    PathShape(t.headers, t.root, b);
    assert PathEntry(t.headers, t.root, p, 0) && PathEntry(t.headers, t.root, q, 0);
    SharedIsPrefix(t.headers, t.root, a, b, 0, 0);
    t.headers[t.root].height + CommonPrefix(p, q) - 1
  }

  /** The common height is that of the highest header on both paths. */
  lemma CommonIsHighestShared(t: Tree, a: Id, b: Id)
    requires HeadersOk(t.headers, t.root) && a in t.headers && b in t.headers
    ensures var p, q, h := Path(t.headers, t.root, a), Path(t.headers, t.root, b), CommonHeight(t, a, b);
      && (forall x | x in p && x in q :: x in t.headers && t.headers[x].height <= h)
      && exists x :: x in p && x in q && x in t.headers && t.headers[x].height == h
  {
    var p, q := Path(t.headers, t.root, a), Path(t.headers, t.root, b);
    PathMembers(t.headers, t.root, a);
    PathMembers(t.headers, t.root, b);
    hide HeadersOk, Path;
    var n, h := CommonPrefix(p, q), CommonHeight(t, a, b);
    forall x | x in p && x in q ensures x in t.headers && t.headers[x].height <= h {
      var i :| 0 <= i < |p| && p[i] == x;
      var j :| 0 <= j < |q| && q[j] == x;
      SharedIsPrefix(t.headers, t.root, a, b, i, j);
    }
    assert p[n - 1] == p[..n][n - 1] == q[..n][n - 1] == q[n - 1];
    assert t.headers[p[n - 1]].height == h;
  }

  lemma CommonPrefixOfExtension(p: seq<Id>, q: seq<Id>)
    requires p <= q
    ensures CommonPrefix(p, q) == |p|
  {
  }

  // A header shares everything with itself and with its child.
  lemma CommonWithDescendant(t: Tree, a: Id, b: Id)
    requires HeadersOk(t.headers, t.root) && a in t.headers && b in t.headers
    requires a == b || (b != t.root && t.headers[b].parentId == a)
    ensures CommonHeight(t, a, b) == t.headers[a].height
  {
    PathShape(t.headers, t.root, a);
    assert LinkedTo(t.headers, t.root, b);
    CommonPrefixOfExtension(Path(t.headers, t.root, a), Path(t.headers, t.root, b));
  }

  // The id the root claims as its parent, when some followed header has it. For real headers that
  // would be a cycle of hashes.
  ghost predicate RootParentFollowed(t: Tree)
    requires TreeOk(t)
  {
    t.headers[t.root].parentId in t.headers
  }

  // The parent of the root does not lead further up branch `a` than `b` does.
  ghost predicate RootParentHarmless(t: Tree, a: Id, b: Id)
    requires TreeOk(t) && a in t.headers && b in t.headers
  {
    RootParentFollowed(t) ==> CommonHeight(t, a, t.headers[t.root].parentId) <= CommonHeight(t, a, b)
  }

  lemma DepthIsRightIff(t: Tree, a: Id, b: Id, depth: nat)
    requires TreeOk(t) && a in t.headers && b in t.headers
    requires t.headers[a].height - depth ==
             if RootParentFollowed(t) then Max(CommonHeight(t, a, b), CommonHeight(t, a, t.headers[t.root].parentId))
             else CommonHeight(t, a, b)
    ensures CommonHeight(t, a, b) == t.headers[a].height - depth <==> RootParentHarmless(t, a, b)
  {
  }

  // How many blocks of the old best chain an answer says are gone.
  function Undone(res: Result<Ingest, FollowError>): nat {
    match res
    case Ok(Reorg(depth)) => depth
    case _ => 0
  }

  /* ---------- fork choice: heaviest, first seen ---------- */

  // `tip` has the most cumulative work, and strictly more than everything accepted before it.
  ghost predicate HeaviestFirstSeen(hs: Headers, seen: seq<Id>, tip: Id) {
    && (forall id | id in seen :: id in hs)
    && exists i :: 0 <= i < |seen| && seen[i] == tip && FirstMax(hs, seen, i)
  }

  ghost predicate FirstMax(hs: Headers, seen: seq<Id>, i: nat)
    requires i < |seen| && forall id | id in seen :: id in hs
  {
    forall j | 0 <= j < |seen| ::
      if j < i then hs[seen[j]].cumulativeWork < hs[seen[i]].cumulativeWork
      else hs[seen[j]].cumulativeWork <= hs[seen[i]].cumulativeWork
  }

  /** The best tip is determined by the headers and the order in which they were accepted. */
  lemma HeaviestFirstSeenIsUnique(hs: Headers, seen: seq<Id>, a: Id, b: Id)
    requires HeaviestFirstSeen(hs, seen, a) && HeaviestFirstSeen(hs, seen, b)
    ensures a == b
  {
    var i :| 0 <= i < |seen| && seen[i] == a && FirstMax(hs, seen, i);
    var j :| 0 <= j < |seen| && seen[j] == b && FirstMax(hs, seen, j);
  }

  // The heaviest tip once `h` is added, ties keeping the incumbent.
  function NewTip(hs: Headers, tip: Option<Id>, h: FollowedHeader): Id
    requires tip.Some? ==> tip.value in hs
  {
    if tip.None? || h.cumulativeWork > hs[tip.value].cumulativeWork then h.id else tip.value
  }

  lemma HeaviestStep(hs: Headers, seen: seq<Id>, tip: Id, h: FollowedHeader)
    requires HeaviestFirstSeen(hs, seen, tip) && h.id !in hs
    ensures HeaviestFirstSeen(hs[h.id := h], seen + [h.id], NewTip(hs, Some(tip), h))
  {
    var i :| 0 <= i < |seen| && seen[i] == tip && FirstMax(hs, seen, i);
    var hs', seen' := hs[h.id := h], seen + [h.id];
    if h.cumulativeWork > hs[tip].cumulativeWork {
      assert seen'[|seen|] == h.id && FirstMax(hs', seen', |seen|);
    } else {
      assert seen'[i] == tip && FirstMax(hs', seen', i);
    }
  }

  // What a follower holds between calls: a tree of the accepted headers with its first-seen best tip.
  ghost predicate Follows(hs: Headers, tip: Option<Id>, seen: seq<Id>, expectedRoot: Option<Id>) {
    if tip.None? then hs == map[] && seen == []
    else
      && seen != []
      && TreeOk(Tree(hs, seen[0], tip.value))
      && Distinct(seen) && Elems(seen) == hs.Keys
      && HeaviestFirstSeen(hs, seen, tip.value)
      && (expectedRoot.Some? ==> seen[0] == expectedRoot.value)
      && forall id | id in hs :: hs[id].height <= U32_MAX
  }

  // Heights are 32 bit: one above the last height is zero again.
  function NextHeight(height: nat): nat {
    (height + 1) % (U32_MAX + 1)
  }

  // A first header is the expected root; any other one extends a followed header.
  predicate Fits(hs: Headers, expectedRoot: Option<Id>, h: FollowedHeader) {
    && h.id !in hs && h.height <= U32_MAX
    && if hs == map[] then h.cumulativeWork == h.work && (expectedRoot.Some? ==> h.id == expectedRoot.value)
       else
         && h.parentId in hs
         && h.height == NextHeight(hs[h.parentId].height)
         && h.cumulativeWork == hs[h.parentId].cumulativeWork + h.work
  }

  lemma FollowsFirst(h: FollowedHeader, expectedRoot: Option<Id>)
    requires Fits(map[], expectedRoot, h)
    ensures Follows(map[h.id := h], Some(h.id), [h.id], expectedRoot) && TreeOk(Tree(map[h.id := h], h.id, h.id))
  {
    var hs: Headers := map[h.id := h];
    assert LinkedTo(hs, h.id, h.id);
    assert [h.id][0] == h.id && FirstMax(hs, [h.id], 0);
  }

  lemma FollowsMore(hs: Headers, tip: Id, seen: seq<Id>, expectedRoot: Option<Id>, h: FollowedHeader)
    requires Follows(hs, Some(tip), seen, expectedRoot) && Fits(hs, expectedRoot, h)
    requires hs[h.parentId].height < U32_MAX
    ensures Follows(hs[h.id := h], Some(NewTip(hs, Some(tip), h)), seen + [h.id], expectedRoot)
    ensures TreeOk(Tree(hs, seen[0], tip)) && HeadersOk(hs[h.id := h], seen[0]) && Extends(hs, hs[h.id := h])
  {
    HeadersOkPush(hs, seen[0], h);
    HeaviestStep(hs, seen, tip, h);
    FreshAppend(seen, {}, h.id);
    hide HeadersOk, HeaviestFirstSeen, Distinct, Extends;
    assert Elems(seen + [h.id]) == Elems(seen) + {h.id};
  }

  lemma HeadersOkPush(hs: Headers, root: Id, h: FollowedHeader)
    requires HeadersOk(hs, root) && h.id !in hs && h.parentId in hs
    requires h.height == hs[h.parentId].height + 1 && h.cumulativeWork == hs[h.parentId].cumulativeWork + h.work
    ensures HeadersOk(hs[h.id := h], root) && Extends(hs, hs[h.id := h])
  {
    var hs' := hs[h.id := h];
    PathShape(hs, root, h.parentId);
    forall id | id in hs' ensures LinkedTo(hs', root, id) {
      assert id != h.id ==> LinkedTo(hs, root, id);
    }
  }

  /* ---------- the settled view ---------- */

  datatype SettledView = SettledView(heightsById: map<Id, nat>, levelsAsc: seq<(nat, nat)>, hRef: nat)
  {
    function HeightOf(id: Id): Option<nat> {
      if id in heightsById then Some(heightsById[id]) else None
    }

    function RootHeight(): nat {
      if levelsAsc == [] then 0 else levelsAsc[0].0
    }

    function LevelsAbove(heightExcl: nat): seq<nat> {
      LevelsIn(levelsAsc, heightExcl)
    }
  }

  function LevelsIn(rows: seq<(nat, nat)>, heightExcl: nat): seq<nat> {
    if rows == [] then [] else (if rows[0].0 > heightExcl then [rows[0].1] else []) + LevelsIn(rows[1..], heightExcl)
  }

  // Membership and levels of exactly these headers.
  ghost function ViewOf(hs: Headers, ids: seq<Id>, hRef: nat): SettledView
    requires forall id | id in ids :: id in hs
  {
    SettledView(HeightsOf(hs, ids), Rows(hs, ids), hRef)
  }

  ghost function HeightsOf(hs: Headers, ids: seq<Id>): map<Id, nat>
    requires forall id | id in ids :: id in hs
  {
    map id | id in ids :: hs[id].height
  }

  lemma ViewFrame(hs: Headers, hs': Headers, ids: seq<Id>, hRef: nat)
    requires Extends(hs, hs') && forall id | id in ids :: id in hs
    ensures ViewOf(hs', ids, hRef) == ViewOf(hs, ids, hRef)
  {
    assert HeightsOf(hs', ids) == HeightsOf(hs, ids);
    assert Rows(hs', ids) == Rows(hs, ids);
  }

  lemma ViewPush(hs: Headers, ids: seq<Id>, k: nat)
    requires k < |ids| && forall id | id in ids :: id in hs
    ensures HeightsOf(hs, ids[k..]) == HeightsOf(hs, ids[k + 1..])[ids[k] := hs[ids[k]].height]
    ensures Rows(hs, ids[k..]) == [(hs[ids[k]].height, hs[ids[k]].level)] + Rows(hs, ids[k + 1..])
  {
    assert ids[k..] == [ids[k]] + ids[k + 1..];
  }

  ghost function Rows(hs: Headers, ids: seq<Id>): seq<(nat, nat)>
    requires forall id | id in ids :: id in hs
  {
    seq(|ids|, i requires 0 <= i < |ids| => (hs[ids[i]].height, hs[ids[i]].level))
  }

  ghost predicate Reaches(t: Tree, h: nat)
    requires TreeOk(t)
  {
    t.headers[t.root].height <= h <= t.headers[t.tip].height
  }

  // The best chain from the root up to height h.
  ghost function SettledIds(t: Tree, h: nat): (ids: seq<Id>)
    requires TreeOk(t) && Reaches(t, h)
    ensures |ids| == h - t.headers[t.root].height + 1
    ensures forall id | id in ids :: id in t.headers
  {
    PathMembers(t.headers, t.root, t.tip);
    var p := Path(t.headers, t.root, t.tip);
    p[..h - t.headers[t.root].height + 1]
  }

  /** The settled view exists exactly for heights between the root and the tip, and then holds
      exactly the tip's ancestors from the root up to that height. */
  ghost function Settled(t: Tree, h: nat): Option<SettledView>
    requires TreeOk(t)
  {
    if Reaches(t, h) then Some(ViewOf(t.headers, SettledIds(t, h), h)) else None
  }

  function Levels(rows: seq<(nat, nat)>): seq<nat> {
    seq(|rows|, i requires 0 <= i < |rows| => rows[i].1)
  }

  // In rows of consecutive heights, those above a height are a suffix.
  lemma {:induction false} LevelsInSuffix(rows: seq<(nat, nat)>, first: nat, heightExcl: nat)
    requires forall i | 0 <= i < |rows| :: rows[i].0 == first + i
    ensures var skip := if heightExcl < first then 0 else Min(heightExcl - first + 1, |rows|);
      LevelsIn(rows, heightExcl) == Levels(rows[skip..])
  {
    if rows != [] {
      var rest := rows[1..];
      forall i | 0 <= i < |rest| ensures rest[i].0 == first + 1 + i {
        assert rest[i] == rows[i + 1];
      }
      LevelsInSuffix(rest, first + 1, heightExcl);
      if heightExcl < first {
        assert rows[0..] == rows && rest[0..] == rest;
        assert Levels(rows) == [rows[0].1] + Levels(rest);
      } else {
        var skip := Min(heightExcl - first + 1, |rows|);
        assert rest[skip - 1..] == rows[skip..];
      }
    }
  }

  /** The queries of a settled view: membership gives the height of an ancestor of the tip and
      nothing else, the root height is the root's, and the levels strictly above a member are
      those of the rest of the chain, in order. */
  lemma SettledQueries(t: Tree, h: nat, id: Id)
    requires TreeOk(t) && Reaches(t, h)
    ensures var v, ids := Settled(t, h).value, SettledIds(t, h);
      && v.RootHeight() == t.headers[t.root].height
      && |ids| == |v.levelsAsc| == h - v.RootHeight() + 1
      && (v.HeightOf(id).Some? <==> id in ids)
      && (v.HeightOf(id).Some? ==>
            var k := v.HeightOf(id).value - v.RootHeight();
            && 0 <= k < |ids| && ids[k] == id
            && v.LevelsAbove(v.HeightOf(id).value) == Levels(Rows(t.headers, ids)[k + 1..]))
  {
    var v, ids := Settled(t, h).value, SettledIds(t, h);
    PathMembers(t.headers, t.root, t.tip);
    var p := Path(t.headers, t.root, t.tip);
    assert ids[0] == p[0];
    if id in ids {
      var k :| 0 <= k < |ids| && ids[k] == id;
      assert ids[k] == p[k];
      LevelsInSuffix(v.levelsAsc, t.headers[t.root].height, v.HeightOf(id).value);
    }
  }

  /* ---------- the follower ---------- */

  // Stops of a walk: the ids above the first one shared with `known`.
  lemma CommonIsFirstKnown(hs: Headers, root: Id, a: Id, b: Id, k: nat)
    requires HeadersOk(hs, root) && a in hs && b in hs
    requires k < |Path(hs, root, a)|
    ensures Path(hs, root, a)[k] in Path(hs, root, b) <==> k < CommonPrefix(Path(hs, root, a), Path(hs, root, b))
  {
    var p, q := Path(hs, root, a), Path(hs, root, b);
    var n := CommonPrefix(p, q);
    if k < n {
      assert p[k] == p[..n][k] == q[..n][k] == q[k];
    }
    if p[k] in q {
      var j :| 0 <= j < |q| && q[j] == p[k];
      SharedIsPrefix(hs, root, a, b, k, j);
    }
  }

  // The ids of the path of the root's parent, if it is followed.
  ghost function RootParentPath(t: Tree): set<Id>
    requires TreeOk(t)
  {
    if RootParentFollowed(t) then Elems(Path(t.headers, t.root, t.headers[t.root].parentId)) else {}
  }

  // A walk towards the root: first down the tip's path, then down that of the root's parent.
  // `at` entries of the current path are still ahead, the last of them under the cursor.
  ghost predicate Walking(t: Tree, tip: Id, first: bool, at: nat, cur: Option<Id>, ancestors: set<Id>)
    requires TreeOk(t) && tip in t.headers
  {
    var p := Path(t.headers, t.root, tip);
    if first then 0 < at <= |p| && cur == Some(p[at - 1]) && ancestors == Elems(p[at..])
    else if !RootParentFollowed(t) then cur == None && ancestors == Elems(p)
    else
      var q := Path(t.headers, t.root, t.headers[t.root].parentId);
      0 < at <= |q| && cur == Some(q[at - 1]) && ancestors == Elems(p) + Elems(q[at..])
  }

  lemma WalkStep(t: Tree, tip: Id, first: bool, at: nat, id: Id, ancestors: set<Id>)
    requires TreeOk(t) && tip in t.headers && Walking(t, tip, first, at, Some(id), ancestors) && id !in ancestors
    ensures id in t.headers
    ensures var next := t.headers[id].parentId;
      var cur := if next in t.headers then Some(next) else None;
      if first && at == 1
      then Walking(t, tip, false,
                   if RootParentFollowed(t) then |Path(t.headers, t.root, t.headers[t.root].parentId)| else 0,
                   cur, ancestors + {id})
      else at > 1 && Walking(t, tip, first, at - 1, cur, ancestors + {id})
  {
    var p := Path(t.headers, t.root, tip);
    PathMembers(t.headers, t.root, tip);
    if first {
      PathShape(t.headers, t.root, tip);
      assert PathEntry(t.headers, t.root, p, at - 1);
      assert p[at - 1..] == [p[at - 1]] + p[at..];
      assert at == 1 ==> p[0..] == p;
      if at == 1 && RootParentFollowed(t) {
        var q := Path(t.headers, t.root, t.headers[t.root].parentId);
        PathMembers(t.headers, t.root, t.headers[t.root].parentId);
        assert q[|q|..] == [];
      }
    } else {
      var q := Path(t.headers, t.root, t.headers[t.root].parentId);
      PathShape(t.headers, t.root, t.headers[t.root].parentId);
      PathMembers(t.headers, t.root, t.headers[t.root].parentId);
      assert PathEntry(t.headers, t.root, q, at - 1);
      assert p[0] == t.root && q[0] == t.root;
      assert q[at - 1..] == [q[at - 1]] + q[at..];
    }
  }

  lemma SharedElems(p: seq<Id>, q: seq<Id>, n: nat, at: nat)
    requires at <= n && n <= |p| && n <= |q| && p[..n] == q[..n]
    ensures Elems(p) + Elems(q[at..]) == Elems(p) + Elems(q)
  {
    forall x | x in Elems(q) ensures x in Elems(p) + Elems(q[at..]) {
      var i :| 0 <= i < |q| && q[i] == x;
      if i < at {
        assert p[i] == p[..n][i] == q[..n][i];
      } else {
        assert q[at..][i - at] == x;
      }
    }
  }

  lemma NotFurtherUp(t: Tree, b: Id, at: nat)
    requires TreeOk(t) && b in t.headers && 0 < at <= |Path(t.headers, t.root, b)|
    ensures Path(t.headers, t.root, b)[at - 1] !in Path(t.headers, t.root, b)[at..]
  {
    PathMembers(t.headers, t.root, b);
  }

  // Where a path meets another one, the rest of the way down is shared.
  lemma MeetingPaths(t: Tree, a: Id, b: Id, at: nat)
    requires TreeOk(t) && a in t.headers && b in t.headers && 0 < at <= |Path(t.headers, t.root, b)|
    requires var p, q := Path(t.headers, t.root, a), Path(t.headers, t.root, b);
      q[at - 1] in Elems(p) + Elems(q[at..])
    ensures var p, q := Path(t.headers, t.root, a), Path(t.headers, t.root, b);
      Elems(p) + Elems(q[at..]) == Elems(p) + Elems(q)
  {
    var p, q := Path(t.headers, t.root, a), Path(t.headers, t.root, b);
    hide HeadersOk, Path, CommonPrefix;
    NotFurtherUp(t, b, at);
    var j :| 0 <= j < |p| && p[j] == q[at - 1];
    SharedIsPrefix(t.headers, t.root, a, b, j, at - 1);
    SharedElems(p, q, CommonPrefix(p, q), at);
  }

  lemma WalkDone(t: Tree, tip: Id, first: bool, at: nat, cur: Option<Id>, ancestors: set<Id>)
    requires TreeOk(t) && tip in t.headers && Walking(t, tip, first, at, cur, ancestors)
    requires cur.None? || cur.value in ancestors
    ensures ancestors == Elems(Path(t.headers, t.root, tip)) + RootParentPath(t) && t.root in ancestors
  {
    var p := Path(t.headers, t.root, tip);
    PathMembers(t.headers, t.root, tip);
    assert p[0] in Elems(p);
    assert !first;
    if RootParentFollowed(t) {
      MeetingPaths(t, tip, t.headers[t.root].parentId, at);
    }
  }

  // The highest entry of a's path below b or below the root's parent.
  lemma FirstShared(t: Tree, a: Id, b: Id, known: set<Id>, k: nat)
    requires TreeOk(t) && a in t.headers && b in t.headers
    requires known == Elems(Path(t.headers, t.root, b)) + RootParentPath(t)
    requires var p := Path(t.headers, t.root, a);
      k < |p| && p[k] in known && forall i | k < i < |p| :: p[i] !in known
    ensures t.headers[t.root].height + k ==
            if RootParentFollowed(t) then Max(CommonHeight(t, a, b), CommonHeight(t, a, t.headers[t.root].parentId))
            else CommonHeight(t, a, b)
  {
    var p := Path(t.headers, t.root, a);
    forall i | k <= i < |p|
      ensures p[i] in known <==>
              i < CommonPrefix(p, Path(t.headers, t.root, b)) ||
              (RootParentFollowed(t) && i < CommonPrefix(p, Path(t.headers, t.root, t.headers[t.root].parentId)))
    {
      CommonIsFirstKnown(t.headers, t.root, a, b, i);
      if RootParentFollowed(t) {
        CommonIsFirstKnown(t.headers, t.root, a, t.headers[t.root].parentId, i);
      }
    }
    assert k + 1 < |p| ==> p[k + 1] !in known;
  }

  /* ---------- one call, as a step between trees ---------- */

  // The tree grows, and the tip may move.
  ghost predicate HeaderStep(t: Tree, t': Tree) {
    TreeOk(t) && TreeOk(t') && t'.root == t.root && Extends(t.headers, t'.headers)
  }

  // The height of the last header shared by the best chains before and after.
  ghost function ForkHeight(t: Tree, t': Tree): nat
    requires HeaderStep(t, t')
  {
    CommonHeight(t', t.tip, t'.tip)
  }

  // The answer tells how much of the old best chain is gone.
  ghost predicate DepthIsRight(t: Tree, t': Tree, res: Result<Ingest, FollowError>)
    requires HeaderStep(t, t')
  {
    ForkHeight(t, t') == t'.headers[t.tip].height - Undone(res)
  }

  // One call: the tree before it (none before the first header), the answer, the tree after it.
  datatype Call = Call(before: Option<Tree>, answer: Result<Ingest, FollowError>, after: Option<Tree>)
  {
    ghost predicate StepOk() {
      if before.None? then (after.Some? <==> answer == Ok(IsRoot)) && (after.Some? ==> TreeOk(after.value))
      else
        && after.Some?
        && HeaderStep(before.value, after.value)
        && (DepthIsRight(before.value, after.value, answer) <==>
            answer.Ok? && answer.value.Reorg? ==> RootParentHarmless(after.value, before.value.tip, after.value.tip))
    }
  }

  ghost predicate CallAt(history: seq<Call>, i: nat)
    requires i < |history|
  {
    history[i].StepOk() && history[i].before == TreeAfter(history, i)
  }

  // The tree after the first i calls.
  ghost function TreeAfter(history: seq<Call>, i: nat): Option<Tree>
    requires i <= |history|
  {
    if i == 0 then None else history[i - 1].after
  }

  // Calls that follow one another, from the empty follower on.
  ghost predicate HistoryOk(history: seq<Call>) {
    forall i: nat {:trigger CallAt(history, i)} | i < |history| :: CallAt(history, i)
  }

  lemma HistoryPush(history: seq<Call>, call: Call)
    requires HistoryOk(history) && call.StepOk() && call.before == TreeAfter(history, |history|)
    ensures HistoryOk(history + [call]) && TreeAfter(history + [call], |history| + 1) == call.after
  {
    var more := history + [call];
    forall i: nat | i < |more| ensures CallAt(more, i) {
      if i < |history| {
        assert CallAt(history, i);
      }
    }
  }

  lemma NoMoveIsOk(t: Option<Tree>, res: Result<Ingest, FollowError>)
    requires t.Some? ==> TreeOk(t.value)
    requires res.Ok? ==> !res.value.Reorg? && !res.value.IsRoot?
    ensures Call(t, res, t).StepOk()
  {
    if t.Some? {
      CommonWithDescendant(t.value, t.value.tip, t.value.tip);
    }
  }

  // A new child of the last height passes the check by wrapping around to height zero. From then on
  // heights say nothing about positions, and nothing is promised of the follower.
  predicate Wraps(hs: Headers, id: Id, parentId: Id, height: nat) {
    id !in hs && parentId in hs && hs[parentId].height == U32_MAX && height == 0
  }

  // The same headers with the same parents.
  ghost predicate SameLinks(hs: Headers, hs': Headers) {
    hs.Keys == hs'.Keys && forall id | id in hs :: hs[id].parentId == hs'[id].parentId
  }

  // What the answer to an accepted header says about the tip.
  ghost predicate Answered(hs: Headers, tip: Option<Id>, h: FollowedHeader, res: Ingest, tip': Option<Id>)
    requires tip.Some? ==> tip.value in hs
  {
    && tip' == Some(NewTip(hs, tip, h))
    && !res.Duplicate?
    && (res == IsRoot <==> tip.None?)
    && (res == SideBranch <==> tip.Some? && tip' == tip)
    && (res == Extended <==> tip == Some(h.parentId) && tip' == Some(h.id))
  }

  /** The answer to a verified header: the exact condition of each refusal, which changes nothing;
      otherwise the header joins its parent's branch and the heaviest tip wins. */
  ghost predicate Folded(hs: Headers, tip: Option<Id>, expectedRoot: Option<Id>, id: Id, parentId: Id, height: nat,
                         work: nat, level: nat, res: Result<Ingest, FollowError>, hs': Headers, tip': Option<Id>)
  {
    && (res == Ok(Duplicate) <==> id in hs)
    && (res == Err(RootMismatch) <==> hs == map[] && expectedRoot.Some? && expectedRoot.value != id)
    && (res == Err(UnknownParent) <==> hs != map[] && id !in hs && parentId !in hs)
    && (id !in hs && parentId in hs && height != (hs[parentId].height + 1) % 0x1_0000_0000 <==>
          res.Err? && res.error.HeightGap?)
    && (res.Err? && res.error.HeightGap? ==> res.error == HeightGap(hs[parentId].height, height))
    && (res.Err? ==> res.error.RootMismatch? || res.error.UnknownParent? || res.error.HeightGap?)
    && if res.Err? || res.value.Duplicate? then hs' == hs && tip' == tip
       else
         && (tip.Some? ==> tip.value in hs)
         && (hs != map[] ==> parentId in hs)
         && var below := if hs == map[] then 0 else hs[parentId].cumulativeWork;
            var h := FollowedHeader(id, parentId, height, work, below + work, level);
            hs' == hs[id := h] && Answered(hs, tip, h, res.value, tip')
  }

  lemma FirstIsOk(t: Tree)
    requires TreeOk(t)
    ensures Call(None, Ok(IsRoot), Some(t)).StepOk()
  {
  }

  class Follower {
    const nMint: nat
    const expectedRoot: Option<Id>
    var headers: Headers
    var bestTip: Option<Id>
    // The ids in the order they were accepted, and every call so far.
    ghost var seen: seq<Id>
    ghost var history: seq<Call>

    ghost predicate Valid()
      reads this
    {
      && Follows(headers, bestTip, seen, expectedRoot)
      && HistoryOk(history)
      && TreeAfter(history, |history|) == Current()
    }

    ghost function AsTree(): Tree
      requires bestTip.Some? && seen != []
      reads this
    {
      Tree(headers, seen[0], bestTip.value)
    }

    ghost function Current(): (t: Option<Tree>)
      reads this
    {
      if bestTip.None? || seen == [] then None else Some(AsTree())
    }

    constructor (nMint: nat, expectedRoot: Option<Id>)
      ensures Valid() && this.nMint == nMint && this.expectedRoot == expectedRoot
      ensures headers == map[] && bestTip == None && seen == [] && history == []
    {
      this.nMint := nMint;
      this.expectedRoot := expectedRoot;
      headers, bestTip, seen, history := map[], None, [], [];
    }

    /** The entry point: a header without work or bytes changes nothing, any other one is folded. Each
        call is a step of the history that settled views are judged over. */
    method ApplyHeader(h: ErgoHeader) returns (res: Result<Ingest, FollowError>)
      requires Valid() && h.height <= U32_MAX
      modifies this
      ensures old(bestTip).Some? ==> bestTip.Some?
      ensures res == Err(InvalidPow) <==> !h.powOk
      ensures res == Err(Serialize) <==> h.powOk && h.id.None?
      ensures !h.powOk || h.id.None? ==> headers == old(headers) && bestTip == old(bestTip) && seen == old(seen)
      ensures h.powOk && h.id.Some? ==>
                Folded(old(headers), old(bestTip), expectedRoot, h.id.value, h.parentId, h.height, h.work, h.level, res,
                       headers, bestTip)
      ensures h.powOk && h.id.Some? ==>
                seen == if res.Ok? && !res.value.Duplicate? then old(seen) + [h.id.value] else old(seen)
      ensures !(h.powOk && h.id.Some? && Wraps(old(headers), h.id.value, h.parentId, h.height)) ==>
                Valid() && history == old(history) + [Call(old(Current()), res, Current())]
    {
      hide Follows, HistoryOk, Call.StepOk;
      ghost var before := Current();
      CurrentIsOk();
      if !h.powOk {
        res := Err(InvalidPow);
        NoMoveIsOk(before, res);
      } else if h.id.None? {
        res := Err(Serialize);
        NoMoveIsOk(before, res);
      } else {
        res := ApplyVerifiedHeader(h.id.value, h.parentId, h.height, h.work, h.level);
      }
      if !(h.powOk && h.id.Some? && Wraps(old(headers), h.id.value, h.parentId, h.height)) {
        HistoryPush(history, Call(before, res, Current()));
        history := history + [Call(before, res, Current())];
      }
    }

    lemma CurrentIsOk()
      requires Follows(headers, bestTip, seen, expectedRoot)
      ensures bestTip.Some? ==> seen != [] && Current() == Some(AsTree()) && TreeOk(AsTree())
      ensures bestTip.None? ==> Current() == None && headers == map[] && seen == []
      ensures forall id | id in headers :: headers[id].height <= U32_MAX
    {
    }

    /** The answer to a header whose work was checked: the exact error conditions, the tip that results,
        and a step whose answer is right about the old best chain. */
    method ApplyVerifiedHeader(id: Id, parentId: Id, height: nat, work: nat, level: nat)
      returns (res: Result<Ingest, FollowError>)
      requires Follows(headers, bestTip, seen, expectedRoot) && height <= U32_MAX
      modifies `headers, `bestTip, `seen
      ensures Folded(old(headers), old(bestTip), expectedRoot, id, parentId, height, work, level, res, headers, bestTip)
      ensures seen == if res.Ok? && !res.value.Duplicate? then old(seen) + [id] else old(seen)
      ensures !Wraps(old(headers), id, parentId, height) ==>
                Follows(headers, bestTip, seen, expectedRoot) && Call(old(Current()), res, Current()).StepOk()
    {
      hide Follows, HeaviestFirstSeen, Distinct, Call.StepOk;
      CurrentIsOk();
      if id in headers {
        res := Ok(Duplicate);
        NoMoveIsOk(Current(), res);
        return;
      }
      var cumulative := work;
      if headers == map[] {
        if expectedRoot.Some? && id != expectedRoot.value {
          res := Err(RootMismatch);
          NoMoveIsOk(Current(), res);
          return;
        }
      } else {
        if parentId !in headers {
          res := Err(UnknownParent);
          NoMoveIsOk(Current(), res);
          return;
        }
        if height != NextHeight(headers[parentId].height) {
          res := Err(HeightGap(headers[parentId].height, height));
          NoMoveIsOk(Current(), res);
          return;
        }
        cumulative := headers[parentId].cumulativeWork + work;
      }
      var ingest := Insert(FollowedHeader(id, parentId, height, work, cumulative, level));
      res := Ok(ingest);
    }

    // Add a checked header and let the heaviest tip win, ties keeping the incumbent.
    method Insert(h: FollowedHeader) returns (res: Ingest)
      requires Follows(headers, bestTip, seen, expectedRoot) && Fits(headers, expectedRoot, h)
      modifies `headers, `bestTip, `seen
      ensures headers == old(headers)[h.id := h] && seen == old(seen) + [h.id]
      ensures Answered(old(headers), old(bestTip), h, res, bestTip)
      ensures !Wraps(old(headers), h.id, h.parentId, h.height) ==>
                Follows(headers, bestTip, seen, expectedRoot) && Call(old(Current()), Ok(res), Current()).StepOk()
    {
      hide Follows, Call.StepOk;
      CurrentIsOk();
      ghost var before := Current();
      match bestTip {
        case None =>
          FollowsFirst(h, expectedRoot);
          headers, bestTip, seen := map[h.id := h], Some(h.id), [h.id];
          FirstIsOk(Current().value);
          return IsRoot;
        case Some(oldTip) =>
          ghost var straight := headers[h.parentId].height + 1;
          HeadersOkPush(headers, seen[0], h.(height := straight));
          assert straight == NextHeight(headers[h.parentId].height) || Wraps(headers, h.id, h.parentId, h.height);
          if straight <= U32_MAX {
            FollowsMore(headers, oldTip, seen, expectedRoot, h);
          }
          headers, seen := headers[h.id := h], seen + [h.id];
          res := Choose(h, oldTip, before.value, straight);
      }
    }

    // The tip after `h` was added to the headers, and what the answer calls it. Links do not depend on
    // heights, so the walks see the tree in which `h` has the height it would have without wrapping.
    method Choose(h: FollowedHeader, oldTip: Id, ghost before: Tree, ghost straight: nat) returns (res: Ingest)
      requires bestTip == Some(oldTip) && before.tip == oldTip && seen != [] && seen[0] == before.root
      requires h.id !in before.headers && headers == before.headers[h.id := h] && h.parentId in before.headers
      requires TreeOk(before) && HeadersOk(before.headers[h.id := h.(height := straight)], before.root)
      requires h.id != seen[0]
      modifies `bestTip
      ensures bestTip == Some(NewTip(before.headers, Some(oldTip), h))
      ensures Answered(before.headers, Some(oldTip), h, res, bestTip)
      ensures h.height == straight ==> Call(Some(before), Ok(res), Some(AsTree())).StepOk()
    {
      hide HeadersOk, CommonHeight, RootParentHarmless, RootParentFollowed;
      ghost var hs := before.headers[h.id := h.(height := straight)];
      assert h.height == straight ==> hs == headers;
      if h.cumulativeWork > headers[oldTip].cumulativeWork {
        bestTip := Some(h.id);
        ghost var t := Tree(hs, before.root, h.id);
        if h.parentId == oldTip {
          CommonWithDescendant(t, oldTip, h.id);
          return Extended;
        }
        var depth := ReorgDepth(oldTip, h.id, t);
        DepthIsRightIff(t, oldTip, h.id, depth);
        return Reorg(depth);
      }
      CommonWithDescendant(Tree(hs, before.root, oldTip), oldTip, oldTip);
      return SideBranch;
    }

    /** Blocks of the old branch above its last header that is also below the new tip, or below the
        root's parent when that is followed: the common ancestor exactly when that parent is harmless. */
    method ReorgDepth(oldTip: Id, newTip: Id, ghost t: Tree) returns (depth: nat)
      requires TreeOk(t) && SameLinks(headers, t.headers) && oldTip in headers && newTip in headers
      ensures t.headers[oldTip].height - depth ==
              if RootParentFollowed(t)
              then Max(CommonHeight(t, oldTip, newTip), CommonHeight(t, oldTip, t.headers[t.root].parentId))
              else CommonHeight(t, oldTip, newTip)
    {
      var ancestors := AncestorsOf(newTip, t);
      ghost var hs, root := t.headers, t.root;
      ghost var p := Path(hs, root, oldTip);
      PathMembers(hs, root, oldTip);
      PathMembers(hs, root, newTip);
      depth := 0;
      var node := oldTip;
      while node !in ancestors
        invariant depth < |p| && node == p[|p| - 1 - depth]
        invariant forall k | |p| - depth <= k < |p| :: p[k] !in ancestors
        decreases |p| - depth
      {
        PathShape(hs, root, oldTip);
        assert PathEntry(hs, root, p, |p| - 1 - depth);
        depth := depth + 1;
        node := headers[node].parentId;
      }
      FirstShared(t, oldTip, newTip, ancestors, |p| - 1 - depth);
    }

    // Every id met on the way down from `tip` and, past the root, from the root's parent.
    method AncestorsOf(tip: Id, ghost t: Tree) returns (ancestors: set<Id>)
      requires TreeOk(t) && SameLinks(headers, t.headers) && tip in headers
      ensures ancestors == Elems(Path(t.headers, t.root, tip)) + RootParentPath(t)
      ensures t.root in ancestors
    {
      PathMembers(t.headers, t.root, tip);
      ancestors := {};
      var cur := Some(tip);
      ghost var at: nat := |Path(t.headers, t.root, tip)|;
      ghost var first := true;
      assert Elems(Path(t.headers, t.root, tip)[at..]) == {};
      while cur.Some? && cur.value !in ancestors
        invariant ancestors <= headers.Keys && Walking(t, tip, first, at, cur, ancestors)
        decreases headers.Keys - ancestors
      {
        WalkStep(t, tip, first, at, cur.value, ancestors);
        if first && at == 1 {
          first := false;
          at := if RootParentFollowed(t) then |Path(t.headers, t.root, t.headers[t.root].parentId)| else 0;
        } else {
          at := at - 1;
        }
        ancestors := ancestors + {cur.value};
        var next := headers[cur.value].parentId;
        cur := if next in headers then Some(next) else None;
      }
      WalkDone(t, tip, first, at, cur, ancestors);
    }

    /** The best-chain header nMint below the tip, when the tree is that deep. */
    method SettledReference() returns (res: Option<SettledRef>)
      requires Valid()
      ensures res.Some? <==> bestTip.Some? && headers[bestTip.value].height >= nMint
                             && headers[bestTip.value].height - nMint >= headers[seen[0]].height
      ensures res.Some? ==>
                var ids := SettledIds(AsTree(), headers[bestTip.value].height - nMint);
                res.value.id == ids[|ids| - 1] && res.value.height == headers[bestTip.value].height - nMint
                && res.value.id in headers && res.value.cumulativeWork == headers[res.value.id].cumulativeWork
    {
      if bestTip.None? {
        return None;
      }
      var tip := headers[bestTip.value];
      if tip.height < nMint {
        return None;
      }
      var cur := WalkDown(tip.height - nMint);
      match cur {
        case None => return None;
        case Some(h) => return Some(SettledRef(h.id, h.height, h.cumulativeWork));
      }
    }

    // The best-chain header at a height, walking down from the tip.
    method WalkDown(target: nat) returns (res: Option<FollowedHeader>)
      requires bestTip.Some? && seen != [] && TreeOk(AsTree()) && target <= headers[bestTip.value].height
      ensures res.Some? <==> Reaches(AsTree(), target)
      ensures res.Some? ==>
                var ids := SettledIds(AsTree(), target);
                ids[|ids| - 1] in headers && res.value == headers[ids[|ids| - 1]] && res.value.id == ids[|ids| - 1]
                && res.value.height == target
    {
      ghost var root := seen[0];
      ghost var p := Path(headers, root, bestTip.value);
      PathMembers(headers, root, bestTip.value);
      PathShape(headers, root, bestTip.value);
      var cur := headers[bestTip.value];
      ghost var k := |p| - 1;
      while cur.height > target
        invariant 0 <= k < |p| && cur == headers[p[k]] && cur.height >= target
        decreases k
      {
        assert PathEntry(headers, root, p, k);
        if cur.parentId !in headers {
          return None;
        }
        var parent := headers[cur.parentId];
        if parent.height >= cur.height {
          return None;
        }
        assert k == 0 ==> p[k] == root;
        RootIsLowest(headers, root, cur.parentId);
        cur := parent;
        k := k - 1;
      }
      assert SettledIds(AsTree(), target)[|SettledIds(AsTree(), target)| - 1] == p[k];
      return Some(cur);
    }

    /** The best chain up to hRef, as the view the peg policy judges against. */
    method SettledViewAt(hRef: nat) returns (res: Option<SettledView>)
      requires Valid()
      ensures res == if bestTip.None? then None else Settled(AsTree(), hRef)
    {
      if bestTip.None? || headers[bestTip.value].height < hRef {
        return None;
      }
      var start := WalkDown(hRef);
      if start.None? {
        return None;
      }
      ghost var root := seen[0];
      ghost var ids := SettledIds(AsTree(), hRef);
      SettledEntries(AsTree(), hRef);
      var heights, rows := Collect(start.value, ids);
      return Some(SettledView(heights, rows, hRef));
    }

    // Heights and levels of a header and everything below it.
    method Collect(start: FollowedHeader, ghost ids: seq<Id>) returns (heights: map<Id, nat>, rows: seq<(nat, nat)>)
      requires seen != [] && HeadersOk(headers, seen[0])
      requires ids != [] && ids[0] == seen[0] && ids[|ids| - 1] in headers && start == headers[ids[|ids| - 1]]
      requires forall k | 0 <= k < |ids| ::
                 && ids[k] in headers && headers[ids[k]].id == ids[k]
                 && headers[ids[k]].height == headers[seen[0]].height + k
                 && (k > 0 ==> headers[ids[k]].parentId == ids[k - 1])
      ensures forall id | id in ids :: id in headers
      ensures heights == HeightsOf(headers, ids)
      ensures rows == Rows(headers, ids)
    {
      var cur := start;
      heights, rows := map[], [];
      ghost var k := |ids| - 1;
      while true
        invariant 0 <= k < |ids| && cur == headers[ids[k]]
        invariant heights == HeightsOf(headers, ids[k + 1..])
        invariant rows == Rows(headers, ids[k + 1..])
        decreases k
      {
        ViewPush(headers, ids, k);
        assert k > 0 ==> cur.parentId == ids[k - 1] && headers[ids[k - 1]].height < cur.height;
        heights := heights[cur.id := cur.height];
        rows := [(cur.height, cur.level)] + rows;
        if cur.parentId in headers && headers[cur.parentId].height < cur.height {
          RootIsLowest(headers, seen[0], cur.parentId);
          cur := headers[cur.parentId];
          k := k - 1;
        } else {
          assert ids[0..] == ids;
          break;
        }
      }
    }
  }

  // A root whose parent id is 1, and its child of that id.
  method RootAndItsParent(nMint: nat) returns (f: Follower)
    ensures fresh(f) && f.Valid() && |f.history| == 2
    ensures f.headers == map[0 := FollowedHeader(0, 1, 7, 1, 1, 0), 1 := FollowedHeader(1, 0, 8, 1, 2, 0)]
    ensures f.bestTip == Some(1) && f.seen == [0, 1]
  {
    hide Follower.Valid, HeaderStep, Call.StepOk;
    f := new Follower(nMint, None);
    var root := f.ApplyHeader(ErgoHeader(true, Some(0), 1, 7, 1, 0));
    assert f.headers == map[0 := FollowedHeader(0, 1, 7, 1, 1, 0)];
    var child := f.ApplyHeader(ErgoHeader(true, Some(1), 0, 8, 1, 0));
  }

  /** Why the root's parent matters: with ids that are no hashes, a root whose parent id is that of
      its own child hides the reorg that replaces this child. */
  method RootParentHidesAReorg(nMint: nat) returns (f: Follower, res: Result<Ingest, FollowError>)
    ensures f.Valid() && |f.history| == 3 && f.history[2].answer == res && res.Ok? && res.value.Reorg?
    ensures f.history[2].StepOk() && f.history[2].before.Some?
    ensures !DepthIsRight(f.history[2].before.value, f.history[2].after.value, res)
  {
    hide Follower.Valid, HeaderStep, HeadersOk, RootParentHarmless, DepthIsRight;
    f := RootAndItsParent(nMint);
    res := f.ApplyHeader(ErgoHeader(true, Some(2), 0, 8, 2, 0));
    ReadHistory(f, 2);
    SiblingsShareTheRoot(f.AsTree());
  }

  lemma ReadHistory(f: Follower, i: nat)
    requires f.Valid() && i < |f.history|
    ensures f.history[i].StepOk() && (f.bestTip.Some? ==> f.seen != [] && TreeOk(f.AsTree()))
  {
    assert CallAt(f.history, i);
  }

  lemma SiblingsShareTheRoot(t: Tree)
    requires TreeOk(t) && t.root == 0 && t.headers.Keys == {0, 1, 2}
    requires t.headers[0].parentId == 1 && t.headers[1].parentId == 0 && t.headers[2].parentId == 0
    ensures !RootParentHarmless(t, 1, 2)
  {
    assert LinkedTo(t.headers, 0, 1) && LinkedTo(t.headers, 0, 2);
    assert Path(t.headers, 0, 0) == [0];
    assert Path(t.headers, 0, 1) == [0, 1] && Path(t.headers, 0, 2) == [0, 2];
    assert [0, 1][1..] == [1] && [0, 2][1..] == [2];
    CommonPrefixOfExtension([0, 1], [0, 1]);
  }

  lemma RootIsLowest(hs: Headers, root: Id, id: Id)
    requires HeadersOk(hs, root) && id in hs
    ensures hs[id].height >= hs[root].height
  {
    PathShape(hs, root, id);
  }

  // The settled ids, entry by entry.
  lemma SettledEntries(t: Tree, h: nat)
    requires TreeOk(t) && Reaches(t, h)
    ensures var ids := SettledIds(t, h);
      && |ids| == h - t.headers[t.root].height + 1 && ids[0] == t.root
      && forall k | 0 <= k < |ids| ::
           && ids[k] in t.headers && t.headers[ids[k]].id == ids[k]
           && t.headers[ids[k]].height == t.headers[t.root].height + k
           && (k > 0 ==> t.headers[ids[k]].parentId == ids[k - 1])
  {
    PathMembers(t.headers, t.root, t.tip);
    PathShape(t.headers, t.root, t.tip);
    var ids, p := SettledIds(t, h), Path(t.headers, t.root, t.tip);
    forall k: nat | k < |ids| ensures ids[k] == p[k] && PathEntry(t.headers, t.root, p, k) {
    }
  }
}
