/** How a peg-in proof is judged: by membership of its settled headers in the followed best chain. The
    verdict depends on nothing above the settled height, and so lasts as long as that part does. */
module PegPolicy {
  import opened Common
  import opened Blocks
  import opened Followers

  // A header of a proof: its height, and its id unless it cannot be serialized.
  datatype ProofHeader = ProofHeader(height: nat, id: Option<Id>)

  datatype ErgoAnchor = ErgoAnchor(headerId: Id, height: nat)

  datatype PegError =
    | InvalidChain
    | NotContinuous
    | EmptyProof
    | Serialize
    | WrongAnchor
    | InsufficientDepth(got: nat, need: nat)
    | NotCaughtUp(deferredAt: nat)
    | NoCommonAncestor
    | DivergesFromFollowedChain(divergesAt: nat)

  // What an accepted proof exposes: the settled height and the view there, nothing above.
  datatype ComparativeAnchor = ComparativeAnchor(hRef: nat, settledView: SettledView)

  /** The proof starts at the pinned origin and is at least nMint headers beyond it. */
  function CheckAnchoredDepth(genesisId: Id, tipHeight: nat, anchor: ErgoAnchor, nMint: nat): (err: Option<PegError>)
    ensures err.None? <==> genesisId == anchor.headerId && (nMint == 0 || tipHeight >= anchor.height + nMint)
    ensures err.Some? && genesisId == anchor.headerId ==>
              err.value.InsufficientDepth? && err.value.got < err.value.need == nMint
  {
    var depth := if tipHeight < anchor.height then 0 else tipHeight - anchor.height;
    if genesisId != anchor.headerId then Some(WrongAnchor)
    else if depth < nMint then Some(InsufficientDepth(depth, nMint))
    else None
  }

  /* ---------- membership of the settled part ---------- */

  // Below the followed root nothing can be checked; above it the header must be a member.
  predicate OnChain(view: SettledView, h: ProofHeader) {
    h.height < view.RootHeight() || (h.id.Some? && view.HeightOf(h.id.value) == Some(h.height))
  }

  function OffChainError(h: ProofHeader): PegError {
    if h.id.None? then PegError.Serialize else DivergesFromFollowedChain(h.height)
  }

  // The first header that is not on the chain decides; else at least one must have been checked.
  function Objectivity(view: SettledView, chain: seq<ProofHeader>, i: nat, corroborated: nat): Option<PegError>
    requires i <= |chain|
    decreases |chain| - i
  {
    if i == |chain| then if corroborated == 0 then Some(NoCommonAncestor) else None
    else if !OnChain(view, chain[i]) then Some(OffChainError(chain[i]))
    else Objectivity(view, chain, i + 1, corroborated + if chain[i].height < view.RootHeight() then 0 else 1)
  }

  /** Accepted exactly when every header at or above the root is a member at its own height, and
      there is one; else the answer names the first header that is not. */
  lemma {:induction false} ObjectivityIsMembership(view: SettledView, chain: seq<ProofHeader>, i: nat,
                                                   corroborated: nat)
    requires i <= |chain|
    ensures var err := Objectivity(view, chain, i, corroborated);
      && (err.None? <==> (forall k | i <= k < |chain| :: OnChain(view, chain[k]))
                         && (corroborated > 0 || exists k :: i <= k < |chain| && chain[k].height >= view.RootHeight()))
      && (err == Some(NoCommonAncestor) <==>
            corroborated == 0 && forall k | i <= k < |chain| :: chain[k].height < view.RootHeight())
      && (err.Some? && !err.value.NoCommonAncestor? ==>
            exists k :: i <= k < |chain| && !OnChain(view, chain[k]) && err.value == OffChainError(chain[k])
                        && forall j | i <= j < k :: OnChain(view, chain[j]))
    decreases |chain| - i
  {
    if i < |chain| && OnChain(view, chain[i]) {
      ObjectivityIsMembership(view, chain, i + 1, corroborated + if chain[i].height < view.RootHeight() then 0 else 1);
    }
  }

  /** The loop over the settled headers of a proof. */
  method CheckComparativeObjectivity(chain: seq<ProofHeader>, view: SettledView) returns (err: Option<PegError>)
    ensures err == Objectivity(view, chain, 0, 0)
  {
    var root := view.RootHeight();
    var corroborated := 0;
    for i := 0 to |chain|
      invariant Objectivity(view, chain, 0, 0) == Objectivity(view, chain, i, corroborated)
    {
      var h := chain[i];
      if h.height >= root {
        if h.id.None? {
          return Some(PegError.Serialize);
        }
        match view.HeightOf(h.id.value) {
          case Some(viewHeight) =>
            if viewHeight != h.height {
              return Some(DivergesFromFollowedChain(h.height));
            }
            corroborated := corroborated + 1;
          case None =>
            return Some(DivergesFromFollowedChain(h.height));
        }
      }
    }
    err := if corroborated == 0 then Some(NoCommonAncestor) else None;
  }

  /* ---------- the comparative verdict ---------- */

  // The headers of a proof up to the settled height.
  function SettledPart(chain: seq<ProofHeader>, hRef: nat): seq<ProofHeader> {
    if chain == [] then [] else (if chain[0].height <= hRef then [chain[0]] else []) + SettledPart(chain[1..], hRef)
  }

  // The settled height of a proof: nMint below its last header.
  function SettledHeight(chain: seq<ProofHeader>, nMint: nat): Option<nat> {
    if chain == [] || chain[|chain| - 1].height < nMint then None else Some(chain[|chain| - 1].height - nMint)
  }

  ghost predicate FollowedOk(t: Option<Tree>) {
    t.Some? ==> TreeOk(t.value)
  }

  ghost function ViewAt(t: Option<Tree>, hRef: nat): Option<SettledView>
    requires FollowedOk(t)
  {
    if t.None? then None else Settled(t.value, hRef)
  }

  ghost function Policy(t: Option<Tree>, chain: seq<ProofHeader>, nMint: nat): Result<ComparativeAnchor, PegError>
    requires FollowedOk(t)
  {
    if chain == [] then Err(EmptyProof)
    else match SettledHeight(chain, nMint)
      case None => Err(InsufficientDepth(chain[|chain| - 1].height, nMint))
      case Some(hRef) =>
        match ViewAt(t, hRef)
        case None => Err(NotCaughtUp(hRef))
        case Some(view) =>
          match Objectivity(view, SettledPart(chain, hRef), 0, 0)
          case Some(e) => Err(e)
          case None => Ok(ComparativeAnchor(hRef, view))
  }

  ghost function TreeOf(f: Follower): (t: Option<Tree>)
    requires f.Valid()
    reads f
    ensures FollowedOk(t)
  {
    f.CurrentIsOk();
    f.Current()
  }

  // Every header a view exposes is at or below the height.
  ghost predicate NothingAbove(view: SettledView, h: nat) {
    && (forall id | id in view.heightsById :: view.heightsById[id] <= h)
    && (forall i | 0 <= i < |view.levelsAsc| :: view.levelsAsc[i].0 <= h)
  }

  // The best chain's header at height h.
  ghost predicate BestAt(t: Tree, h: nat, id: Id)
    requires TreeOk(t)
  {
    id in t.headers && id in Path(t.headers, t.root, t.tip) && t.headers[id].height == h
  }

  // Exactly the best-chain headers from the root up to height h, with their heights and levels.
  ghost predicate Exposes(t: Tree, h: nat, view: SettledView)
    requires TreeOk(t)
  {
    var root := t.headers[t.root].height;
    && view.hRef == h
    && (forall id :: id in view.heightsById <==> id in t.headers && t.headers[id].height <= h
                                                  && BestAt(t, t.headers[id].height, id))
    && (forall id | id in view.heightsById :: view.heightsById[id] == t.headers[id].height)
    && root + |view.levelsAsc| == h + 1
    && forall id | id in view.heightsById :: Row(t, view, id)
  }

  ghost predicate Row(t: Tree, view: SettledView, id: Id)
    requires TreeOk(t) && id in t.headers
  {
    var i := t.headers[id].height - t.headers[t.root].height;
    0 <= i < |view.levelsAsc| && view.levelsAsc[i] == (t.headers[id].height, t.headers[id].level)
  }

  // The k-th header of the proof is nMint or more below its last one, and the followed chain starts at
  // or below it.
  ghost predicate MustMatch(t: Tree, chain: seq<ProofHeader>, nMint: nat, k: nat)
    requires TreeOk(t)
  {
    && k < |chain|
    && chain[k].height + nMint <= chain[|chain| - 1].height
    && t.headers[t.root].height <= chain[k].height
  }

  ghost predicate Matches(t: Tree, h: ProofHeader)
    requires TreeOk(t)
  {
    h.id.Some? && BestAt(t, h.height, h.id.value)
  }

  // The first header of the proof that ought to match the best chain and does not.
  ghost predicate FirstStray(t: Tree, chain: seq<ProofHeader>, nMint: nat, k: nat)
    requires TreeOk(t)
  {
    && MustMatch(t, chain, nMint, k) && !Matches(t, chain[k])
    && forall j: nat | j < k && MustMatch(t, chain, nMint, j) :: Matches(t, chain[j])
  }

  /** What each answer of the policy says of the proof and the followed headers. */
  ghost predicate Judged(t: Option<Tree>, chain: seq<ProofHeader>, nMint: nat, res: Result<ComparativeAnchor, PegError>)
    requires FollowedOk(t)
  {
    if chain == [] then res == Err(EmptyProof)
    else
      var last := chain[|chain| - 1].height;
      if last < nMint then res == Err(InsufficientDepth(last, nMint))
      else if t.None? || !(t.value.headers[t.value.root].height <= last - nMint <= t.value.headers[t.value.tip].height)
      then res == Err(NotCaughtUp(last - nMint))
      else
        match res
        case Ok(a) =>
          && a.hRef == last - nMint && Exposes(t.value, a.hRef, a.settledView)
          && (exists k: nat :: MustMatch(t.value, chain, nMint, k))
          && forall k: nat | MustMatch(t.value, chain, nMint, k) :: Matches(t.value, chain[k])
        case Err(NoCommonAncestor) => forall k: nat :: !MustMatch(t.value, chain, nMint, k)
        case Err(Serialize) => exists k: nat :: FirstStray(t.value, chain, nMint, k) && chain[k].id == None
        case Err(DivergesFromFollowedChain(h)) =>
          exists k: nat :: FirstStray(t.value, chain, nMint, k) && chain[k].id.Some? && chain[k].height == h
        case Err(_) => false
  }

  method ComparativePolicy(chain: seq<ProofHeader>, nMint: nat, follower: Follower)
    returns (res: Result<ComparativeAnchor, PegError>)
    requires follower.Valid()
    ensures res == Policy(TreeOf(follower), chain, nMint)
    ensures res.Ok? ==>
              && chain != [] && res.value.hRef + nMint == chain[|chain| - 1].height
              && NothingAbove(res.value.settledView, res.value.hRef)
    ensures forall d: nat | res == Err(NotCaughtUp(d)) :: chain != [] && d + nMint == chain[|chain| - 1].height
    ensures Judged(TreeOf(follower), chain, nMint, res)
  {
    VerdictIsJudged(TreeOf(follower), chain, nMint);
    PolicyHeights(TreeOf(follower), chain, nMint);
    hide Judged, NothingAbove, SettledPart, Objectivity, Follows, HistoryOk, Settled, FollowedOk;
    if chain == [] {
      return Err(EmptyProof);
    }
    var tip := chain[|chain| - 1];
    if tip.height < nMint {
      return Err(InsufficientDepth(tip.height, nMint));
    }
    var hRef := tip.height - nMint;
    var view := follower.SettledViewAt(hRef);
    if view.None? {
      return Err(NotCaughtUp(hRef));
    }
    var err := CheckComparativeObjectivity(SettledPart(chain, hRef), view.value);
    return if err.Some? then Err(err.value) else Ok(ComparativeAnchor(hRef, view.value));
  }

  // The settled height is nMint below the proof's last header.
  lemma PolicyHeights(t: Option<Tree>, chain: seq<ProofHeader>, nMint: nat)
    requires FollowedOk(t)
    ensures var res := Policy(t, chain, nMint);
      && (res.Ok? ==> chain != [] && res.value.hRef + nMint == chain[|chain| - 1].height)
      && forall d: nat | res == Err(NotCaughtUp(d)) :: chain != [] && d + nMint == chain[|chain| - 1].height
  {
    hide FollowedOk, Settled, SettledPart;
    var hRef := SettledHeight(chain, nMint);
    if hRef.Some? && ViewAt(t, hRef.value).Some? {
      ObjectivityIsMembership(ViewAt(t, hRef.value).value, SettledPart(chain, hRef.value), 0, 0);
    }
  }

  // The settled ids are the members of the best chain up to the height.
  lemma SettledMember(t: Tree, h: nat, id: Id)
    requires TreeOk(t) && Reaches(t, h)
    ensures id in SettledIds(t, h) <==>
            id in t.headers && t.headers[id].height <= h && BestAt(t, t.headers[id].height, id)
  {
    PathMembers(t.headers, t.root, t.tip);
    var p, ids := Path(t.headers, t.root, t.tip), SettledIds(t, h);
    hide HeadersOk, Path;
    if id in ids {
      var k :| 0 <= k < |ids| && ids[k] == id;
      assert p[k] == id;
    }
    if id in p && t.headers[id].height <= h {
      var k :| 0 <= k < |p| && p[k] == id;
      assert ids[k] == id;
    }
  }

  lemma SettledExposes(t: Tree, h: nat)
    requires TreeOk(t) && Reaches(t, h)
    ensures Exposes(t, h, Settled(t, h).value) && NothingAbove(Settled(t, h).value, h)
  {
    SettledEntries(t, h);
    var ids, view := SettledIds(t, h), Settled(t, h).value;
    assert view.heightsById == HeightsOf(t.headers, ids) && view.levelsAsc == Rows(t.headers, ids) && view.hRef == h;
    hide HeadersOk, SettledIds, BestAt, Settled, Row;
    forall id ensures id in view.heightsById <==> id in t.headers && t.headers[id].height <= h
                                                  && BestAt(t, t.headers[id].height, id)
    {
      SettledMember(t, h, id);
    }
    forall id | id in view.heightsById ensures Row(t, view, id) {
      RowOfMember(t, h, id);
    }
  }

  lemma RowOfMember(t: Tree, h: nat, id: Id)
    requires TreeOk(t) && Reaches(t, h) && id in SettledIds(t, h)
    ensures Row(t, Settled(t, h).value, id)
  {
    SettledEntries(t, h);
    var ids := SettledIds(t, h);
    hide HeadersOk, SettledIds;
    var k :| 0 <= k < |ids| && ids[k] == id;
    assert Rows(t.headers, ids)[k] == (t.headers[id].height, t.headers[id].level);
  }

  lemma ExposedViewIsUnique(t: Tree, h: nat, a: SettledView, b: SettledView)
    requires TreeOk(t) && h <= t.headers[t.tip].height && Exposes(t, h, a) && Exposes(t, h, b)
    ensures a == b
  {
    PathMembers(t.headers, t.root, t.tip);
    var p := Path(t.headers, t.root, t.tip);
    hide HeadersOk, Path;
    assert a.heightsById == b.heightsById;
    forall i | 0 <= i < |a.levelsAsc| ensures a.levelsAsc[i] == b.levelsAsc[i] {
      assert BestAt(t, t.headers[p[i]].height, p[i]);
      assert Row(t, a, p[i]) && Row(t, b, p[i]);
    }
  }

  /** Two answers that both fit the same proof and the same headers are the same answer. */
  lemma JudgementIsUnique(t: Option<Tree>, chain: seq<ProofHeader>, nMint: nat, a: Result<ComparativeAnchor, PegError>,
                          b: Result<ComparativeAnchor, PegError>)
    requires FollowedOk(t) && Judged(t, chain, nMint, a) && Judged(t, chain, nMint, b)
    ensures a == b
  {
    hide TreeOk, Exposes, MustMatch, Matches;
    if a.Ok? && b.Ok? {
      ExposedViewIsUnique(t.value, a.value.hRef, a.value.settledView, b.value.settledView);
    }
  }

  // The settled headers among the first j are in the part.
  ghost predicate Covers(part: seq<ProofHeader>, chain: seq<ProofHeader>, hRef: nat, j: nat) {
    j <= |chain| && forall i | 0 <= i < j && chain[i].height <= hRef :: chain[i] in part
  }

  lemma CoversPush(part: seq<ProofHeader>, chain: seq<ProofHeader>, hRef: nat, j: nat)
    requires chain != [] && Covers(part, chain[1..], hRef, j)
    ensures Covers([chain[0]] + part, chain, hRef, j + 1)
    ensures chain[0].height > hRef ==> Covers(part, chain, hRef, j + 1)
  {
    forall i | 0 < i < j + 1 && chain[i].height <= hRef ensures chain[i] in part {
      assert chain[1..][i - 1] == chain[i];
    }
  }

  // Where the k-th settled header of a proof stands in it.
  lemma {:induction false} PartIndex(chain: seq<ProofHeader>, hRef: nat, k: nat) returns (j: nat)
    requires k < |SettledPart(chain, hRef)|
    ensures j < |chain| && chain[j] == SettledPart(chain, hRef)[k] && chain[j].height <= hRef
    ensures Covers(SettledPart(chain, hRef)[..k], chain, hRef, j)
  {
    hide Covers;
    var part, rest := SettledPart(chain, hRef), SettledPart(chain[1..], hRef);
    if chain[0].height > hRef {
      assert part == rest;
      j := PartIndex(chain[1..], hRef, k);
      CoversPush(part[..k], chain, hRef, j);
      j := j + 1;
    } else if k == 0 {
      j := 0;
      CoversNone(part[..k], chain, hRef);
    } else {
      j := PartIndex(chain[1..], hRef, k - 1);
      assert part[..k] == [chain[0]] + rest[..k - 1];
      CoversPush(rest[..k - 1], chain, hRef, j);
      j := j + 1;
    }
  }

  lemma CoversNone(part: seq<ProofHeader>, chain: seq<ProofHeader>, hRef: nat)
    ensures Covers(part, chain, hRef, 0)
  {
  }

  lemma OnChainIsMatching(t: Tree, hRef: nat, h: ProofHeader)
    requires TreeOk(t) && Reaches(t, hRef) && h.height <= hRef
    ensures OnChain(Settled(t, hRef).value, h) <==> h.height < t.headers[t.root].height || Matches(t, h)
  {
    SettledExposes(t, hRef);
    SettledQueries(t, hRef, t.root);
  }

  lemma SettledPartMeans(t: Tree, chain: seq<ProofHeader>, hRef: nat)
    requires TreeOk(t) && Reaches(t, hRef)
    ensures Settled(t, hRef).value.RootHeight() == t.headers[t.root].height
    ensures forall h :: h in SettledPart(chain, hRef) <==> h in chain && h.height <= hRef
    ensures forall h | h in SettledPart(chain, hRef) ::
              OnChain(Settled(t, hRef).value, h) <==> h.height < t.headers[t.root].height || Matches(t, h)
  {
    SettledQueries(t, hRef, t.root);
    hide SettledPart, Settled, Matches, OnChain, Reaches, SettledIds, Path;
    forall h ensures h in SettledPart(chain, hRef) <==> h in chain && h.height <= hRef {
      SettledPartMembers(chain, hRef, h);
    }
    forall h | h in SettledPart(chain, hRef)
      ensures OnChain(Settled(t, hRef).value, h) <==> h.height < t.headers[t.root].height || Matches(t, h)
    {
      OnChainIsMatching(t, hRef, h);
    }
  }

  // The settled headers of a proof, judged one by one.
  lemma PartIsJudged(t: Tree, chain: seq<ProofHeader>, nMint: nat)
    requires TreeOk(t) && chain != [] && nMint <= chain[|chain| - 1].height
    requires Reaches(t, chain[|chain| - 1].height - nMint)
    ensures Judged(Some(t), chain, nMint, Policy(Some(t), chain, nMint))
  {
    var hRef := chain[|chain| - 1].height - nMint;
    SettledExposes(t, hRef);
    PartAnswer(t, chain, nMint, hRef);
    var err := Objectivity(Settled(t, hRef).value, SettledPart(chain, hRef), 0, 0);
    assert Policy(Some(t), chain, nMint)
        == if err.Some? then Err(err.value) else Ok(ComparativeAnchor(hRef, Settled(t, hRef).value));
    hide *;
    if err.Some? && err.value != NoCommonAncestor {
      var k: nat :| FirstStray(t, chain, nMint, k) && err.value == OffChainError(chain[k]);
      StrayIsJudged(t, chain, nMint, k);
    } else {
      PlainIsJudged(t, chain, nMint, Policy(Some(t), chain, nMint));
    }
  }

  lemma StrayIsJudged(t: Tree, chain: seq<ProofHeader>, nMint: nat, k: nat)
    requires TreeOk(t) && chain != [] && nMint <= chain[|chain| - 1].height
    requires Reaches(t, chain[|chain| - 1].height - nMint)
    requires FirstStray(t, chain, nMint, k)
    ensures Judged(Some(t), chain, nMint, Err(OffChainError(chain[k])))
  {
    assert k < |chain|;
    hide FirstStray, TreeOk;
  }

  lemma PlainIsJudged(t: Tree, chain: seq<ProofHeader>, nMint: nat, res: Result<ComparativeAnchor, PegError>)
    requires TreeOk(t) && chain != [] && nMint <= chain[|chain| - 1].height
    requires Reaches(t, chain[|chain| - 1].height - nMint)
    requires res.Err? ==> res.error == NoCommonAncestor && forall k: nat :: !MustMatch(t, chain, nMint, k)
    requires res.Ok? ==>
               && res.value.hRef + nMint == chain[|chain| - 1].height
               && Exposes(t, res.value.hRef, res.value.settledView)
               && (exists k: nat :: MustMatch(t, chain, nMint, k))
               && forall k: nat | MustMatch(t, chain, nMint, k) :: Matches(t, chain[k])
    ensures Judged(Some(t), chain, nMint, res)
  {
    hide HeadersOk, Exposes, MustMatch, Matches;
  }

  lemma PartAnswer(t: Tree, chain: seq<ProofHeader>, nMint: nat, hRef: nat)
    requires TreeOk(t) && Reaches(t, hRef) && chain != [] && hRef + nMint == chain[|chain| - 1].height
    ensures var err := Objectivity(Settled(t, hRef).value, SettledPart(chain, hRef), 0, 0);
      && (err.None? ==> (exists k: nat :: MustMatch(t, chain, nMint, k))
                        && forall k: nat | MustMatch(t, chain, nMint, k) :: Matches(t, chain[k]))
      && (err == Some(NoCommonAncestor) ==> forall k: nat :: !MustMatch(t, chain, nMint, k))
      && (err.Some? && err.value != NoCommonAncestor ==>
            exists k: nat :: FirstStray(t, chain, nMint, k) && err.value == OffChainError(chain[k]))
  {
    var view, part := Settled(t, hRef).value, SettledPart(chain, hRef);
    SettledPartMeans(t, chain, hRef);
    ObjectivityIsMembership(view, part, 0, 0);
    hide HeadersOk, Matches, OnChain, SettledPart, Objectivity, Settled, SettledView.RootHeight, FirstStray;
    var err := Objectivity(view, part, 0, 0);
    forall k: nat | MustMatch(t, chain, nMint, k) ensures chain[k] in part {
    }
    if err == Some(NoCommonAncestor) {
    } else if err.Some? {
      var k :| 0 <= k < |part| && !OnChain(view, part[k]) && err.value == OffChainError(part[k])
               && forall j | 0 <= j < k :: OnChain(view, part[j]);
      var i := PartIndex(chain, hRef, k);
      StrayIsFirst(t, chain, nMint, view, part, k, i);
    } else {
      var k :| 0 <= k < |part| && part[k].height >= view.RootHeight();
      var i := PartIndex(chain, hRef, k);
      assert MustMatch(t, chain, nMint, i);
    }
  }

  lemma StrayIsFirst(t: Tree, chain: seq<ProofHeader>, nMint: nat, view: SettledView, part: seq<ProofHeader>, k: nat,
                     i: nat)
    requires TreeOk(t) && chain != [] && k < |part| && i < |chain| && chain[i] == part[k]
    requires chain[i].height + nMint <= chain[|chain| - 1].height
    requires forall h | h in part :: OnChain(view, h) <==> h.height < t.headers[t.root].height || Matches(t, h)
    requires !OnChain(view, part[k]) && forall j | 0 <= j < k :: OnChain(view, part[j])
    requires nMint <= chain[|chain| - 1].height && Covers(part[..k], chain, chain[|chain| - 1].height - nMint, i)
    ensures FirstStray(t, chain, nMint, i)
  {
    hide HeadersOk, Matches, OnChain;
    assert part[k] in part;
    forall j: nat | j < i && MustMatch(t, chain, nMint, j) ensures Matches(t, chain[j]) {
      assert chain[j] in part[..k];
    }
  }

  /** The policy answers what its judgement says, and exposes nothing above the settled height. */
  lemma VerdictIsJudged(t: Option<Tree>, chain: seq<ProofHeader>, nMint: nat)
    requires FollowedOk(t)
    ensures Judged(t, chain, nMint, Policy(t, chain, nMint))
    ensures var res := Policy(t, chain, nMint); res.Ok? ==> NothingAbove(res.value.settledView, res.value.hRef)
  {
    if chain != [] && t.Some? && nMint <= chain[|chain| - 1].height {
      var h := chain[|chain| - 1].height - nMint;
      if Reaches(t.value, h) {
        PartIsJudged(t.value, chain, nMint);
        SettledExposes(t.value, h);
      }
    }
  }

  // The errors of the policy are its own.
  lemma PolicyErrors(t: Option<Tree>, chain: seq<ProofHeader>, nMint: nat)
    requires FollowedOk(t) && Policy(t, chain, nMint).Err?
    ensures match Policy(t, chain, nMint).error
      case EmptyProof => chain == []
      case InsufficientDepth(_, _) => chain != [] && chain[|chain| - 1].height < nMint
      case NotCaughtUp(_) | NoCommonAncestor | Serialize | DivergesFromFollowedChain(_) => true
      case _ => false
  {
    var hRef := SettledHeight(chain, nMint);
    if hRef.Some? && ViewAt(t, hRef.value).Some? {
      ObjectivityIsMembership(ViewAt(t, hRef.value).value, SettledPart(chain, hRef.value), 0, 0);
    }
  }

  /** Steps 1 to 4 of a peg-in proof, whose chain validity and continuity are checked elsewhere: when
      each error is the answer, and the comparative verdict for what passes all of them. */
  method VerifyErgoChainComparative(isValid: bool, continuous: bool, chain: seq<ProofHeader>, anchor: ErgoAnchor,
                                    nMint: nat, follower: Follower)
    returns (res: Result<ComparativeAnchor, PegError>)
    requires follower.Valid()
    ensures res == Err(InvalidChain) <==> !isValid
    ensures res == Err(NotContinuous) <==> isValid && !continuous
    ensures res == Err(EmptyProof) <==> isValid && continuous && chain == []
    ensures isValid && continuous && chain != [] ==>
        && (chain[0].id.None? ==> res == Err(PegError.Serialize))
        && (res == Err(WrongAnchor) <==> chain[0].id.Some? && chain[0].id.value != anchor.headerId)
        && (res.Err? && res.error.InsufficientDepth? <==>
              chain[0].id == Some(anchor.headerId) && nMint > 0 && chain[|chain| - 1].height < anchor.height + nMint)
        && (res.Err? && res.error.InsufficientDepth? ==>
              res.error == InsufficientDepth(Max(chain[|chain| - 1].height - anchor.height, 0), nMint))
        && (chain[0].id == Some(anchor.headerId) && !(res.Err? && res.error.InsufficientDepth?) ==>
              res == Policy(TreeOf(follower), chain, nMint))
  {
    if !isValid {
      return Err(InvalidChain);
    }
    if !continuous {
      return Err(NotContinuous);
    }
    if chain == [] {
      return Err(EmptyProof);
    }
    if chain[0].id.None? {
      return Err(PegError.Serialize);
    }
    var err := CheckAnchoredDepth(chain[0].id.value, chain[|chain| - 1].height, anchor, nMint);
    if err.Some? {
      return Err(err.value);
    }
    res := ComparativePolicy(chain, nMint, follower);
    if res.Err? {
      PolicyErrors(TreeOf(follower), chain, nMint);
    }
  }

  lemma {:induction false} SettledPartMembers(chain: seq<ProofHeader>, hRef: nat, h: ProofHeader)
    ensures h in SettledPart(chain, hRef) <==> h in chain && h.height <= hRef
  {
    if chain != [] {
      SettledPartMembers(chain[1..], hRef, h);
      assert h in chain <==> h == chain[0] || h in chain[1..];
    }
  }

  /** An accepted proof lies on the followed chain: each of its settled headers at or above the
      root is the best-chain header of its height, and at least one is. */
  lemma AcceptedProofIsOnBestChain(t: Tree, chain: seq<ProofHeader>, nMint: nat, hRef: nat)
    requires TreeOk(t) && chain != [] && hRef + nMint == chain[|chain| - 1].height && Reaches(t, hRef)
    ensures Policy(Some(t), chain, nMint).Ok? <==>
        && (forall k: nat | MustMatch(t, chain, nMint, k) :: Matches(t, chain[k]))
        && exists k: nat :: MustMatch(t, chain, nMint, k)
  {
    VerdictIsJudged(Some(t), chain, nMint);
    hide Policy, TreeOk, MustMatch, Matches, Exposes;
    assert forall k: nat :: FirstStray(t, chain, nMint, k) ==> MustMatch(t, chain, nMint, k) && !Matches(t, chain[k]);
  }

  /* ---------- time invariance ---------- */

  lemma SharedSettled(t: Tree, t': Tree, h: nat)
    requires HeaderStep(t, t') && Reaches(t, h) && ForkHeight(t, t') >= h
    ensures Reaches(t', h) && SettledIds(t', h) == SettledIds(t, h) && Settled(t', h) == Settled(t, h)
  {
    PathFrame(t.headers, t'.headers, t.root, t.tip);
    var p, q := Path(t'.headers, t.root, t.tip), Path(t'.headers, t.root, t'.tip);
    var n, m := CommonPrefix(p, q), h - t.headers[t.root].height + 1;
    assert p[..m] == p[..n][..m] == q[..n][..m] == q[..m];
    ViewFrame(t.headers, t'.headers, SettledIds(t, h), h);
  }

  /** A settled view survives a header exactly when the best chains before and after share
      everything up to its height. */
  lemma SettledViewStep(t: Tree, t': Tree, h: nat)
    requires HeaderStep(t, t') && Reaches(t, h)
    ensures Settled(t', h) == Settled(t, h) <==> ForkHeight(t, t') >= h
  {
    var m := h - t.headers[t.root].height;
    if ForkHeight(t, t') >= h {
      SharedSettled(t, t', h);
    } else if Settled(t', h) == Settled(t, h) {
      assert SettledIds(t', h)[m] in Settled(t', h).value.heightsById;
      TopIsShared(t, t', h);
    }
  }

  // If the new best chain's header at h was on the old one, nothing up to h was reorganised.
  lemma TopIsShared(t: Tree, t': Tree, h: nat)
    requires HeaderStep(t, t') && Reaches(t, h) && Reaches(t', h)
    requires var last := SettledIds(t', h)[h - t.headers[t.root].height]; last in SettledIds(t, h)
    ensures ForkHeight(t, t') >= h
  {
    var m := h - t.headers[t.root].height;
    PathFrame(t.headers, t'.headers, t.root, t.tip);
    PathMembers(t'.headers, t.root, t.tip);
    PathMembers(t'.headers, t.root, t'.tip);
    var p, q := Path(t'.headers, t.root, t.tip), Path(t'.headers, t.root, t'.tip);
    assert SettledIds(t', h)[m] == q[m];
    var j :| 0 <= j < |SettledIds(t, h)| && SettledIds(t, h)[j] == q[m];
    assert SettledIds(t, h)[j] == p[j];
    SharedIsPrefix(t'.headers, t.root, t.tip, t'.tip, j, m);
  }

  // A follower's tree after its first i calls.
  ghost function After(history: seq<Call>, i: nat): (t: Option<Tree>)
    requires HistoryOk(history) && i <= |history|
    ensures FollowedOk(t)
  {
    assert i > 0 ==> CallAt(history, i - 1);
    TreeAfter(history, i)
  }

  // A reorg that the call reports leaves at least the first h heights of the old best chain.
  ghost predicate ReportsAbove(call: Call, h: nat)
    requires call.StepOk()
  {
    call.before.Some? && call.answer.Ok? && call.answer.value.Reorg? ==>
      call.before.value.headers[call.before.value.tip].height - call.answer.value.depth >= h
  }

  ghost predicate Harmless(call: Call)
    requires call.StepOk()
  {
    call.before.Some? && call.answer.Ok? && call.answer.value.Reorg? ==>
      RootParentHarmless(call.after.value, call.before.value.tip, call.after.value.tip)
  }

  ghost predicate ReportsAboveAt(history: seq<Call>, h: nat, k: nat)
    requires k < |history|
  {
    CallAt(history, k) && ReportsAbove(history[k], h)
  }

  ghost predicate HarmlessAt(history: seq<Call>, k: nat)
    requires k < |history|
  {
    CallAt(history, k) && Harmless(history[k])
  }

  // No call from the i-th to the j-th reports a reorg below height h.
  ghost predicate ReorgsAbove(history: seq<Call>, i: nat, j: nat, h: nat)
    requires i <= j <= |history|
  {
    forall k: nat | i <= k < j :: ReportsAboveAt(history, h, k)
  }

  ghost predicate AllHarmless(history: seq<Call>, i: nat, j: nat)
    requires i <= j <= |history|
  {
    forall k: nat | i <= k < j :: HarmlessAt(history, k)
  }

  lemma CallKeepsView(call: Call, h: nat)
    requires call.StepOk() && call.before.Some? && Reaches(call.before.value, h)
    requires ReportsAbove(call, h) && Harmless(call)
    ensures Reaches(call.after.value, h) && Settled(call.after.value, h) == Settled(call.before.value, h)
  {
    SharedSettled(call.before.value, call.after.value, h);
  }

  lemma {:induction false} SettledViewIsStable(history: seq<Call>, h: nat, i: nat, j: nat)
    requires HistoryOk(history) && i <= j <= |history| && ReorgsAbove(history, i, j, h) && AllHarmless(history, i, j)
    requires After(history, i).Some? && Reaches(After(history, i).value, h)
    ensures After(history, j).Some? && Reaches(After(history, j).value, h)
    ensures Settled(After(history, j).value, h) == Settled(After(history, i).value, h)
    decreases j - i
  {
    hide CommonHeight, Settled, RootParentHarmless;
    if i < j {
      SettledViewIsStable(history, h, i, j - 1);
      assert ReportsAboveAt(history, h, j - 1) && HarmlessAt(history, j - 1);
      CallKeepsView(history[j - 1], h);
    }
  }

  /** Once the policy gives a verdict on a proof other than the deferral, it gives the same verdict
      with the same settled view after any further calls whose reported reorgs stay at or above the
      settled height, starting from the empty follower or from any later one. */
  lemma SettledVerdictIsStable(history: seq<Call>, chain: seq<ProofHeader>, nMint: nat, i: nat, j: nat)
    requires HistoryOk(history) && i <= j <= |history|
    requires chain != [] && nMint <= chain[|chain| - 1].height ==>
               ReorgsAbove(history, i, j, chain[|chain| - 1].height - nMint) && AllHarmless(history, i, j)
    requires var v := Policy(After(history, i), chain, nMint); v.Ok? || !v.error.NotCaughtUp?
    ensures Policy(After(history, j), chain, nMint) == Policy(After(history, i), chain, nMint)
  {
    hide After;
    if SettledHeight(chain, nMint).Some? {
      SettledViewIsStable(history, SettledHeight(chain, nMint).value, i, j);
    }
  }

  // Along a history the tree only grows.
  lemma {:induction false} TreesGrow(history: seq<Call>, i: nat, j: nat)
    requires HistoryOk(history) && i <= j <= |history| && After(history, i).Some?
    ensures After(history, j).Some? && HeaderStep(After(history, i).value, After(history, j).value)
    decreases j - i
  {
    if i < j {
      TreesGrow(history, i, j - 1);
      assert CallAt(history, j - 1);
    }
  }

  /** The same for the follower itself: while nobody follows the parent of the root, which for hashes
      nobody can, the answers of its calls since the i-th tell whether a verdict given then still holds. */
  lemma VerdictHoldsSince(f: Follower, chain: seq<ProofHeader>, nMint: nat, i: nat)
    requires f.Valid() && i <= |f.history| && (f.bestTip.Some? ==> !RootParentFollowed(f.AsTree()))
    requires chain != [] && nMint <= chain[|chain| - 1].height ==>
               ReorgsAbove(f.history, i, |f.history|, chain[|chain| - 1].height - nMint)
    requires var v := Policy(After(f.history, i), chain, nMint); v.Ok? || !v.error.NotCaughtUp?
    ensures Policy(TreeOf(f), chain, nMint) == Policy(After(f.history, i), chain, nMint)
  {
    hide Policy, ReorgsAbove;
    var last := |f.history|;
    forall k: nat | i <= k < last ensures HarmlessAt(f.history, k) {
      assert CallAt(f.history, k);
      if f.history[k].after.Some? {
        TreesGrow(f.history, k + 1, last);
      }
    }
    SettledVerdictIsStable(f.history, chain, nMint, i, last);
  }

  /** The bound is tight: a reorg that forks below a settled height turns some accepted proof,
      settled at that height, into a rejected or deferred one. */
  lemma DeepReorgFlipsAVerdict(t: Tree, t': Tree, h: nat, nMint: nat) returns (chain: seq<ProofHeader>)
    requires HeaderStep(t, t') && Reaches(t, h) && ForkHeight(t, t') < h && nMint > 0
    ensures chain != [] && h + nMint == chain[|chain| - 1].height
    ensures Policy(Some(t), chain, nMint).Ok? && Policy(Some(t'), chain, nMint).Err?
  {
    var k := h - t.headers[t.root].height;
    var settled := ProofHeader(h, Some(SettledIds(t, h)[k]));
    chain := [settled, ProofHeader(h + nMint, None)];
    BestIsLast(t, h, settled.id.value);
    hide HeadersOk, SettledIds, Policy, BestAt, ForkHeight;
    assert MustMatch(t, chain, nMint, 0) && forall k: nat | MustMatch(t, chain, nMint, k) :: k == 0;
    AcceptedProofIsOnBestChain(t, chain, nMint, h);
    if Reaches(t', h) {
      AcceptedProofIsOnBestChain(t', chain, nMint, h);
      assert MustMatch(t', chain, nMint, 0);
      BestIsLast(t', h, settled.id.value);
      if Matches(t', settled) {
        assert settled.id.value in SettledIds(t, h);
        TopIsShared(t, t', h);
      }
    } else {
      VerdictIsJudged(Some(t'), chain, nMint);
    }
  }

  lemma BestIsLast(t: Tree, h: nat, id: Id)
    requires TreeOk(t) && Reaches(t, h)
    ensures BestAt(t, h, id) <==> SettledIds(t, h)[h - t.headers[t.root].height] == id
  {
    PathMembers(t.headers, t.root, t.tip);
    var p := Path(t.headers, t.root, t.tip);
    assert SettledIds(t, h)[h - t.headers[t.root].height] == p[h - t.headers[t.root].height];
    if BestAt(t, h, id) {
      var k :| 0 <= k < |p| && p[k] == id;
    }
  }
}
