/** Where the claims made for fork choice need their hypotheses: the exact condition under which a
    body kills an id it does not belong to, and the one under which the order of two bodies of one id
    makes no difference. Both are driven through the object. */
module ForkLimits {
  import opened Common
  import opened Blocks
  import opened ShieldedStates
  import opened Chains
  import opened BlockTree
  import opened ForkState
  import opened ForkSteps
  import opened ForkRuns
  import opened ForkCalls
  import opened ForkChoice

  /* ---------- when a body kills the id of an acceptable block ---------- */

  // What the header commits to, for two bodies: equal roots mean equal transfers, equal claims
  // equal notes, and no note is claimed by the empty claim.
  predicate Binding(r: Rules, b: Block, c: Block) {
    && (r.TxRoot(b.body) == r.TxRoot(c.body) ==> b.body.transfers == c.body.transfers)
    && (b.coinbase.Some? ==> r.prim.encodeCm(b.coinbase.value.cm) != EMPTY_REWARD_CLAIM)
    && (c.coinbase.Some? ==> r.prim.encodeCm(c.coinbase.value.cm) != EMPTY_REWARD_CLAIM)
    && (b.coinbase.Some? && c.coinbase.Some? &&
        r.prim.encodeCm(b.coinbase.value.cm) == r.prim.encodeCm(c.coinbase.value.cm) ==>
          b.coinbase.value.cm == c.coinbase.value.cm)
  }

  // The body is not ahead of the clock and its coinbase proof, if any, verifies.
  predicate PastTransients(r: Rules, q: seq<Block>, b: Block, now: nat) {
    && b.header.timestampMs <= now + MAX_FUTURE_DRIFT_MS
    && (b.coinbase.Some? ==>
          r.prim.verifyMint(ExpectedCoinbaseValue(r, StateOf(r, q).pot, |b.body.transfers|), b.coinbase.value))
  }

  predicate Poisonous(r: Rules, q: seq<Block>, b: Block, now: nat) {
    b.body.pegMints != [] && PastTransients(r, q, b, now)
  }

  // The peg envelopes of `b` decode, verify, and lead to the digest, pot and tree root that those of `a` do.
  predicate SamePegRoots(r: Rules, s: State, a: Block, b: Block)
    requires PlanFor(r, s, a).Ok?
  {
    && FirstUndecodable(r, b.body.pegMints, 0).None?
    && PlanFor(r, s, b).Ok?
    && var s1, s2 := Commit(r, s, PlanFor(r, s, a).value), Commit(r, s, PlanFor(r, s, b).value);
       s1.digest == s2.digest && s1.pot == s2.pot && s1.root == s2.root
  }

  predicate PermanentlyRefused(r: Rules, q: seq<Block>, b: Block, now: nat)
    requires q != []
  {
    var v := Verdict(r, q, b, now);
    v.Some? && VerdictIsPermanent(v.value)
  }

  lemma UndecodableFrom(r: Rules, envelopes: seq<seq<byte>>)
    requires envelopes != [] && FirstUndecodable(r, envelopes, 0).None?
    ensures DecodePegs(r, envelopes) != []
  {
    AllDecoded(r, envelopes, 0, |envelopes| - 1);
  }

  lemma {:induction false} AllDecoded(r: Rules, envelopes: seq<seq<byte>>, i: nat, k: nat)
    requires i <= k < |envelopes| && FirstUndecodable(r, envelopes, i).None?
    ensures r.prim.decodePeg(envelopes[k]).Some?
    decreases k - i
  {
    if i < k {
      AllDecoded(r, envelopes, i + 1, k);
    }
  }

  // Everything else about the body is committed: what is left of its verdict once `good` is accepted.
  lemma VerdictOfTheOther(r: Rules, q: seq<Block>, good: Block, bad: Block, clock: nat, now: nat)
    requires q != [] && good.header == bad.header && Binding(r, good, bad)
    requires Authentic(r, good) && Authentic(r, bad) && Verdict(r, q, good, clock).None?
    ensures PlanFor(r, StateOf(r, q), good).Ok?
    ensures Verdict(r, q, bad, now).None? <==>
              PastTransients(r, q, bad, now) && SamePegRoots(r, StateOf(r, q), good, bad)
    ensures PermanentlyRefused(r, q, bad, now) <==>
              PastTransients(r, q, bad, now) && !SamePegRoots(r, StateOf(r, q), good, bad)
  {
    hide MedianTimePast, StateOf, FirstBadOutput, FirstDoubleSpend, FirstBadProof, Commit, NewPot, FirstUndecodable,
         DecodePegs, Plan;
  }

  // Without a peg context every peg-mint is refused.
  lemma OnlyNoEnvelopes(r: Rules, s: State, good: Block, bad: Block)
    requires r.peg.None? && PlanFor(r, s, good).Ok? && FirstUndecodable(r, good.body.pegMints, 0).None?
    requires good.body.transfers == bad.body.transfers && RewardOf(good) == RewardOf(bad)
    ensures SamePegRoots(r, s, good, bad) <==> bad.body.pegMints == []
  {
    hide Commit, NewPot, FirstBadOutput, FirstDoubleSpend;
    if good.body.pegMints != [] {
      UndecodableFrom(r, good.body.pegMints);
    } else if bad.body.pegMints == [] {
      assert DecodePegs(r, bad.body.pegMints) == DecodePegs(r, good.body.pegMints);
    } else if FirstUndecodable(r, bad.body.pegMints, 0).None? {
      UndecodableFrom(r, bad.body.pegMints);
    }
  }

  lemma SameCommitments(r: Rules, q: seq<Block>, good: Block, bad: Block, clock: nat)
    requires q != [] && good.header == bad.header && Binding(r, good, bad)
    requires Authentic(r, good) && Authentic(r, bad) && Verdict(r, q, good, clock).None?
    ensures good.body.transfers == bad.body.transfers && RewardOf(good) == RewardOf(bad)
    ensures FirstUndecodable(r, good.body.pegMints, 0).None?
  {
    hide MedianTimePast, StateOf, FirstUndecodable, PlanFor, FirstBadProof;
  }

  /** Which failures the id commits to, exactly. Without a peg context, a body of the same header as an
      acceptable one is permanently refused if and only if it carries peg envelopes, which the header
      does not cover, and gets past the two transient checks before them; and accepted if and only if
      it carries none and gets past them. */
  lemma RefusalIsCommittedIff(r: Rules, q: seq<Block>, good: Block, bad: Block, clock: nat, now: nat)
    requires q != [] && r.peg.None? && good.header == bad.header && Binding(r, good, bad)
    requires Authentic(r, good) && Authentic(r, bad) && Verdict(r, q, good, clock).None?
    ensures PermanentlyRefused(r, q, bad, now) <==> Poisonous(r, q, bad, now)
    ensures Verdict(r, q, bad, now).None? <==> bad.body.pegMints == [] && PastTransients(r, q, bad, now)
  {
    hide SamePegRoots, PastTransients, Verdict, Binding, Authentic, PlanFor, FirstUndecodable;
    SameCommitments(r, q, good, bad, clock);
    VerdictOfTheOther(r, q, good, bad, clock, now);
    OnlyNoEnvelopes(r, StateOf(r, q), good, bad);
  }

  // Beyond genesis, only these shares and bodies are known, none of them activated.
  ghost predicate OnlyPools(r: Law, s: Snapshot, pending: map<Id, PendingShare>, stashed: map<Id, Block>) {
    s.(canonical := r.GenesisId()) == InitialSnapshot(r).(pending := pending, stashed := stashed)
  }

  lemma PathOfGenesis(r: Law, s: Snapshot)
    requires s.nodes == InitialSnapshot(r).nodes
    ensures PathBlocks(s.nodes, r.GenesisId()) == [r.GenesisBlock()]
  {
    assert PathIds(s.nodes, r.GenesisId()) == [r.GenesisId()];
  }

  lemma ShareWaits(r: Law, s: Snapshot, share: Share, now: nat, res: ShareIngest, s': Snapshot)
    requires s == InitialSnapshot(r) && ShareAnswer(r, s, share, now, res, s') && share.aegisId != r.GenesisId()
    ensures OnlyPools(r, s', map[share.aegisId := PendingShare(share.work, share.ergoHeight)], map[])
  {
    assert !Ready(ShareNoted(s, share), share.aegisId);
  }

  // A body that finds its share pending on top of genesis is judged at once.
  lemma BodyIsJudged(r: Law, s: Snapshot, p: PendingShare, b: Block, now: nat, res: BodyIngest, s': Snapshot)
    requires IsChainJudge(r) && OnlyPools(r, s, map[r.BlockId(b) := p], map[]) && BodyAnswer(r, s, b, now, res, s')
    requires Authentic(r.rules, b) && r.BlockId(b) != r.GenesisId() && b.header.prevId == r.GenesisId()
    ensures var v := Verdict(r.rules, [r.GenesisBlock()], b, now);
      if v.None? then r.BlockId(b) in s'.nodes
      else if VerdictIsPermanent(v.value) then r.BlockId(b) in s'.dead
      else OnlyPools(r, s', map[r.BlockId(b) := p], map[]) && r.BlockId(b) !in s'.nodes && r.BlockId(b) !in s'.dead
  {
    hide Verdict, VerdictIsPermanent;
    var noted := BodyStashed(r, s, b);
    PathOfGenesis(r, noted);
    assert Ready(noted, r.BlockId(b));
    assert Dropped(noted, r.BlockId(b)).stashed == map[];
  }

  lemma DecidedStaysDecided(r: Law, s: Snapshot, b: Block, now: nat, res: BodyIngest, s': Snapshot)
    requires BodyAnswer(r, s, b, now, res, s') && (r.BlockId(b) in s.nodes || r.BlockId(b) in s.dead)
    ensures s' == s
  {
  }

  /** The same through the object: after the share, the bad body and then the good one, the id is dead
      exactly when the bad body was poisonous at its clock, and validated otherwise. */
  method BadThenGood(rules: Rules, good: Block, bad: Block, share: Share, now: nat, clock: nat)
    returns (fc: MmForkChoice)
    requires now <= MAX_CLOCK && clock <= MAX_CLOCK
    requires rules.peg.None? && good.header == bad.header && Binding(rules, good, bad)
    requires Authentic(rules, good) && Authentic(rules, bad)
    requires share.aegisId == rules.BlockId(good) != rules.GenesisId() && good.header.prevId == rules.GenesisId()
    requires Verdict(rules, [rules.GenesisBlock()], good, clock).None?
    ensures fc.Valid()
    ensures share.aegisId in fc.dead <==> Poisonous(rules, [rules.GenesisBlock()], bad, now)
    ensures share.aegisId in fc.nodes <==> !Poisonous(rules, [rules.GenesisBlock()], bad, now)
  {
    hide MmForkChoice.Valid, Chain.Valid, BodyAnswer, ShareAnswer, Verdict, VerdictIsPermanent, OnlyPools,
         InitialSnapshot, Poisonous, Binding, Authentic;
    fc := new MmForkChoice(rules);
    ghost var law, s := fc.law, fc.Snap();
    ChainLawIsJudge(rules);
    RefusalIsCommittedIff(rules, [rules.GenesisBlock()], good, bad, clock, now);
    var waiting := fc.IngestShare(share, now);
    ShareWaits(law, s, share, now, waiting, fc.Snap());
    ghost var p := PendingShare(share.work, share.ergoHeight);
    s := fc.Snap();
    var first := fc.IngestBody(bad, now);
    BodyIsJudged(law, s, p, bad, now, first, fc.Snap());
    s := fc.Snap();
    var second := fc.IngestBody(good, clock);
    if share.aegisId in s.nodes || share.aegisId in s.dead {
      DecidedStaysDecided(law, s, good, clock, second, fc.Snap());
    } else {
      BodyIsJudged(law, s, p, good, clock, second, fc.Snap());
    }
    NeverBoth(fc, share.aegisId);
  }

  lemma NeverBoth(fc: MmForkChoice, id: Id)
    requires fc.Valid()
    ensures !(id in fc.nodes && id in fc.dead)
  {
    hide Run, Explained, Chain.Valid, IsBest;
  }

  /* ---------- convergence needs one body per id ---------- */

  // The coinbase proof of a first block, if any, verifies for what the empty pot allows.
  predicate CoinbaseVerifies(r: Rules, b: Block) {
    b.coinbase.Some? ==> r.prim.verifyMint(ExpectedCoinbaseValue(r, 0, |b.body.transfers|), b.coinbase.value)
  }

  /** When the order of two bodies of one id matters. Offered before the share, an acceptable body makes
      its id validated when it comes first; when the other one does, the id is validated exactly if
      that one carries no peg envelopes and its coinbase proof verifies. Otherwise the id is dead, if
      the proof verifies, or left pending. */
  method BodyOrderMatters(rules: Rules, good: Block, bad: Block, share: Share, now: nat)
    returns (a: MmForkChoice, b: MmForkChoice)
    requires now <= MAX_CLOCK && rules.peg.None? && Binding(rules, good, bad)
    requires Authentic(rules, good) && Authentic(rules, bad) && good.header == bad.header
    requires share.aegisId == rules.BlockId(good) != rules.GenesisId()
    requires good.header.prevId == rules.GenesisId()
    requires Verdict(rules, [rules.GenesisBlock()], good, now).None?
    ensures a.Valid() && b.Valid() && a.law == b.law
    ensures SameContent(a.log, b.log) && OnTime(a.law, a.log) && OnTime(b.law, b.log)
    ensures share.aegisId in a.nodes
    ensures share.aegisId in b.nodes <==> bad.body.pegMints == [] && CoinbaseVerifies(rules, bad)
    ensures share.aegisId in b.dead <==> bad.body.pegMints != [] && CoinbaseVerifies(rules, bad)
    ensures share.aegisId in b.pending <==> !CoinbaseVerifies(rules, bad)
  {
    hide MmForkChoice.Valid, Verdict, VerdictIsPermanent, Authentic, Binding;
    AcceptedIffPinnedAndNotAhead(rules, [rules.GenesisBlock()], good, now);
    RefusalIsCommittedIff(rules, [rules.GenesisBlock()], good, bad, now, now);
    a := OfferTwice(rules, good, bad, share, now);
    b := OfferTwice(rules, bad, good, share, now);
    OneClockIsOnTime(a.law, a.log, now);
    OneClockIsOnTime(b.law, b.log, now);
    SameOffers(good, bad, share, now);
  }

  // With one clock, bodies are on time when none is ahead of it.
  lemma OneClockIsOnTime(r: Law, log: seq<Event>, now: nat)
    requires forall e | e in log :: e.AnchorSeen? || ClockOf(e) == now
    requires forall e | e in log && e.BodySeen? :: e.block.header.timestampMs <= now + MAX_FUTURE_DRIFT_MS
    ensures OnTime(r, log)
  {
    forall i, j | 0 <= i <= j < |log| && log[i].BodySeen? && Authentic(r.rules, log[i].block) && !log[j].AnchorSeen?
      ensures log[i].block.header.timestampMs <= ClockOf(log[j]) + MAX_FUTURE_DRIFT_MS
    {
      assert log[i] in log && log[j] in log;
    }
  }

  lemma SameOffers(first: Block, second: Block, share: Share, now: nat)
    ensures SameContent([BodySeen(first, now), BodySeen(second, now), ShareSeen(share, now)],
                        [BodySeen(second, now), BodySeen(first, now), ShareSeen(share, now)])
  {
    var a := [BodySeen(first, now), BodySeen(second, now), ShareSeen(share, now)];
    var b := [BodySeen(second, now), BodySeen(first, now), ShareSeen(share, now)];
    assert Timelessly(a) == [BodySeen(first, 0), BodySeen(second, 0), ShareSeen(share, 0)];
    assert Timelessly(b) == [BodySeen(second, 0), BodySeen(first, 0), ShareSeen(share, 0)];
  }

  lemma FirstBodyIsStashed(r: Law, s: Snapshot, first: Block, now: nat, res: BodyIngest, s': Snapshot)
    requires s == InitialSnapshot(r) && BodyAnswer(r, s, first, now, res, s')
    requires Authentic(r.rules, first) && r.BlockId(first) != r.GenesisId()
    ensures OnlyPools(r, s', map[], map[r.BlockId(first) := first])
  {
    assert !Ready(BodyStashed(r, s, first), r.BlockId(first));
  }

  lemma SecondBodyIsLost(r: Law, s: Snapshot, first: Block, second: Block, now: nat, res: BodyIngest, s': Snapshot)
    requires OnlyPools(r, s, map[], map[r.BlockId(first) := first]) && BodyAnswer(r, s, second, now, res, s')
    requires Authentic(r.rules, second) && r.BlockId(first) == r.BlockId(second) != r.GenesisId()
    ensures OnlyPools(r, s', map[], map[r.BlockId(first) := first])
  {
    assert BodyStashed(r, s, second) == s;
    assert !Ready(s, r.BlockId(second));
  }

  // Where the verdict on a first block puts its id.
  ghost predicate Fate(r: Rules, b: Block, id: Id, now: nat, s: Snapshot) {
    var v := Verdict(r, [r.GenesisBlock()], b, now);
    && (id in s.nodes <==> v.None?)
    && (id in s.dead <==> v.Some? && VerdictIsPermanent(v.value))
    && (id in s.pending <==> v.Some? && !VerdictIsPermanent(v.value))
  }

  lemma FirstBodyIsJudged(r: Law, s: Snapshot, first: Block, share: Share, now: nat, res: ShareIngest, s': Snapshot)
    requires IsChainJudge(r) && OnlyPools(r, s, map[], map[r.BlockId(first) := first])
    requires ShareAnswer(r, s, share, now, res, s')
    requires share.aegisId == r.BlockId(first) != r.GenesisId() && first.header.prevId == r.GenesisId()
    ensures Fate(r.rules, first, share.aegisId, now, s')
  {
    hide Verdict, VerdictIsPermanent;
    var noted := ShareNoted(s, share);
    PathOfGenesis(r, noted);
    assert Ready(noted, share.aegisId);
  }

  // Offer one body, then another of the same id, then the share: the first body is judged.
  method OfferTwice(rules: Rules, first: Block, second: Block, share: Share, now: nat) returns (fc: MmForkChoice)
    requires now <= MAX_CLOCK
    requires Authentic(rules, first) && Authentic(rules, second) && first.header == second.header
    requires share.aegisId == rules.BlockId(first) != rules.GenesisId()
    requires first.header.prevId == rules.GenesisId()
    ensures fc.Valid() && fc.law == ChainLaw(rules)
    ensures fc.log == [BodySeen(first, now), BodySeen(second, now), ShareSeen(share, now)]
    ensures Fate(rules, first, share.aegisId, now, fc.Snap())
  {
    hide MmForkChoice.Valid, Chain.Valid, BodyAnswer, ShareAnswer, Verdict, VerdictIsPermanent, OnlyPools,
         InitialSnapshot;
    fc := new MmForkChoice(rules);
    ghost var law, s := fc.law, fc.Snap();
    var stashing := fc.IngestBody(first, now);
    FirstBodyIsStashed(law, s, first, now, stashing, fc.Snap());
    s := fc.Snap();
    var repeated := fc.IngestBody(second, now);
    SecondBodyIsLost(law, s, first, second, now, repeated, fc.Snap());
    s := fc.Snap();
    var judged := fc.IngestShare(share, now);
    ChainLawIsJudge(rules);
    FirstBodyIsJudged(law, s, first, share, now, judged, fc.Snap());
  }
}
