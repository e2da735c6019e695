/** The state transition spelled out on transfers, proofs and numbers: which content is refused with
    which error, and what every part of the state is after content that is not. */
module StateLaws {
  import opened Common
  import opened Blocks
  import opened ShieldedStates

  // The p-th nullifier of a block: transfer by transfer, the first slot before the second.
  function NullifierAt(txs: seq<Transfer>, p: nat): Nullifier
    requires p < 2 * |txs|
  {
    if p % 2 == 0 then txs[p / 2].nf0 else txs[p / 2].nf1
  }

  predicate BothDecode(r: Rules, tx: Transfer) {
    r.prim.decodeCm(tx.out0.noteCm) != None && r.prim.decodeCm(tx.out1.noteCm) != None
  }

  // The first n transfers have outputs that decode.
  ghost predicate OutputsDecode(r: Rules, txs: seq<Transfer>, n: nat)
    requires n <= |txs|
  {
    forall i | 0 <= i < n :: BothDecode(r, txs[i])
  }

  // The first n nullifiers are unused and differ from each other.
  ghost predicate Unspent(used: set<Nullifier>, txs: seq<Transfer>, n: nat)
    requires n <= 2 * |txs|
  {
    && (forall p | 0 <= p < n :: NullifierAt(txs, p) !in used)
    && (forall p, q | 0 <= q < p < n :: NullifierAt(txs, q) != NullifierAt(txs, p))
  }

  // The i-th proof passes the peg verifier, and no earlier one and no block before used its receipt.
  ghost predicate MintPasses(peg: PegConfig, used: set<Hash>, proofs: seq<PegProof>, i: nat)
    requires i < |proofs|
  {
    match peg.steps(proofs[i])
    case None => false
    case Some(e) =>
      && e.boxId !in used
      && forall j | 0 <= j < i :: peg.steps(proofs[j]).Some? ==> peg.steps(proofs[j]).value.boxId != e.boxId
  }

  ghost predicate MintHasNote(peg: PegConfig, proofs: seq<PegProof>, i: nat)
    requires i < |proofs|
  {
    peg.steps(proofs[i]).Some? && peg.note(peg.steps(proofs[i]).value).Some?
  }

  ghost predicate Mints(peg: PegConfig, used: set<Hash>, proofs: seq<PegProof>, n: nat)
    requires n <= |proofs|
  {
    forall i | 0 <= i < n :: MintPasses(peg, used, proofs, i) && MintHasNote(peg, proofs, i)
  }

  // The content is refused with this error: everything checked before it was in order.
  ghost predicate Refuses(r: Rules, s: State, txs: seq<Transfer>, proofs: seq<PegProof>, e: StateError) {
    match e
    case InvalidNoteCommitment(i) => i < |txs| && OutputsDecode(r, txs, i) && !BothDecode(r, txs[i])
    case DoubleSpend(nf) =>
      && OutputsDecode(r, txs, |txs|)
      && exists p :: 0 <= p < 2 * |txs| && NullifierAt(txs, p) == nf && Unspent(s.nullifiers, txs, p)
                     && !Unspent(s.nullifiers, txs, p + 1)
    case PegDisabled => SpendsOk(r, s, txs) && proofs != [] && r.peg == None
    case PegMint(i) =>
      && SpendsOk(r, s, txs) && r.peg.Some? && i < |proofs|
      && Mints(r.peg.value, s.pegUsed, proofs, i) && !MintPasses(r.peg.value, s.pegUsed, proofs, i)
    case PegBadDest(i) =>
      && SpendsOk(r, s, txs) && r.peg.Some? && i < |proofs|
      && Mints(r.peg.value, s.pegUsed, proofs, i) && MintPasses(r.peg.value, s.pegUsed, proofs, i)
      && !MintHasNote(r.peg.value, proofs, i)
  }

  ghost predicate SpendsOk(r: Rules, s: State, txs: seq<Transfer>) {
    OutputsDecode(r, txs, |txs|) && Unspent(s.nullifiers, txs, 2 * |txs|)
  }

  ghost predicate Admits(r: Rules, s: State, txs: seq<Transfer>, proofs: seq<PegProof>) {
    SpendsOk(r, s, txs) && (proofs == [] || (r.peg.Some? && Mints(r.peg.value, s.pegUsed, proofs, |proofs|)))
  }

  function Sum(s: seq<nat>): nat {
    if s == [] then 0 else Sum(s[..|s| - 1]) + s[|s| - 1]
  }

  // What the block's content is made of, position by position.
  datatype Content = Content(nfs: seq<Nullifier>, boxIds: seq<Hash>, credits: seq<nat>, leaves: seq<Point>)

  ghost predicate IsContent(r: Rules, txs: seq<Transfer>, proofs: seq<PegProof>, reward: RewardMode, c: Content) {
    && |c.nfs| == 2 * |txs| && (forall p | 0 <= p < |c.nfs| :: c.nfs[p] == NullifierAt(txs, p))
    && |c.boxIds| == |c.credits| == |proofs|
    && |c.leaves| == 2 * |txs| + |proofs| + (if reward.Minted? then 1 else 0)
    && (forall i | 0 <= i < |txs| :: TransferLeaves(r, txs, c, i))
    && (forall j | 0 <= j < |proofs| :: MintContent(r, txs, proofs, c, j))
    && (reward.Minted? ==> c.leaves[|c.leaves| - 1] == reward.cm)
  }

  ghost predicate TransferLeaves(r: Rules, txs: seq<Transfer>, c: Content, i: nat)
    requires i < |txs| && 2 * |txs| <= |c.leaves|
  {
    && r.prim.decodeCm(txs[i].out0.noteCm) == Some(c.leaves[2 * i])
    && r.prim.decodeCm(txs[i].out1.noteCm) == Some(c.leaves[2 * i + 1])
  }

  ghost predicate MintContent(r: Rules, txs: seq<Transfer>, proofs: seq<PegProof>, c: Content, j: nat)
    requires j < |proofs| == |c.boxIds| == |c.credits| && 2 * |txs| + |proofs| <= |c.leaves|
  {
    && r.peg.Some? && r.peg.value.steps(proofs[j]).Some?
    && var e := r.peg.value.steps(proofs[j]).value;
       && c.boxIds[j] == e.boxId && c.credits[j] == e.potCredit
       && r.peg.value.note(e) == Some(c.leaves[2 * |txs| + j])
  }

  /** The pot: all fees come in, clipped at 64 bits; a coinbase takes one target for the block and one per
      transfer, or all there is; then the credits come in, clipped again. */
  ghost predicate PotMoves(r: Rules, pot: nat, n: nat, minted: bool, credit: nat, pot': nat) {
    var paid := Min(pot + r.scTxFee * n, 0xFFFF_FFFF_FFFF_FFFF);
    var due := if minted then r.rTarget * (n + 1) else 0;
    pot' == Min(paid - Min(due, paid) + credit, 0xFFFF_FFFF_FFFF_FFFF)
  }

  // The state after this content.
  ghost predicate Becomes(r: Rules, s: State, txs: seq<Transfer>, proofs: seq<PegProof>, reward: RewardMode, s': State)
  {
    exists c :: IsContent(r, txs, proofs, reward, c) && Adds(r, s, c, s')
                && PotMoves(r, s.pot, |txs|, reward.Minted?, Sum(c.credits), s'.pot)
  }

  ghost predicate Adds(r: Rules, s: State, c: Content, s': State) {
    && (forall x :: x in s'.nullifiers <==> x in s.nullifiers || x in c.nfs)
    && (forall x :: x in s'.pegUsed <==> x in s.pegUsed || x in c.boxIds)
    && s'.leaves == s.leaves + c.leaves
    && s'.root == (if c.leaves == [] then s.root else r.prim.treeRoot(s.leaves + c.leaves))
    && s'.digest == (if c.nfs == [] && c.boxIds == [] then s.digest else r.prim.foldDigest(s.digest, c.nfs, c.boxIds))
  }

  /* ---------- transfers ---------- */

  lemma {:induction false} FirstBadOutputMeans(r: Rules, txs: seq<Transfer>, i: nat)
    requires i <= |txs| && OutputsDecode(r, txs, i)
    ensures match FirstBadOutput(r, txs, i)
      case None => OutputsDecode(r, txs, |txs|)
      case Some(k) => k < |txs| && OutputsDecode(r, txs, k) && !BothDecode(r, txs[k])
    decreases |txs| - i
  {
    if i < |txs| && BothDecode(r, txs[i]) {
      FirstBadOutputMeans(r, txs, i + 1);
    }
  }

  ghost function UsedBefore(used: set<Nullifier>, txs: seq<Transfer>, n: nat): set<Nullifier>
    requires n <= 2 * |txs|
  {
    used + set p | 0 <= p < n :: NullifierAt(txs, p)
  }

  // One more nullifier.
  lemma UnspentStep(used: set<Nullifier>, txs: seq<Transfer>, n: nat)
    requires n < 2 * |txs| && Unspent(used, txs, n)
    ensures Unspent(used, txs, n + 1) <==> NullifierAt(txs, n) !in UsedBefore(used, txs, n)
    ensures UsedBefore(used, txs, n + 1) == UsedBefore(used, txs, n) + {NullifierAt(txs, n)}
  {
  }

  lemma {:induction false} FirstDoubleSpendMeans(used: set<Nullifier>, txs: seq<Transfer>, i: nat)
    requires i <= |txs| && Unspent(used, txs, 2 * i)
    ensures match FirstDoubleSpend(UsedBefore(used, txs, 2 * i), txs, i)
      case None => Unspent(used, txs, 2 * |txs|)
      case Some(nf) => exists p :: 0 <= p < 2 * |txs| && NullifierAt(txs, p) == nf && Unspent(used, txs, p)
                                   && !Unspent(used, txs, p + 1)
    decreases |txs| - i
  {
    hide Unspent, UsedBefore;
    if i < |txs| {
      var seen := UsedBefore(used, txs, 2 * i);
      assert NullifierAt(txs, 2 * i) == txs[i].nf0 && NullifierAt(txs, 2 * i + 1) == txs[i].nf1;
      UnspentStep(used, txs, 2 * i);
      if txs[i].nf0 !in seen {
        UnspentStep(used, txs, 2 * i + 1);
        if txs[i].nf1 !in seen + {txs[i].nf0} {
          assert seen + {txs[i].nf0, txs[i].nf1} == UsedBefore(used, txs, 2 * (i + 1));
          FirstDoubleSpendMeans(used, txs, i + 1);
        }
      }
    }
  }

  lemma NullifierOfRest(txs: seq<Transfer>, p: nat)
    requires txs != [] && p < 2 * (|txs| - 1)
    ensures NullifierAt(txs[..|txs| - 1], p) == NullifierAt(txs, p)
  {
    assert txs[..|txs| - 1][p / 2] == txs[p / 2];
  }

  lemma {:induction false} NullifiersMean(txs: seq<Transfer>)
    ensures |Nullifiers(txs)| == 2 * |txs|
    ensures forall p | 0 <= p < 2 * |txs| :: Nullifiers(txs)[p] == NullifierAt(txs, p)
  {
    if txs != [] {
      var rest := txs[..|txs| - 1];
      NullifiersMean(rest);
      forall p | 0 <= p < 2 * |txs| ensures Nullifiers(txs)[p] == NullifierAt(txs, p) {
        if p < 2 * |rest| {
          NullifierOfRest(txs, p);
        } else {
          assert p == 2 * |rest| || p == 2 * |rest| + 1;
        }
      }
    }
  }

  lemma {:induction false} OutputLeavesMean(r: Rules, txs: seq<Transfer>)
    requires OutputsDecode(r, txs, |txs|)
    ensures var l := OutputLeaves(r, txs);
      && |l| == 2 * |txs|
      && forall i | 0 <= i < |txs| ::
           && r.prim.decodeCm(txs[i].out0.noteCm) == Some(l[2 * i])
           && r.prim.decodeCm(txs[i].out1.noteCm) == Some(l[2 * i + 1])
  {
    if txs != [] {
      var rest := txs[..|txs| - 1];
      assert BothDecode(r, txs[|txs| - 1]);
      forall i | 0 <= i < |rest| ensures BothDecode(r, rest[i]) {
        assert rest[i] == txs[i];
      }
      OutputLeavesMean(r, rest);
      forall i | 0 <= i < |txs|
        ensures r.prim.decodeCm(txs[i].out0.noteCm) == Some(OutputLeaves(r, txs)[2 * i])
        ensures r.prim.decodeCm(txs[i].out1.noteCm) == Some(OutputLeaves(r, txs)[2 * i + 1])
      {
        assert i < |rest| ==> rest[i] == txs[i];
      }
    }
  }

  /* ---------- peg-mints ---------- */

  // What the mints before the n-th add.
  ghost predicate IsPegOut(peg: PegConfig, proofs: seq<PegProof>, n: nat, out: PegOut, credits: seq<nat>)
    requires n <= |proofs|
  {
    && |out.boxIds| == |out.leaves| == |credits| == n
    && (forall j | 0 <= j < n :: PegOutAt(peg, proofs, out, credits, j))
    && out.credit == Min(Sum(credits), U128_MAX)
  }

  ghost predicate PegOutAt(peg: PegConfig, proofs: seq<PegProof>, out: PegOut, credits: seq<nat>, j: nat)
    requires j < |proofs| && j < |out.boxIds| && j < |out.leaves| && j < |credits|
  {
    && peg.steps(proofs[j]).Some?
    && var e := peg.steps(proofs[j]).value;
       out.boxIds[j] == e.boxId && credits[j] == e.potCredit && peg.note(e) == Some(out.leaves[j])
  }

  lemma PegOutStep(peg: PegConfig, proofs: seq<PegProof>, n: nat, out: PegOut, credits: seq<nat>, e: PegEffect,
                   leaf: Point)
    requires n < |proofs| && IsPegOut(peg, proofs, n, out, credits)
    requires peg.steps(proofs[n]) == Some(e) && peg.note(e) == Some(leaf)
    ensures IsPegOut(peg, proofs, n + 1,
                     PegOut(out.leaves + [leaf], out.boxIds + [e.boxId], Min(out.credit + e.potCredit, U128_MAX)),
                     credits + [e.potCredit])
  {
    var out' := PegOut(out.leaves + [leaf], out.boxIds + [e.boxId], Min(out.credit + e.potCredit, U128_MAX));
    var credits' := credits + [e.potCredit];
    forall j | 0 <= j < n + 1 ensures PegOutAt(peg, proofs, out', credits', j) {
      if j < n {
        assert PegOutAt(peg, proofs, out, credits, j);
      }
    }
    assert credits'[..|credits'| - 1] == credits;
  }

  // The receipts so far are those of the proofs so far.
  lemma PassesIffNew(peg: PegConfig, start: set<Hash>, proofs: seq<PegProof>, n: nat, out: PegOut, credits: seq<nat>)
    requires n < |proofs| && IsPegOut(peg, proofs, n, out, credits)
    ensures MintPasses(peg, start, proofs, n) <==>
              peg.steps(proofs[n]).Some? && peg.steps(proofs[n]).value.boxId !in start + Elems(out.boxIds)
  {
    forall j | 0 <= j < n ensures peg.steps(proofs[j]).Some? && out.boxIds[j] == peg.steps(proofs[j]).value.boxId {
      assert PegOutAt(peg, proofs, out, credits, j);
    }
  }

  lemma {:induction false} RunPegMintsMeans(peg: PegConfig, start: set<Hash>, proofs: seq<PegProof>, n: nat,
                                            out: PegOut, credits: seq<nat>)
    returns (all: seq<nat>)
    requires n <= |proofs| && IsPegOut(peg, proofs, n, out, credits) && Mints(peg, start, proofs, n)
    ensures match RunPegMints(peg, start + Elems(out.boxIds), proofs, n, out)
      case Ok(total) => Mints(peg, start, proofs, |proofs|) && IsPegOut(peg, proofs, |proofs|, total, all)
      case Err(PegMint(i)) => i < |proofs| && Mints(peg, start, proofs, i) && !MintPasses(peg, start, proofs, i)
      case Err(PegBadDest(i)) =>
        && i < |proofs| && Mints(peg, start, proofs, i)
        && MintPasses(peg, start, proofs, i) && !MintHasNote(peg, proofs, i)
      case Err(_) => false
    decreases |proofs| - n
  {
    hide MintPasses, IsPegOut;
    all := credits;
    if n < |proofs| {
      PassesIffNew(peg, start, proofs, n, out, credits);
      var verdict := VerifyPegMint(peg, proofs[n], start + Elems(out.boxIds));
      if verdict.Some? && peg.note(verdict.value).Some? {
        var e := verdict.value;
        var leaf := peg.note(e).value;
        PegOutStep(peg, proofs, n, out, credits, e, leaf);
        assert start + Elems(out.boxIds) + {e.boxId} == start + Elems(out.boxIds + [e.boxId]);
        all := RunPegMintsMeans(peg, start, proofs, n + 1,
                 PegOut(out.leaves + [leaf], out.boxIds + [e.boxId], Min(out.credit + e.potCredit, U128_MAX)),
                 credits + [e.potCredit]);
      }
    }
  }

  lemma NoMintsYet(peg: PegConfig, start: set<Hash>, proofs: seq<PegProof>)
    ensures IsPegOut(peg, proofs, 0, NO_PEGS, []) && Mints(peg, start, proofs, 0)
    ensures start + Elems(NO_PEGS.boxIds) == start
  {
  }

  /* ---------- the whole content ---------- */

  /** Refused content: the error is the first one in the order of the checks, with its place. */
  lemma RefusedContent(r: Rules, s: State, txs: seq<Transfer>, proofs: seq<PegProof>, reward: RewardMode)
    ensures match Plan(r, s, txs, proofs, reward)
      case Err(e) => Refuses(r, s, txs, proofs, e)
      case Ok(_) => Admits(r, s, txs, proofs)
  {
    hide FirstBadOutput, FirstDoubleSpend, RunPegMints, NewPot, OutputLeaves, Nullifiers;
    FirstBadOutputMeans(r, txs, 0);
    assert UsedBefore(s.nullifiers, txs, 0) == s.nullifiers;
    FirstDoubleSpendMeans(s.nullifiers, txs, 0);
    if proofs != [] && r.peg.Some? {
      NoMintsYet(r.peg.value, s.pegUsed, proofs);
      var credits := RunPegMintsMeans(r.peg.value, s.pegUsed, proofs, 0, NO_PEGS, []);
    }
  }

  // Content is refused with at most one error, and not if it is admitted.
  lemma RefusalIsUnique(r: Rules, s: State, txs: seq<Transfer>, proofs: seq<PegProof>, e: StateError, f: StateError)
    requires Refuses(r, s, txs, proofs, e)
    ensures !Admits(r, s, txs, proofs)
    ensures Refuses(r, s, txs, proofs, f) ==> e == f
  {
    hide MintPasses, MintHasNote, BothDecode;
    if e.DoubleSpend? {
      var p :| 0 <= p < 2 * |txs| && NullifierAt(txs, p) == e.nf && Unspent(s.nullifiers, txs, p)
               && !Unspent(s.nullifiers, txs, p + 1);
      if f.DoubleSpend? && Refuses(r, s, txs, proofs, f) {
        var q :| 0 <= q < 2 * |txs| && NullifierAt(txs, q) == f.nf && Unspent(s.nullifiers, txs, q)
                 && !Unspent(s.nullifiers, txs, q + 1);
        FirstRepeat(s.nullifiers, txs, p, q);
      }
    }
  }

  lemma FirstRepeat(used: set<Nullifier>, txs: seq<Transfer>, p: nat, q: nat)
    requires p < 2 * |txs| && q < 2 * |txs|
    requires Unspent(used, txs, p) && !Unspent(used, txs, p + 1)
    requires Unspent(used, txs, q) && !Unspent(used, txs, q + 1)
    ensures p == q
  {
  }

  lemma PotMovesMeans(r: Rules, pot: nat, n: nat, reward: RewardMode, credit: nat)
    ensures PotMoves(r, pot, n, reward.Minted?, credit, NewPot(r, pot, n, reward, Min(credit, U128_MAX)))
  {
    assert r.rTarget + r.rTarget * n == r.rTarget * (n + 1);
  }

  lemma NoCredits(credits: seq<nat>)
    requires credits == []
    ensures Sum(credits) == 0
  {
  }

  // The peg-mints of admitted content, with their credits.
  lemma AdmittedMints(r: Rules, s: State, proofs: seq<PegProof>) returns (credits: seq<nat>)
    requires PegMints(r, s.pegUsed, proofs).Ok?
    ensures var out := PegMints(r, s.pegUsed, proofs).value;
      && |out.boxIds| == |out.leaves| == |credits| == |proofs|
      && (forall j | 0 <= j < |proofs| :: r.peg.Some? && PegOutAt(r.peg.value, proofs, out, credits, j))
      && Min(out.credit, U64_MAX) == Min(Sum(credits), U64_MAX) && out.credit == Min(Sum(credits), U128_MAX)
  {
    hide RunPegMints;
    credits := [];
    NoCredits(credits);
    if proofs != [] {
      NoMintsYet(r.peg.value, s.pegUsed, proofs);
      credits := RunPegMintsMeans(r.peg.value, s.pegUsed, proofs, 0, NO_PEGS, []);
    }
  }

  /** Admitted content: every part of the state after it. */
  lemma AdmittedContent(r: Rules, s: State, txs: seq<Transfer>, proofs: seq<PegProof>, reward: RewardMode)
    requires Plan(r, s, txs, proofs, reward).Ok?
    ensures Becomes(r, s, txs, proofs, reward, Commit(r, s, Plan(r, s, txs, proofs, reward).value))
  {
    hide FirstDoubleSpend, RunPegMints, NewPot, OutputLeaves, Nullifiers, PotMoves, Sum;
    var e := Plan(r, s, txs, proofs, reward).value;
    FirstBadOutputMeans(r, txs, 0);
    var credits := AdmittedMints(r, s, proofs);
    OutputLeavesMean(r, txs);
    NullifiersMean(txs);
    var c := Content(e.nfs, e.pegs.boxIds, credits, e.leaves);
    forall j | 0 <= j < |proofs| ensures MintContent(r, txs, proofs, c, j) {
      assert PegOutAt(r.peg.value, proofs, e.pegs, credits, j);
      assert e.leaves[2 * |txs| + j] == e.pegs.leaves[j];
    }
    forall i | 0 <= i < |txs| ensures TransferLeaves(r, txs, c, i) {
    }
    assert IsContent(r, txs, proofs, reward, c);
    assert Adds(r, s, c, Commit(r, s, e));
    PotMovesMeans(r, s.pot, |txs|, reward, Sum(credits));
  }

  // Content is determined position by position.
  lemma ContentIsUnique(r: Rules, txs: seq<Transfer>, proofs: seq<PegProof>, reward: RewardMode, c: Content, d: Content)
    requires IsContent(r, txs, proofs, reward, c) && IsContent(r, txs, proofs, reward, d)
    ensures c == d
  {
    assert c.nfs == d.nfs;
    forall j | 0 <= j < |proofs|
      ensures c.boxIds[j] == d.boxIds[j] && c.credits[j] == d.credits[j]
    {
      assert MintContent(r, txs, proofs, c, j) && MintContent(r, txs, proofs, d, j);
    }
    forall p | 0 <= p < 2 * |txs| ensures c.leaves[p] == d.leaves[p] {
      assert TransferLeaves(r, txs, c, p / 2) && TransferLeaves(r, txs, d, p / 2);
      assert p == 2 * (p / 2) || p == 2 * (p / 2) + 1;
    }
    forall p | 0 <= p < |c.leaves| ensures c.leaves[p] == d.leaves[p] {
      if 2 * |txs| <= p < 2 * |txs| + |proofs| {
        var j := p - 2 * |txs|;
        assert MintContent(r, txs, proofs, c, j) && MintContent(r, txs, proofs, d, j);
        assert c.leaves[2 * |txs| + j] == d.leaves[2 * |txs| + j];
      }
    }
    assert c.boxIds == d.boxIds && c.credits == d.credits && c.leaves == d.leaves;
  }

  /** The description of the state after content leaves nothing open. */
  lemma BecomesIsUnique(r: Rules, s: State, txs: seq<Transfer>, proofs: seq<PegProof>, reward: RewardMode, a: State,
                        b: State)
    requires Becomes(r, s, txs, proofs, reward, a) && Becomes(r, s, txs, proofs, reward, b)
    ensures a == b
  {
    hide IsContent;
    var c :| IsContent(r, txs, proofs, reward, c) && Adds(r, s, c, a)
             && PotMoves(r, s.pot, |txs|, reward.Minted?, Sum(c.credits), a.pot);
    var d :| IsContent(r, txs, proofs, reward, d) && Adds(r, s, d, b)
             && PotMoves(r, s.pot, |txs|, reward.Minted?, Sum(d.credits), b.pot);
    ContentIsUnique(r, txs, proofs, reward, c, d);
    assert a.nullifiers == b.nullifiers && a.pegUsed == b.pegUsed;
  }

  /* ---------- the coinbase draw ---------- */

  /** A block without transfers draws one target, and every further transfer raises the draw by exactly
      one more, while the fee-credited pot covers it and nothing is clipped; when it does not cover it, the
      coinbase empties the pot. */
  lemma OneMoreTransfer(r: Rules, s: State, txs: seq<Transfer>, t: Transfer, cm: Point, s1: State, s2: State)
    requires Becomes(r, s, txs, [], Minted(cm), s1) && Becomes(r, s, txs + [t], [], Minted(cm), s2)
    requires s.pot + r.scTxFee * (|txs| + 1) <= U64_MAX
    ensures var paid1 := s.pot + r.scTxFee * |txs|; var paid2 := paid1 + r.scTxFee;
      && (txs == [] && r.rTarget <= s.pot ==> s.pot - s1.pot == r.rTarget)
      && (r.rTarget * (|txs| + 1) <= paid1 && r.rTarget * (|txs| + 2) <= paid2 ==>
            paid2 - s2.pot == paid1 - s1.pot + r.rTarget)
      && (r.rTarget * (|txs| + 1) >= paid1 ==> s1.pot == 0)
  {
    var n := |txs|;
    assert r.scTxFee * (n + 1) == r.scTxFee * n + r.scTxFee;
    assert r.rTarget * (n + 2) == r.rTarget * (n + 1) + r.rTarget;
    NoCredits([]);
  }
}
