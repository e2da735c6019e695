/** The shielded state: which nullifiers and peg receipts are used up, what the emission pot
    holds, and the leaves and digest that headers commit to. Applying a block and rolling it back are
    exact inverses, and a refused block leaves the state untouched. */
module ShieldedStates {
  import opened Common
  import opened Blocks

  datatype RewardMode = NoReward | Minted(cm: Point)

  datatype StateError =
    | DoubleSpend(nf: Nullifier)
    | InvalidNoteCommitment(txIndex: nat)
    | PegDisabled
    | PegMint(index: nat)
    | PegBadDest(index: nat)

  // The logical state: what equality of two states compares.
  datatype State = State(
    nullifiers: set<Nullifier>,
    pegUsed: set<Hash>,
    pot: nat,
    digest: Hash,
    leaves: seq<Point>,
    root: Hash)

  datatype BlockUndo = BlockUndo(
    addedNullifiers: seq<Nullifier>,
    addedBoxIds: seq<Hash>,
    prevPot: nat,
    prevDigest: Hash,
    prevLeafCount: nat,
    prevRoot: Hash)

  const EMPTY_STATE: State := State({}, {}, 0, EMPTY_NULLIFIER_DIGEST, [], EMPTY_TREE_ROOT)

  /* ---------- what a block does to the state, as a value ---------- */

  // The effect of an admissible block: everything it adds, and the resulting pot.
  datatype Effect = Effect(nfs: seq<Nullifier>, pegs: PegOut, leaves: seq<Point>, pot: nat)

  datatype PegOut = PegOut(leaves: seq<Point>, boxIds: seq<Hash>, credit: nat)

  function Elems<T>(s: seq<T>): set<T> {
    set x | x in s
  }

  predicate Decodes(r: Rules, tx: Transfer) {
    r.prim.decodeCm(tx.out0.noteCm).Some? && r.prim.decodeCm(tx.out1.noteCm).Some?
  }

  // The first transfer one of whose outputs does not decode.
  function FirstBadOutput(r: Rules, txs: seq<Transfer>, i: nat): Option<nat>
    requires i <= |txs|
    decreases |txs| - i
  {
    if i == |txs| then None
    else if !Decodes(r, txs[i]) then Some(i)
    else FirstBadOutput(r, txs, i + 1)
  }

  function OutputPoints(r: Rules, tx: Transfer): seq<Point> {
    match (r.prim.decodeCm(tx.out0.noteCm), r.prim.decodeCm(tx.out1.noteCm))
    case (Some(p), Some(q)) => [p, q]
    case _ => []
  }

  function OutputLeaves(r: Rules, txs: seq<Transfer>): seq<Point> {
    if txs == [] then [] else OutputLeaves(r, txs[..|txs| - 1]) + OutputPoints(r, txs[|txs| - 1])
  }

  function Nullifiers(txs: seq<Transfer>): seq<Nullifier> {
    if txs == [] then [] else Nullifiers(txs[..|txs| - 1]) + [txs[|txs| - 1].nf0, txs[|txs| - 1].nf1]
  }

  // The first nullifier, in transfer-then-slot order, that is already used.
  function FirstDoubleSpend(used: set<Nullifier>, txs: seq<Transfer>, i: nat): Option<Nullifier>
    requires i <= |txs|
    decreases |txs| - i
  {
    if i == |txs| then None
    else if txs[i].nf0 in used then Some(txs[i].nf0)
    else if txs[i].nf1 in used + {txs[i].nf0} then Some(txs[i].nf1)
    else FirstDoubleSpend(used + {txs[i].nf0, txs[i].nf1}, txs, i + 1)
  }

  // The peg verifier: the opaque checks first, the used-set lookup last.
  function VerifyPegMint(peg: PegConfig, proof: PegProof, used: set<Hash>): Option<PegEffect> {
    match peg.steps(proof)
    case Some(e) => if e.boxId in used then None else Some(e)
    case None => None
  }

  function SatAdd128(a: nat, b: nat): nat {
    Min(a + b, U128_MAX)
  }

  // Verify the peg-mints from the i-th on, each against the receipts used so far.
  function RunPegMints(peg: PegConfig, used: set<Hash>, proofs: seq<PegProof>, i: nat, acc: PegOut)
    : Result<PegOut, StateError>
    requires i <= |proofs|
    decreases |proofs| - i
  {
    if i == |proofs| then Ok(acc)
    else match VerifyPegMint(peg, proofs[i], used)
      case None => Err(PegMint(i))
      case Some(e) =>
        match peg.note(e)
        case None => Err(PegBadDest(i))
        case Some(leaf) =>
          RunPegMints(peg, used + {e.boxId}, proofs, i + 1,
            PegOut(acc.leaves + [leaf], acc.boxIds + [e.boxId], SatAdd128(acc.credit, e.potCredit)))
  }

  const NO_PEGS: PegOut := PegOut([], [], 0)

  function PegMints(r: Rules, used: set<Hash>, proofs: seq<PegProof>): Result<PegOut, StateError> {
    if proofs == [] then Ok(NO_PEGS)
    else match r.peg
      case None => Err(PegDisabled)
      case Some(peg) => RunPegMints(peg, used, proofs, 0, NO_PEGS)
  }

  function PotAfterFees(r: Rules, pot: nat, nTxs: nat): nat {
    SatAdd(pot, SatMul(r.scTxFee, nTxs))
  }

  // One target for the block and one for each transfer, as far as the pot reaches.
  function CoinbaseReward(r: Rules, pot: nat, nTxs: nat): nat {
    Min(SatAdd(r.rTarget, SatMul(r.rTarget, nTxs)), pot)
  }

  /** The coinbase draw: fees are credited first, then the capped reward is taken.
      It can never exceed the fee-credited pot, so the later subtraction is safe. */
  function ExpectedCoinbaseValue(r: Rules, pot: nat, nTxs: nat): (v: nat)
    ensures v <= PotAfterFees(r, pot, nTxs)
    ensures v <= U64_MAX
    ensures pot + r.scTxFee * nTxs <= U64_MAX ==> v == Min(r.rTarget * (nTxs + 1), pot + r.scTxFee * nTxs)
  {
    assert r.rTarget + r.rTarget * nTxs == r.rTarget * (nTxs + 1);
    CoinbaseReward(r, PotAfterFees(r, pot, nTxs), nTxs)
  }

  function Drawn(r: Rules, pot: nat, nTxs: nat, reward: RewardMode): (v: nat)
    ensures v <= PotAfterFees(r, pot, nTxs)
  {
    if reward.Minted? then ExpectedCoinbaseValue(r, pot, nTxs) else 0
  }

  function NewPot(r: Rules, pot: nat, nTxs: nat, reward: RewardMode, credit: nat): nat {
    SatAdd(PotAfterFees(r, pot, nTxs) - Drawn(r, pot, nTxs, reward), Min(credit, U64_MAX))
  }

  // Admissibility of a block's content against a state, and its effect.
  function Plan(r: Rules, s: State, txs: seq<Transfer>, proofs: seq<PegProof>, reward: RewardMode)
    : Result<Effect, StateError>
  {
    match FirstBadOutput(r, txs, 0)
    case Some(i) => Err(InvalidNoteCommitment(i))
    case None =>
      match FirstDoubleSpend(s.nullifiers, txs, 0)
      case Some(nf) => Err(DoubleSpend(nf))
      case None =>
        match PegMints(r, s.pegUsed, proofs)
        case Err(e) => Err(e)
        case Ok(pegs) =>
          Ok(Effect(
               Nullifiers(txs),
               pegs,
               OutputLeaves(r, txs) + pegs.leaves + (if reward.Minted? then [reward.cm] else []),
               NewPot(r, s.pot, |txs|, reward, pegs.credit)))
  }

  function Commit(r: Rules, s: State, e: Effect): State {
    State(
      s.nullifiers + Elems(e.nfs),
      s.pegUsed + Elems(e.pegs.boxIds),
      e.pot,
      if e.nfs == [] && e.pegs.boxIds == [] then s.digest else r.prim.foldDigest(s.digest, e.nfs, e.pegs.boxIds),
      s.leaves + e.leaves,
      if e.leaves == [] then s.root else r.CmRoot(s.leaves + e.leaves))
  }

  function UndoOf(s: State, e: Effect): BlockUndo {
    BlockUndo(e.nfs, e.pegs.boxIds, s.pot, s.digest, |s.leaves|, s.root)
  }

  // What rolling back does, whatever the undo record says.
  function Rewind(s: State, u: BlockUndo): State {
    State(
      s.nullifiers - Elems(u.addedNullifiers),
      s.pegUsed - Elems(u.addedBoxIds),
      u.prevPot,
      u.prevDigest,
      if u.prevLeafCount <= |s.leaves| then s.leaves[..u.prevLeafCount] else s.leaves,
      u.prevRoot)
  }

  /* ---------- laws ---------- */

  predicate Distinct<T(==)>(s: seq<T>) {
    forall i, j | 0 <= i < j < |s| :: s[i] != s[j]
  }

  // Every element of s is new to `used` and occurs once.
  predicate Fresh<T(==)>(s: seq<T>, used: set<T>) {
    Distinct(s) && forall x | x in s :: x !in used
  }

  lemma FreshAppend<T>(s: seq<T>, used: set<T>, x: T)
    requires Fresh(s, used)
    ensures Fresh(s + [x], used) <==> x !in used + Elems(s)
  {
    if x in used + Elems(s) {
      if x in s {
        var i :| 0 <= i < |s| && s[i] == x;
        assert (s + [x])[i] == (s + [x])[|s|];
      } else {
        assert (s + [x])[|s|] == x;
      }
    }
  }

  lemma DistinctConcat<T>(a: seq<T>, b: seq<T>)
    requires Distinct(a) && Fresh(b, Elems(a))
    ensures Distinct(a + b) && Elems(a + b) == Elems(a) + Elems(b)
  {
    forall i, j | 0 <= i < j < |a + b| ensures (a + b)[i] != (a + b)[j] {
      if i < |a| <= j {
        assert a[i] in Elems(a) && b[j - |a|] in b;
      }
    }
  }

  /** No double spend is reported exactly when all nullifiers of the block are new and distinct. */
  lemma {:induction false} NoDoubleSpendIffFresh(used: set<Nullifier>, txs: seq<Transfer>, i: nat)
    requires i <= |txs|
    requires Fresh(Nullifiers(txs[..i]), used)
    ensures FirstDoubleSpend(used + Elems(Nullifiers(txs[..i])), txs, i).None?
       <==> Fresh(Nullifiers(txs), used)
    decreases |txs| - i
  {
    if i == |txs| {
      assert txs[..i] == txs;
    } else {
      var before := Nullifiers(txs[..i]);
      var tx := txs[i];
      assert txs[..i + 1][..i] == txs[..i];
      assert Nullifiers(txs[..i + 1]) == (before + [tx.nf0]) + [tx.nf1];
      FreshAppend(before, used, tx.nf0);
      var seen := used + Elems(before);
      if tx.nf0 in seen {
        NotFreshPrefix(used, txs, i + 1, before + [tx.nf0]);
      } else {
        FreshAppend(before + [tx.nf0], used, tx.nf1);
        assert used + Elems(before + [tx.nf0]) == seen + {tx.nf0};
        if tx.nf1 in seen + {tx.nf0} {
          NotFreshPrefix(used, txs, i + 1, Nullifiers(txs[..i + 1]));
        } else {
          assert used + Elems(Nullifiers(txs[..i + 1])) == seen + {tx.nf0, tx.nf1};
          NoDoubleSpendIffFresh(used, txs, i + 1);
        }
      }
    }
  }

  lemma {:induction false} NullifiersPrefix(txs: seq<Transfer>, i: nat)
    requires i <= |txs|
    ensures Nullifiers(txs[..i]) <= Nullifiers(txs)
    decreases |txs| - i
  {
    if i == |txs| {
      assert txs[..i] == txs;
    } else {
      assert txs[..i + 1][..i] == txs[..i];
      NullifiersPrefix(txs, i + 1);
    }
  }

  lemma NotFreshPrefix(used: set<Nullifier>, txs: seq<Transfer>, i: nat, p: seq<Nullifier>)
    requires i <= |txs| && p <= Nullifiers(txs[..i])
    requires !Fresh(p, used)
    ensures !Fresh(Nullifiers(txs), used)
  {
    NullifiersPrefix(txs, i);
    var all := Nullifiers(txs);
    assert p <= all;
    if Fresh(all, used) {
      forall x | x in p ensures x !in used {
        var k :| 0 <= k < |p| && p[k] == x;
        assert all[k] == x;
      }
      assert Distinct(p);
    }
  }

  // The receipt each proof mints against, and the pot credit it carries.
  function ReceiptIds(peg: PegConfig, proofs: seq<PegProof>): seq<Hash> {
    if proofs == [] then [] else
      ReceiptIds(peg, proofs[..|proofs| - 1]) +
      (match peg.steps(proofs[|proofs| - 1]) case Some(e) => [e.boxId] case None => [])
  }

  function TotalCredit(peg: PegConfig, proofs: seq<PegProof>): nat {
    if proofs == [] then 0 else
      TotalCredit(peg, proofs[..|proofs| - 1]) +
      (match peg.steps(proofs[|proofs| - 1]) case Some(e) => e.potCredit case None => 0)
  }

  /** Accepted peg-mints consume distinct receipts that are new to the used-set, add one leaf
      each, and credit their total, clipped only at the width of the accumulator. */
  lemma {:induction false} PegMintsLaw(peg: PegConfig, start: set<Hash>, proofs: seq<PegProof>, i: nat, acc: PegOut)
    requires i <= |proofs|
    requires Fresh(acc.boxIds, start) && acc.boxIds == ReceiptIds(peg, proofs[..i])
    requires |acc.boxIds| == |acc.leaves| == i
    requires acc.credit == Min(TotalCredit(peg, proofs[..i]), U128_MAX)
    ensures var out := RunPegMints(peg, start + Elems(acc.boxIds), proofs, i, acc);
      out.Ok? ==>
        && Fresh(out.value.boxIds, start)
        && out.value.boxIds == ReceiptIds(peg, proofs)
        && |out.value.boxIds| == |out.value.leaves| == |proofs|
        && out.value.credit == Min(TotalCredit(peg, proofs), U128_MAX)
    decreases |proofs| - i
  {
    var used := start + Elems(acc.boxIds);
    if i == |proofs| {
      assert proofs[..i] == proofs;
    } else {
      var verdict := VerifyPegMint(peg, proofs[i], used);
      if verdict.Some? && peg.note(verdict.value).Some? {
        var e := verdict.value;
        FreshAppend(acc.boxIds, start, e.boxId);
        var acc' := PegOut(acc.leaves + [peg.note(e).value], acc.boxIds + [e.boxId],
                           SatAdd128(acc.credit, e.potCredit));
        assert used + {e.boxId} == start + Elems(acc'.boxIds);
        assert proofs[..i + 1][..i] == proofs[..i];
        PegMintsLaw(peg, start, proofs, i + 1, acc');
      }
    }
  }

  // The receipts and the credit of a block's peg-mints (none without a peg context).
  function Receipts(r: Rules, proofs: seq<PegProof>): seq<Hash> {
    match r.peg case Some(peg) => ReceiptIds(peg, proofs) case None => []
  }

  function Credit(r: Rules, proofs: seq<PegProof>): nat {
    match r.peg case Some(peg) => TotalCredit(peg, proofs) case None => 0
  }

  lemma {:induction false} OutputLeavesCount(r: Rules, txs: seq<Transfer>)
    requires forall i | 0 <= i < |txs| :: Decodes(r, txs[i])
    ensures |OutputLeaves(r, txs)| == 2 * |txs|
  {
    if txs != [] {
      assert Decodes(r, txs[|txs| - 1]);
      var rest := txs[..|txs| - 1];
      forall i | 0 <= i < |rest| ensures Decodes(r, rest[i]) {
        assert rest[i] == txs[i];
      }
      OutputLeavesCount(r, rest);
    }
  }

  lemma {:induction false} NoBadOutputs(r: Rules, txs: seq<Transfer>, i: nat)
    requires i <= |txs|
    ensures FirstBadOutput(r, txs, i).None? <==> forall k | i <= k < |txs| :: Decodes(r, txs[k])
    decreases |txs| - i
  {
    if i < |txs| {
      NoBadOutputs(r, txs, i + 1);
    }
  }

  /** A block's content is admissible exactly when every output is a canonical point, every
      nullifier is new and distinct, and the peg-mints verify. It then adds two leaves per
      transfer, one per peg-mint and one for a coinbase note. */
  lemma AcceptedEffect(r: Rules, s: State, txs: seq<Transfer>, proofs: seq<PegProof>, reward: RewardMode)
    ensures Plan(r, s, txs, proofs, reward).Ok? <==>
      && (forall k | 0 <= k < |txs| :: Decodes(r, txs[k]))
      && Fresh(Nullifiers(txs), s.nullifiers)
      && PegMints(r, s.pegUsed, proofs).Ok?
    ensures Plan(r, s, txs, proofs, reward).Ok? ==>
      var e := Plan(r, s, txs, proofs, reward).value;
      && e.pegs.boxIds == Receipts(r, proofs)
      && Fresh(e.pegs.boxIds, s.pegUsed)
      && |e.leaves| == 2 * |txs| + |proofs| + (if reward.Minted? then 1 else 0)
      && e.pot == NewPot(r, s.pot, |txs|, reward, Min(Credit(r, proofs), U128_MAX))
  {
    assert txs[..0] == [];
    assert s.nullifiers + Elems(Nullifiers(txs[..0])) == s.nullifiers;
    NoDoubleSpendIffFresh(s.nullifiers, txs, 0);
    NoBadOutputs(r, txs, 0);
    if forall k | 0 <= k < |txs| :: Decodes(r, txs[k]) {
      OutputLeavesCount(r, txs);
    }
    if proofs != [] && r.peg.Some? {
      assert s.pegUsed == s.pegUsed + Elems(NO_PEGS.boxIds);
      assert proofs[..0] == [];
      PegMintsLaw(r.peg.value, s.pegUsed, proofs, 0, NO_PEGS);
    }
  }

  /** Rolling back the undo record of an accepted block restores the state exactly. */
  lemma RewindInvertsCommit(r: Rules, s: State, txs: seq<Transfer>, proofs: seq<PegProof>, reward: RewardMode)
    requires Plan(r, s, txs, proofs, reward).Ok?
    ensures var e := Plan(r, s, txs, proofs, reward).value;
      Rewind(Commit(r, s, e), UndoOf(s, e)) == s
  {
    AcceptedEffect(r, s, txs, proofs, reward);
    var e := Plan(r, s, txs, proofs, reward).value;
    assert s.nullifiers + Elems(e.nfs) - Elems(e.nfs) == s.nullifiers;
    assert s.pegUsed + Elems(e.pegs.boxIds) - Elems(e.pegs.boxIds) == s.pegUsed;
    assert (s.leaves + e.leaves)[..|s.leaves|] == s.leaves;
  }

  /* ---------- the mutable state ---------- */

  class ShieldedState {
    const rules: Rules
    var nullifiers: set<Nullifier>
    var pegUsed: set<Hash>
    var pot: nat
    var digest: Hash
    var cmLeaves: seq<Point>
    // The incrementally maintained tree, identified with the leaves it was built from.
    var cmTree: seq<Point>
    var cmRoot: Hash

    ghost predicate Valid()
      reads this
    {
      cmTree == cmLeaves
    }

    function View(): State
      reads this
    {
      State(nullifiers, pegUsed, pot, digest, cmLeaves, cmRoot)
    }

    constructor (rules: Rules)
      ensures Valid() && View() == EMPTY_STATE && this.rules == rules
    {
      this.rules := rules;
      nullifiers, pegUsed, pot := {}, {}, 0;
      digest, cmLeaves, cmTree, cmRoot := EMPTY_NULLIFIER_DIGEST, [], [], EMPTY_TREE_ROOT;
    }

    constructor Clone(other: ShieldedState)
      requires other.Valid()
      ensures Valid() && View() == other.View() && rules == other.rules
    {
      rules := other.rules;
      nullifiers, pegUsed, pot := other.nullifiers, other.pegUsed, other.pot;
      digest, cmLeaves, cmTree, cmRoot := other.digest, other.cmLeaves, other.cmTree, other.cmRoot;
    }

    method DecodeOutputs(txs: seq<Transfer>) returns (res: Result<seq<Point>, StateError>)
      ensures match FirstBadOutput(rules, txs, 0)
        case Some(i) => res == Err(InvalidNoteCommitment(i))
        case None => res == Ok(OutputLeaves(rules, txs))
    {
      var leaves: seq<Point> := [];
      for i := 0 to |txs|
        invariant FirstBadOutput(rules, txs, 0) == FirstBadOutput(rules, txs, i)
        invariant leaves == OutputLeaves(rules, txs[..i])
      {
        match rules.prim.decodeCm(txs[i].out0.noteCm) {
          case None => return Err(InvalidNoteCommitment(i));
          case Some(p) => leaves := leaves + [p];
        }
        match rules.prim.decodeCm(txs[i].out1.noteCm) {
          case None => return Err(InvalidNoteCommitment(i));
          case Some(q) => leaves := leaves + [q];
        }
        assert txs[..i + 1][..i] == txs[..i];
      }
      assert txs[..|txs|] == txs;
      return Ok(leaves);
    }

    // The block's nullifiers, or the first one that is already used.
    method CollectNullifiers(txs: seq<Transfer>) returns (res: Result<seq<Nullifier>, StateError>)
      ensures match FirstDoubleSpend(nullifiers, txs, 0)
        case Some(nf) => res == Err(DoubleSpend(nf))
        case None => res == Ok(Nullifiers(txs))
    {
      var nfs: seq<Nullifier> := [];
      var seen: set<Nullifier> := {};
      assert nullifiers + {} == nullifiers;
      for i := 0 to |txs|
        invariant FirstDoubleSpend(nullifiers, txs, 0) == FirstDoubleSpend(nullifiers + seen, txs, i)
        invariant nfs == Nullifiers(txs[..i])
      {
        ghost var used := nullifiers + seen;
        if txs[i].nf0 in nullifiers || txs[i].nf0 in seen {
          return Err(DoubleSpend(txs[i].nf0));
        }
        seen := seen + {txs[i].nf0};
        nfs := nfs + [txs[i].nf0];
        if txs[i].nf1 in nullifiers || txs[i].nf1 in seen {
          return Err(DoubleSpend(txs[i].nf1));
        }
        seen := seen + {txs[i].nf1};
        nfs := nfs + [txs[i].nf1];
        assert nullifiers + seen == used + {txs[i].nf0, txs[i].nf1};
        assert txs[..i + 1][..i] == txs[..i];
      }
      assert txs[..|txs|] == txs;
      return Ok(nfs);
    }

    method CheckPegMints(proofs: seq<PegProof>) returns (res: Result<PegOut, StateError>)
      ensures res == PegMints(rules, pegUsed, proofs)
    {
      if proofs == [] {
        return Ok(NO_PEGS);
      }
      if rules.peg.None? {
        return Err(PegDisabled);
      }
      var peg := rules.peg.value;
      var working := pegUsed;
      var out := NO_PEGS;
      for i := 0 to |proofs|
        invariant RunPegMints(peg, pegUsed, proofs, 0, NO_PEGS) == RunPegMints(peg, working, proofs, i, out)
      {
        var verdict := VerifyPegMint(peg, proofs[i], working);
        if verdict.None? {
          return Err(PegMint(i));
        }
        var effect := verdict.value;
        var leaf := peg.note(effect);
        if leaf.None? {
          return Err(PegBadDest(i));
        }
        working := working + {effect.boxId};
        out := PegOut(out.leaves + [leaf.value], out.boxIds + [effect.boxId], SatAdd128(out.credit, effect.potCredit));
      }
      return Ok(out);
    }

    /** The state after a block's content, with the record that undoes it, or an error and no change. */
    method ApplyBlock(txs: seq<Transfer>, proofs: seq<PegProof>, reward: RewardMode)
      returns (res: Result<BlockUndo, StateError>)
      requires Valid()
      modifies this
      ensures Valid()
      ensures match Plan(rules, old(View()), txs, proofs, reward)
        case Err(e) => res == Err(e) && View() == old(View())
        case Ok(e) => res == Ok(UndoOf(old(View()), e)) && View() == Commit(rules, old(View()), e)
      ensures var paid := old(pot) + rules.scTxFee * |txs|;
        res.Ok? && proofs == [] && paid <= U64_MAX ==>
          pot == if reward.Minted? then paid - Min(rules.rTarget * (|txs| + 1), paid) else paid
    {
      hide FirstBadOutput, FirstDoubleSpend, OutputLeaves, Nullifiers, RunPegMints, ExpectedCoinbaseValue;
      var decoded := DecodeOutputs(txs);
      if decoded.Err? {
        return Err(decoded.error);
      }
      var newLeaves := decoded.value;
      var spends := CollectNullifiers(txs);
      if spends.Err? {
        return Err(spends.error);
      }
      var nfs := spends.value;
      var pegRes := CheckPegMints(proofs);
      if pegRes.Err? {
        return Err(pegRes.error);
      }
      var pegs := pegRes.value;
      var undo := BlockUndo(nfs, pegs.boxIds, pot, digest, |cmLeaves|, cmRoot);
      if nfs != [] || pegs.boxIds != [] {
        digest := rules.prim.foldDigest(digest, nfs, pegs.boxIds);
      }
      nullifiers := nullifiers + Elems(nfs);
      pegUsed := pegUsed + Elems(pegs.boxIds);
      newLeaves := newLeaves + pegs.leaves;
      var potAfterFees := SatAdd(pot, SatMul(rules.scTxFee, |txs|));
      var coinbase := 0;
      match reward {
        case NoReward =>
          assert newLeaves + [] == newLeaves;
        case Minted(cm) =>
          newLeaves := newLeaves + [cm];
          coinbase := ExpectedCoinbaseValue(rules, pot, |txs|);
      }
      AppendLeaves(newLeaves);
      pot := SatAdd(potAfterFees - coinbase, Min(pegs.credit, U64_MAX));
      return Ok(undo);
    }

    // The new leaves go to the tree and to the list, and the root follows.
    method AppendLeaves(newLeaves: seq<Point>)
      requires Valid()
      modifies `cmTree, `cmLeaves, `cmRoot
      ensures Valid() && cmLeaves == old(cmLeaves) + newLeaves
      ensures cmRoot == if newLeaves == [] then old(cmRoot) else rules.CmRoot(cmLeaves)
    {
      if newLeaves == [] {
        return;
      }
      for i := 0 to |newLeaves|
        invariant cmTree == old(cmTree) + newLeaves[..i]
        invariant unchanged(`cmLeaves)
      {
        cmTree := cmTree + [newLeaves[i]];
      }
      cmLeaves := cmLeaves + newLeaves;
      RefreshCmRoot();
    }

    method RefreshCmRoot()
      modifies `cmRoot
      ensures cmRoot == if cmTree == [] then EMPTY_TREE_ROOT else rules.prim.treeRoot(cmTree)
    {
      cmRoot := rules.CmRoot(cmTree);
    }

    /** Rewind by an undo record; the inverse of the matching ApplyBlock (RewindInvertsCommit). */
    method Rollback(undo: BlockUndo)
      requires Valid()
      modifies this
      ensures Valid() && View() == Rewind(old(View()), undo)
    {
      nullifiers := nullifiers - Elems(undo.addedNullifiers);
      pegUsed := pegUsed - Elems(undo.addedBoxIds);
      pot := undo.prevPot;
      digest := undo.prevDigest;
      if undo.prevLeafCount <= |cmLeaves| {
        cmLeaves := cmLeaves[..undo.prevLeafCount];
      }
      cmTree := cmLeaves;
      cmRoot := undo.prevRoot;
    }
  }
}
