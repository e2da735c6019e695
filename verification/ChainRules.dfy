/** The rules of extension spelled out on headers, transfers, proofs and numbers: which block draws which
    answer, what an accepted chain has proved, and what a produced block looks like. */
module ChainRules {
  import opened Common
  import opened Blocks
  import opened ShieldedStates
  import opened StateLaws
  import opened Chains
  import opened ChainLaws

  /* ---------- the median by counting ---------- */

  // Those of the last eleven blocks that are older than t.
  ghost function Older(blocks: seq<Block>, t: nat): set<nat> {
    set i: nat | |blocks| - Min(|blocks|, 11) <= i < |blocks| && blocks[i].header.timestampMs < t
  }

  // More than half of the last eleven blocks, or of all while there are fewer, are older than t.
  ghost predicate MostAreOlder(blocks: seq<Block>, t: nat) {
    2 * |Older(blocks, t)| > Min(|blocks|, 11)
  }

  ghost predicate IsMedian(blocks: seq<Block>, m: nat) {
    forall t: nat :: m < t <==> MostAreOlder(blocks, t)
  }

  lemma {:induction false} CountIsCardinality(s: seq<nat>, t: nat)
    ensures |set i | 0 <= i < |s| && s[i] < t| == CountBelow(s, t)
    decreases |s|
  {
    var below := set i | 0 <= i < |s| && s[i] < t;
    if s == [] {
      assert below == {};
    } else {
      var rest, x := s[..|s| - 1], s[|s| - 1];
      CountIsCardinality(rest, t);
      CountAppend(rest, x, t);
      assert rest + [x] == s;
      var before := set i | 0 <= i < |rest| && rest[i] < t;
      assert below == if x < t then before + {|s| - 1} else before;
    }
  }

  // Shifting the indices of a set keeps its size.
  lemma {:induction false} ShiftKeepsSize(a: set<nat>, b: set<nat>, k: nat)
    requires forall i: nat :: i in b <==> i >= k && i - k in a
    ensures |a| == |b|
    decreases a
  {
    if a == {} {
      assert b == {};
    } else {
      var i :| i in a;
      assert i + k in b;
      ShiftKeepsSize(a - {i}, b - {i + k}, k);
    }
  }

  /** A timestamp is above the median exactly when most of the window is older: the median is the upper
      one of the last eleven timestamps. */
  lemma AboveMedianIff(blocks: seq<Block>, t: nat)
    requires blocks != []
    ensures MedianTimePast(blocks) < t <==> MostAreOlder(blocks, t)
  {
    var w := Window(blocks);
    var lo := |blocks| - Min(|blocks|, 11);
    var below := set i | 0 <= i < |w| && w[i] < t;
    SortLaw(w, t);
    RankLaw(Sort(w), |w| / 2, t);
    CountIsCardinality(w, t);
    forall i: nat ensures i in Older(blocks, t) <==> i >= lo && i - lo in below {
      if lo <= i < |blocks| {
        assert w[i - lo] == blocks[i].header.timestampMs;
      }
    }
    ShiftKeepsSize(below, Older(blocks, t), lo);
  }

  lemma MedianIsMedian(blocks: seq<Block>)
    requires blocks != []
    ensures IsMedian(blocks, MedianTimePast(blocks))
  {
    forall t: nat ensures MedianTimePast(blocks) < t <==> MostAreOlder(blocks, t) {
      AboveMedianIff(blocks, t);
    }
  }

  /* ---------- the answer to a block ---------- */

  // Timestamps and bits of the chain, oldest first.
  ghost predicate IsView(blocks: seq<Block>, v: seq<(nat, nat)>) {
    && |v| == |blocks|
    && forall i | 0 <= i < |v| :: v[i] == (blocks[i].header.timestampMs, blocks[i].header.scNbits)
  }

  ghost predicate WantsBits(r: Rules, blocks: seq<Block>, bits: nat) {
    exists v :: IsView(blocks, v) && r.retarget(v) == bits
  }

  predicate RootIs(r: Rules, txs: seq<Transfer>, root: Hash) {
    root == if txs == [] then EMPTY_TX_ROOT else r.prim.merkleRoot(txs)
  }

  // What a coinbase of a block with n transfers must be worth.
  predicate Worth(r: Rules, pot: nat, n: nat, value: nat) {
    value == Min(r.rTarget * (n + 1), Min(pot + r.scTxFee * n, 0xFFFF_FFFF_FFFF_FFFF))
  }

  ghost predicate MintProved(r: Rules, pot: nat, n: nat, proof: MintProof) {
    exists value :: Worth(r, pot, n, value) && r.prim.verifyMint(value, proof)
  }

  /** The n-th check on a block before its content is applied to the state `s`. */
  ghost predicate Check(r: Rules, blocks: seq<Block>, s: State, b: Block, now: nat, n: nat)
    requires blocks != []
  {
    var h, tip := b.header, blocks[|blocks| - 1].header;
    match n
    case 0 => h.version == 1
    case 1 => h.prevId == r.prim.headerId(tip)
    case 2 => h.height == tip.height + 1
    case 3 => MostAreOlder(blocks, h.timestampMs)
    case 4 => h.timestampMs <= now + 60_000
    case 5 => WantsBits(r, blocks, h.scNbits)
    case 6 => RootIs(r, b.body.transfers, h.txRoot)
    case 7 => r.proofMode == StubProofs || b.body.transfers == [] || s.leaves != []
    case 8 => r.proofMode == StubProofs || TransfersProved(r, s, b, |b.body.transfers|)
    case 9 => b.coinbase.Some? ==> MintProved(r, s.pot, |b.body.transfers|, b.coinbase.value)
    case 10 => b.coinbase.Some? ==> !r.prim.isIdentity(b.coinbase.value.cm)
    case 11 => h.rewardClaim == if b.coinbase.Some? then r.prim.encodeCm(b.coinbase.value.cm) else EMPTY_REWARD_CLAIM
    case 12 => EnvelopesDecode(r, b, |b.body.pegMints|)
    case _ => true
  }

  // The proofs of the first n transfers verify against the leaves before the block.
  ghost predicate TransfersProved(r: Rules, s: State, b: Block, n: nat)
    requires n <= |b.body.transfers|
  {
    forall i | 0 <= i < n :: r.prim.verifyTransfer(s.leaves, b.body.transfers[i], r.scTxFee)
  }

  ghost predicate EnvelopesDecode(r: Rules, b: Block, n: nat)
    requires n <= |b.body.pegMints|
  {
    forall i | 0 <= i < n :: r.prim.decodePeg(b.body.pegMints[i]).Some?
  }

  // The first n checks pass.
  ghost predicate Passes(r: Rules, blocks: seq<Block>, s: State, b: Block, now: nat, n: nat)
    requires blocks != []
  {
    forall k: nat | k < n :: Check(r, blocks, s, b, now, k)
  }

  ghost predicate FailsAt(r: Rules, blocks: seq<Block>, s: State, b: Block, now: nat, n: nat)
    requires blocks != []
  {
    Passes(r, blocks, s, b, now, n) && !Check(r, blocks, s, b, now, n)
  }

  ghost predicate AreProofs(r: Rules, b: Block, proofs: seq<PegProof>) {
    && |proofs| == |b.body.pegMints|
    && forall i | 0 <= i < |proofs| :: r.prim.decodePeg(b.body.pegMints[i]) == Some(proofs[i])
  }

  predicate IsReward(b: Block, reward: RewardMode) {
    reward == if b.coinbase.Some? then Minted(b.coinbase.value.cm) else NoReward
  }

  // All checks pass, and this is the state after the block.
  ghost predicate LeadsTo(r: Rules, blocks: seq<Block>, s: State, b: Block, now: nat, s': State)
    requires blocks != []
  {
    && Passes(r, blocks, s, b, now, 13)
    && exists proofs, reward :: AreProofs(r, b, proofs) && IsReward(b, reward)
         && Admits(r, s, b.body.transfers, proofs) && Becomes(r, s, b.body.transfers, proofs, reward, s')
  }

  /** What each answer says about the block, exactly. */
  ghost predicate Explains(r: Rules, blocks: seq<Block>, s: State, b: Block, now: nat, answer: Option<ExtendError>)
    requires blocks != []
  {
    var h, tip := b.header, blocks[|blocks| - 1].header;
    match answer
    case Some(UnsupportedVersion(v)) => FailsAt(r, blocks, s, b, now, 0) && v == h.version
    case Some(PrevIdMismatch(got, want)) =>
      FailsAt(r, blocks, s, b, now, 1) && got == h.prevId && want == r.prim.headerId(tip)
    case Some(HeightMismatch(got, want)) =>
      FailsAt(r, blocks, s, b, now, 2) && got == h.height && want == tip.height + 1
    case Some(TimestampNotAfterMtp(ts, m)) =>
      FailsAt(r, blocks, s, b, now, 3) && ts == h.timestampMs && IsMedian(blocks, m)
    case Some(TimestampTooFarInFuture(ts, clock)) =>
      FailsAt(r, blocks, s, b, now, 4) && ts == h.timestampMs && clock == now
    case Some(WrongDifficulty(got, want)) =>
      FailsAt(r, blocks, s, b, now, 5) && got == h.scNbits && WantsBits(r, blocks, want)
    case Some(TxRootMismatch(got, want)) =>
      FailsAt(r, blocks, s, b, now, 6) && got == h.txRoot && RootIs(r, b.body.transfers, want)
    case Some(NoAnchor) => FailsAt(r, blocks, s, b, now, 7)
    case Some(Proof(i)) =>
      && FailsAt(r, blocks, s, b, now, 8) && i < |b.body.transfers| && TransfersProved(r, s, b, i)
      && !r.prim.verifyTransfer(s.leaves, b.body.transfers[i], r.scTxFee)
    case Some(CoinbaseMint) => FailsAt(r, blocks, s, b, now, 9)
    case Some(ZeroCoinbase) => FailsAt(r, blocks, s, b, now, 10)
    case Some(RewardClaimMismatch) => FailsAt(r, blocks, s, b, now, 11)
    case Some(PegMintDecode(i)) =>
      && FailsAt(r, blocks, s, b, now, 12) && i < |b.body.pegMints| && EnvelopesDecode(r, b, i)
      && r.prim.decodePeg(b.body.pegMints[i]) == None
    case Some(Refused(e)) =>
      && Passes(r, blocks, s, b, now, 13)
      && exists proofs :: AreProofs(r, b, proofs) && Refuses(r, s, b.body.transfers, proofs, e)
    case Some(NullifierDigestMismatch(got, want)) =>
      got == h.nullifierDigest != want && exists s' :: LeadsTo(r, blocks, s, b, now, s') && want == s'.digest
    case Some(PotMismatch(got, want)) =>
      got == h.potBalance != want &&
      exists s' :: LeadsTo(r, blocks, s, b, now, s') && h.nullifierDigest == s'.digest && want == s'.pot
    case Some(CmTreeRootMismatch(got, want)) =>
      got == h.cmTreeRoot != want &&
      exists s' :: LeadsTo(r, blocks, s, b, now, s') && h.nullifierDigest == s'.digest && h.potBalance == s'.pot
                   && want == s'.root
    case None =>
      exists s' :: LeadsTo(r, blocks, s, b, now, s') && h.nullifierDigest == s'.digest && h.potBalance == s'.pot
                   && h.cmTreeRoot == s'.root
  }

  lemma ViewIsView(blocks: seq<Block>)
    ensures IsView(blocks, DaaView(blocks))
    ensures forall v | IsView(blocks, v) :: v == DaaView(blocks)
  {
  }

  lemma HeaderAnswers(r: Rules, blocks: seq<Block>, s: State, b: Block, now: nat)
    requires blocks != []
    ensures match HeaderVerdict(r, blocks, b.header, now)
      case Some(e) => Explains(r, blocks, s, b, now, Some(e))
      case None => Passes(r, blocks, s, b, now, 6)
  {
    hide MedianTimePast, Older, MostAreOlder;
    MedianIsMedian(blocks);
    ViewIsView(blocks);
    var bits := r.retarget(DaaView(blocks));
    assert WantsBits(r, blocks, bits);
  }

  lemma {:induction false} FirstBadProofMeans(r: Rules, s: State, b: Block, i: nat)
    requires i <= |b.body.transfers| && TransfersProved(r, s, b, i)
    ensures match FirstBadProof(r, s.leaves, b.body.transfers, i)
      case None => TransfersProved(r, s, b, |b.body.transfers|)
      case Some(k) => k < |b.body.transfers| && TransfersProved(r, s, b, k)
                      && !r.prim.verifyTransfer(s.leaves, b.body.transfers[k], r.scTxFee)
    decreases |b.body.transfers| - i
  {
    if i < |b.body.transfers| && r.prim.verifyTransfer(s.leaves, b.body.transfers[i], r.scTxFee) {
      FirstBadProofMeans(r, s, b, i + 1);
    }
  }

  lemma {:induction false} FirstUndecodableMeans(r: Rules, b: Block, i: nat)
    requires i <= |b.body.pegMints| && EnvelopesDecode(r, b, i)
    ensures match FirstUndecodable(r, b.body.pegMints, i)
      case None => EnvelopesDecode(r, b, |b.body.pegMints|)
      case Some(k) => k < |b.body.pegMints| && EnvelopesDecode(r, b, k) && r.prim.decodePeg(b.body.pegMints[k]) == None
    decreases |b.body.pegMints| - i
  {
    if i < |b.body.pegMints| && r.prim.decodePeg(b.body.pegMints[i]).Some? {
      FirstUndecodableMeans(r, b, i + 1);
    }
  }

  lemma {:induction false} DecodedProofs(r: Rules, envelopes: seq<seq<byte>>)
    requires forall i | 0 <= i < |envelopes| :: r.prim.decodePeg(envelopes[i]).Some?
    ensures |DecodePegs(r, envelopes)| == |envelopes|
    ensures forall i | 0 <= i < |envelopes| :: r.prim.decodePeg(envelopes[i]) == Some(DecodePegs(r, envelopes)[i])
  {
    if envelopes != [] {
      var rest := envelopes[..|envelopes| - 1];
      forall i | 0 <= i < |rest| ensures rest[i] == envelopes[i] {
      }
      DecodedProofs(r, rest);
      assert r.prim.decodePeg(envelopes[|envelopes| - 1]).Some?;
    }
  }

  lemma ExpectedIsWorth(r: Rules, pot: nat, n: nat)
    ensures Worth(r, pot, n, ExpectedCoinbaseValue(r, pot, n))
    ensures forall v | Worth(r, pot, n, v) :: v == ExpectedCoinbaseValue(r, pot, n)
  {
    assert r.rTarget + r.rTarget * n == r.rTarget * (n + 1);
  }

  lemma ProofStage(r: Rules, blocks: seq<Block>, s: State, b: Block, now: nat)
    requires blocks != []
    ensures match ProofVerdict(r, s, b.body.transfers)
      case None => Check(r, blocks, s, b, now, 7) && Check(r, blocks, s, b, now, 8)
      case Some(NoAnchor) => !Check(r, blocks, s, b, now, 7)
      case Some(Proof(i)) =>
        && Check(r, blocks, s, b, now, 7) && !Check(r, blocks, s, b, now, 8)
        && i < |b.body.transfers| && TransfersProved(r, s, b, i)
        && !r.prim.verifyTransfer(s.leaves, b.body.transfers[i], r.scTxFee)
      case Some(_) => false
  {
    hide FirstBadProof;
    FirstBadProofMeans(r, s, b, 0);
  }

  lemma CoinbaseStage(r: Rules, blocks: seq<Block>, s: State, b: Block, now: nat)
    requires blocks != []
    ensures match CoinbaseVerdict(r, s, b)
      case None => Check(r, blocks, s, b, now, 9) && Check(r, blocks, s, b, now, 10) && Check(r, blocks, s, b, now, 11)
      case Some(CoinbaseMint) => !Check(r, blocks, s, b, now, 9)
      case Some(ZeroCoinbase) => Check(r, blocks, s, b, now, 9) && !Check(r, blocks, s, b, now, 10)
      case Some(RewardClaimMismatch) =>
        Check(r, blocks, s, b, now, 9) && Check(r, blocks, s, b, now, 10) && !Check(r, blocks, s, b, now, 11)
      case Some(_) => false
  {
    hide ExpectedCoinbaseValue;
    ExpectedIsWorth(r, s.pot, |b.body.transfers|);
  }

  lemma PassesNext(r: Rules, blocks: seq<Block>, s: State, b: Block, now: nat, n: nat)
    requires blocks != [] && Passes(r, blocks, s, b, now, n)
    ensures Passes(r, blocks, s, b, now, n + 1) <==> Check(r, blocks, s, b, now, n)
  {
    hide Check;
  }

  lemma PassesEarlier(r: Rules, blocks: seq<Block>, s: State, b: Block, now: nat, n: nat, k: nat)
    requires blocks != [] && Passes(r, blocks, s, b, now, n) && k < n
    ensures Check(r, blocks, s, b, now, k)
  {
  }

  // The checks of the body, once those of the header pass.
  lemma BodyAnswers(r: Rules, blocks: seq<Block>, s: State, b: Block, now: nat)
    requires blocks != [] && Passes(r, blocks, s, b, now, 6)
    ensures var v := BodyVerdict(r, s, b);
      if Passes(r, blocks, s, b, now, 13)
      then v == match PlanFor(r, s, b)
                case Err(e) => Some(Refused(e))
                case Ok(e) => RootsVerdict(b.header, Commit(r, s, e))
      else v.Some? && Explains(r, blocks, s, b, now, v)
  {
    hide PlanFor, RootsVerdict, ProofVerdict, CoinbaseVerdict, FirstUndecodable, LeadsTo, WantsBits, MostAreOlder,
         Passes, Check;
    RootStage(r, blocks, s, b, now);
    PassesNext(r, blocks, s, b, now, 6);
    forall k: nat | k < 13 && Passes(r, blocks, s, b, now, 13) ensures Check(r, blocks, s, b, now, k) {
      PassesEarlier(r, blocks, s, b, now, 13, k);
    }
    if b.header.txRoot == r.TxRoot(b.body) {
      ProofStage(r, blocks, s, b, now);
      PassesNext(r, blocks, s, b, now, 7);
      if Check(r, blocks, s, b, now, 7) {
        PassesNext(r, blocks, s, b, now, 8);
      }
      if ProofVerdict(r, s, b.body.transfers).None? {
        CoinbaseAnswers(r, blocks, s, b, now);
      }
    }
  }

  lemma PassesFewer(r: Rules, blocks: seq<Block>, s: State, b: Block, now: nat, n: nat, k: nat)
    requires blocks != [] && Passes(r, blocks, s, b, now, n) && k <= n
    ensures Passes(r, blocks, s, b, now, k)
  {
  }

  lemma RootStage(r: Rules, blocks: seq<Block>, s: State, b: Block, now: nat)
    requires blocks != []
    ensures Check(r, blocks, s, b, now, 6) <==> b.header.txRoot == r.TxRoot(b.body)
    ensures RootIs(r, b.body.transfers, r.TxRoot(b.body))
  {
  }

  // The coinbase and the envelopes, once the transfers pass.
  lemma CoinbaseAnswers(r: Rules, blocks: seq<Block>, s: State, b: Block, now: nat)
    requires blocks != [] && Passes(r, blocks, s, b, now, 9)
    requires b.header.txRoot == r.TxRoot(b.body) && ProofVerdict(r, s, b.body.transfers).None?
    ensures var v := BodyVerdict(r, s, b);
      if Passes(r, blocks, s, b, now, 13)
      then v == match PlanFor(r, s, b)
                case Err(e) => Some(Refused(e))
                case Ok(e) => RootsVerdict(b.header, Commit(r, s, e))
      else v.Some? && Explains(r, blocks, s, b, now, v)
  {
    hide PlanFor, RootsVerdict, ProofVerdict, CoinbaseVerdict, FirstUndecodable, LeadsTo, WantsBits, MostAreOlder,
         Passes, Check;
    CoinbaseStage(r, blocks, s, b, now);
    FirstUndecodableMeans(r, b, 0);
    EnvelopeStage(r, blocks, s, b, now);
    PassesNext(r, blocks, s, b, now, 9);
    if Check(r, blocks, s, b, now, 9) {
      PassesNext(r, blocks, s, b, now, 10);
      if Check(r, blocks, s, b, now, 10) {
        PassesNext(r, blocks, s, b, now, 11);
        if Check(r, blocks, s, b, now, 11) {
          PassesNext(r, blocks, s, b, now, 12);
        }
      }
    }
    forall n: nat | 9 < n <= 12 && Passes(r, blocks, s, b, now, 13) ensures Passes(r, blocks, s, b, now, n) {
      PassesFewer(r, blocks, s, b, now, 13, n);
    }
  }

  lemma EnvelopeStage(r: Rules, blocks: seq<Block>, s: State, b: Block, now: nat)
    requires blocks != []
    ensures Check(r, blocks, s, b, now, 12) <==> EnvelopesDecode(r, b, |b.body.pegMints|)
  {
  }

  // The answer of the state and of the roots, once all checks pass.
  lemma ContentAnswers(r: Rules, blocks: seq<Block>, s: State, b: Block, now: nat)
    requires blocks != [] && Passes(r, blocks, s, b, now, 13)
    ensures Explains(r, blocks, s, b, now,
                     match PlanFor(r, s, b)
                     case Err(e) => Some(Refused(e))
                     case Ok(e) => RootsVerdict(b.header, Commit(r, s, e)))
  {
    hide Passes, Check, Plan, Commit, Becomes, Admits, Refuses, DecodePegs;
    EnvelopesAreProofs(r, blocks, s, b, now);
    var txs, proofs, reward := b.body.transfers, DecodePegs(r, b.body.pegMints), RewardOf(b);
    RefusedContent(r, s, txs, proofs, reward);
    if Plan(r, s, txs, proofs, reward).Ok? {
      AdmittedContent(r, s, txs, proofs, reward);
      assert IsReward(b, reward);
      assert LeadsTo(r, blocks, s, b, now, Commit(r, s, Plan(r, s, txs, proofs, reward).value));
    }
  }

  lemma EnvelopesAreProofs(r: Rules, blocks: seq<Block>, s: State, b: Block, now: nat)
    requires blocks != [] && Passes(r, blocks, s, b, now, 13)
    ensures AreProofs(r, b, DecodePegs(r, b.body.pegMints))
  {
    assert Check(r, blocks, s, b, now, 12);
    DecodedProofs(r, b.body.pegMints);
  }

  /** The verdict on a block is the answer that its header, proofs and content explain. */
  lemma VerdictIsExplained(r: Rules, blocks: seq<Block>, b: Block, now: nat)
    requires blocks != []
    ensures Explains(r, blocks, StateOf(r, blocks), b, now, Verdict(r, blocks, b, now))
  {
    hide HeaderVerdict, BodyVerdict, StateOf, Explains, Passes;
    var s := StateOf(r, blocks);
    HeaderAnswers(r, blocks, s, b, now);
    if HeaderVerdict(r, blocks, b.header, now).None? {
      BodyAnswers(r, blocks, s, b, now);
      if Passes(r, blocks, s, b, now, 13) {
        ContentAnswers(r, blocks, s, b, now);
      }
    }
  }

  // Which check an answer belongs to; 13 stands for the content and the roots.
  function Stage(answer: Option<ExtendError>): nat {
    match answer
    case Some(UnsupportedVersion(_)) => 0
    case Some(PrevIdMismatch(_, _)) => 1
    case Some(HeightMismatch(_, _)) => 2
    case Some(TimestampNotAfterMtp(_, _)) => 3
    case Some(TimestampTooFarInFuture(_, _)) => 4
    case Some(WrongDifficulty(_, _)) => 5
    case Some(TxRootMismatch(_, _)) => 6
    case Some(NoAnchor) => 7
    case Some(Proof(_)) => 8
    case Some(CoinbaseMint) => 9
    case Some(ZeroCoinbase) => 10
    case Some(RewardClaimMismatch) => 11
    case Some(PegMintDecode(_)) => 12
    case _ => 13
  }

  lemma StageOf(r: Rules, blocks: seq<Block>, s: State, b: Block, now: nat, answer: Option<ExtendError>)
    requires blocks != [] && Explains(r, blocks, s, b, now, answer)
    ensures if Stage(answer) < 13 then FailsAt(r, blocks, s, b, now, Stage(answer))
            else Passes(r, blocks, s, b, now, 13)
  {
    hide Check, Passes, Admits, Becomes, AreProofs;
  }

  lemma StageIsUnique(r: Rules, blocks: seq<Block>, s: State, b: Block, now: nat, e: Option<ExtendError>,
                      f: Option<ExtendError>)
    requires blocks != [] && Explains(r, blocks, s, b, now, e) && Explains(r, blocks, s, b, now, f)
    ensures Stage(e) == Stage(f)
  {
    hide Check, Explains;
    StageOf(r, blocks, s, b, now, e);
    StageOf(r, blocks, s, b, now, f);
    if Stage(e) < Stage(f) {
      PassesEarlier(r, blocks, s, b, now, Stage(f), Stage(e));
    } else if Stage(f) < Stage(e) {
      PassesEarlier(r, blocks, s, b, now, Stage(e), Stage(f));
    }
  }

  lemma MedianIsUnique(blocks: seq<Block>, m: nat, n: nat)
    requires IsMedian(blocks, m) && IsMedian(blocks, n)
    ensures m == n
  {
    assert MostAreOlder(blocks, m) <==> n < m;
    assert MostAreOlder(blocks, n) <==> m < n;
  }

  lemma BitsAreUnique(r: Rules, blocks: seq<Block>, b: nat, c: nat)
    requires WantsBits(r, blocks, b) && WantsBits(r, blocks, c)
    ensures b == c
  {
    ViewIsView(blocks);
  }

  lemma ProofsAreUnique(r: Rules, b: Block, p: seq<PegProof>, q: seq<PegProof>)
    requires AreProofs(r, b, p) && AreProofs(r, b, q)
    ensures p == q
  {
    forall i | 0 <= i < |p| ensures p[i] == q[i] {
    }
  }

  lemma PostStateIsUnique(r: Rules, blocks: seq<Block>, s: State, b: Block, now: nat, s1: State, s2: State)
    requires blocks != [] && LeadsTo(r, blocks, s, b, now, s1) && LeadsTo(r, blocks, s, b, now, s2)
    ensures s1 == s2
  {
    hide Passes, Becomes, Admits, AreProofs;
    var p, reward :| AreProofs(r, b, p) && IsReward(b, reward)
         && Admits(r, s, b.body.transfers, p) && Becomes(r, s, b.body.transfers, p, reward, s1);
    var q, reward' :| AreProofs(r, b, q) && IsReward(b, reward')
         && Admits(r, s, b.body.transfers, q) && Becomes(r, s, b.body.transfers, q, reward', s2);
    ProofsAreUnique(r, b, p, q);
    BecomesIsUnique(r, s, b.body.transfers, p, reward, s1, s2);
  }

  lemma RefusedIsNotAdmitted(r: Rules, blocks: seq<Block>, s: State, b: Block, now: nat, e: StateError, f: StateError)
    requires blocks != [] && exists p :: AreProofs(r, b, p) && Refuses(r, s, b.body.transfers, p, e)
    ensures forall s' :: !LeadsTo(r, blocks, s, b, now, s')
    ensures (exists q :: AreProofs(r, b, q) && Refuses(r, s, b.body.transfers, q, f)) ==> e == f
  {
    hide Passes, Becomes, Admits, AreProofs, Refuses;
    var p :| AreProofs(r, b, p) && Refuses(r, s, b.body.transfers, p, e);
    RefusalIsUnique(r, s, b.body.transfers, p, e, f);
    forall q | AreProofs(r, b, q) ensures q == p {
      ProofsAreUnique(r, b, p, q);
    }
  }

  /** Every block has one explanation. */
  lemma ExplanationIsUnique(r: Rules, blocks: seq<Block>, s: State, b: Block, now: nat, e: Option<ExtendError>,
                            f: Option<ExtendError>)
    requires blocks != [] && Explains(r, blocks, s, b, now, e) && Explains(r, blocks, s, b, now, f)
    ensures e == f
  {
    StageIsUnique(r, blocks, s, b, now, e, f);
    if Stage(e) < 13 {
      SameCheckSameAnswer(r, blocks, s, b, now, e, f);
    } else {
      SameContentSameAnswer(r, blocks, s, b, now, e, f);
    }
  }

  lemma SameCheckSameAnswer(r: Rules, blocks: seq<Block>, s: State, b: Block, now: nat, e: Option<ExtendError>,
                            f: Option<ExtendError>)
    requires blocks != [] && Explains(r, blocks, s, b, now, e) && Explains(r, blocks, s, b, now, f)
    requires Stage(e) == Stage(f) < 13
    ensures e == f
  {
    hide Check, Passes, IsMedian, WantsBits, LeadsTo;
    match e {
      case Some(TimestampNotAfterMtp(_, m)) => MedianIsUnique(blocks, m, f.value.mtp);
      case Some(WrongDifficulty(_, want)) => BitsAreUnique(r, blocks, want, f.value.wantBits);
      case _ =>
    }
  }

  lemma SameContentSameAnswer(r: Rules, blocks: seq<Block>, s: State, b: Block, now: nat, e: Option<ExtendError>,
                              f: Option<ExtendError>)
    requires blocks != [] && Explains(r, blocks, s, b, now, e) && Explains(r, blocks, s, b, now, f)
    requires Stage(e) == Stage(f) == 13
    ensures e == f
  {
    hide Check, Passes, IsMedian, WantsBits, LeadsTo, Refuses, AreProofs;
    if e.Some? && e.value.Refused? {
      RefusedIsNotAdmitted(r, blocks, s, b, now, e.value.cause,
                           if f.Some? && f.value.Refused? then f.value.cause else e.value.cause);
    } else if f.Some? && f.value.Refused? {
      RefusedIsNotAdmitted(r, blocks, s, b, now, f.value.cause, f.value.cause);
    } else {
      forall s1, s2 | LeadsTo(r, blocks, s, b, now, s1) && LeadsTo(r, blocks, s, b, now, s2) ensures s1 == s2 {
        PostStateIsUnique(r, blocks, s, b, now, s1, s2);
      }
    }
  }

  /** Exactly when a block draws an answer from a chain: the verdict on it is the one its header, proofs and
      content explain against the chain's state. */
  lemma AnswerIff(chain: Chain, b: Block, now: nat, answer: Option<ExtendError>)
    requires chain.Valid()
    ensures Verdict(chain.rules, chain.blocks, b, now) == answer <==>
              Explains(chain.rules, chain.blocks, chain.state.View(), b, now, answer)
  {
    hide Explains, Verdict;
    chain.ValidIsFold();
    VerdictIsExplained(chain.rules, chain.blocks, b, now);
    if Explains(chain.rules, chain.blocks, chain.state.View(), b, now, answer) {
      ExplanationIsUnique(chain.rules, chain.blocks, chain.state.View(), b, now, answer,
                          Verdict(chain.rules, chain.blocks, b, now));
    }
  }

  /** A transfer proof is the answer exactly when the header and the transaction root are in order, there are
      leaves, that transfer's proof fails against them, and those of all transfers before it verify. */
  lemma ProofAnswerIff(chain: Chain, b: Block, now: nat, i: nat)
    requires chain.Valid()
    ensures Verdict(chain.rules, chain.blocks, b, now) == Some(Proof(i)) <==>
      && Passes(chain.rules, chain.blocks, chain.state.View(), b, now, 7)
      && chain.rules.proofMode == RealProofs && chain.state.cmLeaves != []
      && i < |b.body.transfers|
      && !chain.rules.prim.verifyTransfer(chain.state.cmLeaves, b.body.transfers[i], chain.rules.scTxFee)
      && forall k | 0 <= k < i ::
           chain.rules.prim.verifyTransfer(chain.state.cmLeaves, b.body.transfers[k], chain.rules.scTxFee)
  {
    hide Verdict, WantsBits, MostAreOlder, IsMedian, LeadsTo;
    var r, s := chain.rules, chain.state.View();
    AnswerIff(chain, b, now, Some(Proof(i)));
    assert Passes(r, chain.blocks, s, b, now, 8) <==>
           Passes(r, chain.blocks, s, b, now, 7) && Check(r, chain.blocks, s, b, now, 7) by {
      if Passes(r, chain.blocks, s, b, now, 7) {
        PassesNext(r, chain.blocks, s, b, now, 7);
      }
      if Passes(r, chain.blocks, s, b, now, 8) {
        PassesFewer(r, chain.blocks, s, b, now, 8, 7);
      }
    }
  }

  /* ---------- what an accepted chain has proved ---------- */

  /** Every block of an accepted chain passes every check against the state before it, and takes the state
      to the one after it, which is the one its header names. */
  lemma ChainStates(r: Rules, blocks: seq<Block>, i: nat)
    requires ChainOk(r, blocks) && 1 <= i < |blocks|
    ensures var s, s' := StateOf(r, blocks[..i]), StateOf(r, blocks[..i + 1]);
      var h := blocks[i].header;
      && LeadsTo(r, blocks[..i], s, blocks[i], h.timestampMs, s')
      && h.nullifierDigest == s'.digest && h.potBalance == s'.pot && h.cmTreeRoot == s'.root
    ensures StateOf(r, blocks[..1]) == State({}, {}, 0, EMPTY_NULLIFIER_DIGEST, [], EMPTY_TREE_ROOT)
  {
    hide Check, Passes, Plan, Commit, Becomes, Admits, Refuses, DecodePegs, HeaderVerdict, BodyVerdict;
    var q, b := blocks[..i], blocks[i];
    var s, now := StateOf(r, q), b.header.timestampMs;
    ChainOkPrefix(r, blocks, i);
    AcceptedCommits(r, q, b);
    assert q + [b] == blocks[..i + 1];
    VerdictIsExplained(r, q, b, now);
    assert Passes(r, q, s, b, now, 13);
    EnvelopesAreProofs(r, q, s, b, now);
    RefusedContent(r, s, b.body.transfers, DecodePegs(r, b.body.pegMints), RewardOf(b));
    AdmittedContent(r, s, b.body.transfers, DecodePegs(r, b.body.pegMints), RewardOf(b));
    var s' := StateOf(r, blocks[..i + 1]);
    assert IsReward(b, RewardOf(b)) && LeadsTo(r, q, s, b, now, s');
    var named :| LeadsTo(r, q, s, b, now, named) && b.header.nullifierDigest == named.digest
                 && b.header.potBalance == named.pot && b.header.cmTreeRoot == named.root;
    PostStateIsUnique(r, q, s, b, now, named, s');
  }

  /** With real proofs, every transfer of an accepted chain was proved against exactly the leaves of the
      blocks before its own, of which there were some, for the configured fee. */
  lemma AcceptedTransfersAreProved(r: Rules, blocks: seq<Block>, i: nat, k: nat)
    requires ChainOk(r, blocks) && 1 <= i < |blocks| && k < |blocks[i].body.transfers| && r.proofMode == RealProofs
    ensures var leaves := StateOf(r, blocks[..i]).leaves;
      leaves != [] && r.prim.verifyTransfer(leaves, blocks[i].body.transfers[k], r.scTxFee)
  {
    var q, b := blocks[..i], blocks[i];
    var s, now := StateOf(r, q), b.header.timestampMs;
    ChainStates(r, blocks, i);
    PassesEarlier(r, q, s, b, now, 13, 7);
    PassesEarlier(r, q, s, b, now, 13, 8);
  }

  /* ---------- production ---------- */

  lemma {:induction false} FirstUnencodableMeans(r: Rules, proofs: seq<PegProof>, i: nat)
    requires i <= |proofs| && forall k | 0 <= k < i :: r.prim.encodePeg(proofs[k]).Some?
    ensures match FirstUnencodable(r, proofs, i)
      case None => forall k | 0 <= k < |proofs| :: r.prim.encodePeg(proofs[k]).Some?
      case Some(n) => n < |proofs| && r.prim.encodePeg(proofs[n]) == None
                      && forall k | 0 <= k < n :: r.prim.encodePeg(proofs[k]).Some?
    decreases |proofs| - i
  {
    if i < |proofs| && r.prim.encodePeg(proofs[i]).Some? {
      FirstUnencodableMeans(r, proofs, i + 1);
    }
  }

  lemma {:induction false} EncodedPegs(r: Rules, proofs: seq<PegProof>)
    requires forall k | 0 <= k < |proofs| :: r.prim.encodePeg(proofs[k]).Some?
    ensures |EncodePegs(r, proofs)| == |proofs|
    ensures forall k | 0 <= k < |proofs| :: r.prim.encodePeg(proofs[k]) == Some(EncodePegs(r, proofs)[k])
  {
    if proofs != [] {
      var rest := proofs[..|proofs| - 1];
      forall k | 0 <= k < |rest| ensures rest[k] == proofs[k] {
      }
      EncodedPegs(r, rest);
      assert r.prim.encodePeg(proofs[|proofs| - 1]).Some?;
    }
  }

  // The earliest timestamp from the clock on that is above the median.
  ghost predicate IsProducedTime(blocks: seq<Block>, now: nat, ts: nat) {
    ts >= now && MostAreOlder(blocks, ts) && (ts > now ==> !MostAreOlder(blocks, ts - 1))
  }

  // The block that an order asks for on top of these blocks and their state.
  ghost predicate IsProduct(r: Rules, blocks: seq<Block>, s: State, o: Order, now: nat, b: Block)
    requires blocks != []
  {
    var h, tip := b.header, blocks[|blocks| - 1].header;
    && b.body.transfers == o.txs && b.coinbase == o.coinbase && |b.body.pegMints| == |o.proofs|
    && (forall k | 0 <= k < |o.proofs| :: r.prim.encodePeg(o.proofs[k]) == Some(b.body.pegMints[k]))
    && h.version == 1 && h.prevId == r.prim.headerId(tip) && h.height == tip.height + 1
    && IsProducedTime(blocks, now, h.timestampMs) && WantsBits(r, blocks, h.scNbits)
    && RootIs(r, o.txs, h.txRoot)
    && h.rewardClaim == (if o.coinbase.Some? then r.prim.encodeCm(o.coinbase.value.cm) else EMPTY_REWARD_CLAIM)
    && exists reward, s' ::
         && IsReward(b, reward) && Admits(r, s, o.txs, o.proofs) && Becomes(r, s, o.txs, o.proofs, reward, s')
         && h.nullifierDigest == s'.digest && h.potBalance == s'.pot && h.cmTreeRoot == s'.root
  }

  /** What production answers: the first proof that has no envelope, the refusal of the content, or the
      block that names the state its content leads to, stamped as early as the median allows. */
  lemma ProductionMeans(r: Rules, blocks: seq<Block>, o: Order, now: nat)
    requires blocks != []
    ensures match Produce(r, blocks, o, now)
      case Err(PegMintDecode(i)) =>
        && i < |o.proofs| && r.prim.encodePeg(o.proofs[i]) == None
        && forall k | 0 <= k < i :: r.prim.encodePeg(o.proofs[k]).Some?
      case Err(Refused(e)) =>
        && (forall k | 0 <= k < |o.proofs| :: r.prim.encodePeg(o.proofs[k]).Some?)
        && Refuses(r, StateOf(r, blocks), o.txs, o.proofs, e)
      case Err(_) => false
      case Ok(b) => IsProduct(r, blocks, StateOf(r, blocks), o, now, b)
  {
    hide Plan, Commit, Becomes, Admits, Refuses, MedianTimePast, MostAreOlder, StateOf, EncodePegs;
    var s := StateOf(r, blocks);
    FirstUnencodableMeans(r, o.proofs, 0);
    RefusedContent(r, s, o.txs, o.proofs, o.Reward());
    if Produce(r, blocks, o, now).Ok? {
      var b := Produce(r, blocks, o, now).value;
      EncodedPegs(r, o.proofs);
      AdmittedContent(r, s, o.txs, o.proofs, o.Reward());
      ViewIsView(blocks);
      ProducedTime(blocks, now);
      assert IsReward(b, o.Reward());
      assert WantsBits(r, blocks, b.header.scNbits);
    }
  }

  lemma ProducedTime(blocks: seq<Block>, now: nat)
    requires blocks != []
    ensures IsProducedTime(blocks, now, Max(now, MedianTimePast(blocks) + 1))
  {
    var ts := Max(now, MedianTimePast(blocks) + 1);
    AboveMedianIff(blocks, ts);
    AboveMedianIff(blocks, ts - 1);
  }
}
