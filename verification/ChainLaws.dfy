/** What holds of every chain that block-by-block acceptance can build, whatever was
    extended and rewound on the way there. */
module ChainLaws {
  import opened Common
  import opened Blocks
  import opened ShieldedStates
  import opened Chains

  /* ---------- median-time-past never decreases ---------- */

  function CountBelow(s: seq<nat>, m: nat): nat {
    if s == [] then 0 else (if s[0] < m then 1 else 0) + CountBelow(s[1..], m)
  }

  predicate Sorted(s: seq<nat>) {
    forall i, j | 0 <= i < j < |s| :: s[i] <= s[j]
  }

  lemma {:induction false} InsertMembers(x: nat, s: seq<nat>, y: nat)
    requires y in InsertSorted(x, s)
    ensures y == x || y in s
  {
    if s != [] && x > s[0] && y != s[0] {
      InsertMembers(x, s[1..], y);
    }
  }

  lemma {:induction false} InsertSorts(x: nat, s: seq<nat>)
    requires Sorted(s)
    ensures Sorted(InsertSorted(x, s))
  {
    if s != [] && x > s[0] {
      var t := InsertSorted(x, s[1..]);
      InsertSorts(x, s[1..]);
      forall k | 0 <= k < |t| ensures s[0] <= t[k] {
        InsertMembers(x, s[1..], t[k]);
      }
      assert InsertSorted(x, s) == [s[0]] + t;
    }
  }

  lemma {:induction false} InsertCounts(x: nat, s: seq<nat>, m: nat)
    ensures CountBelow(InsertSorted(x, s), m) == (if x < m then 1 else 0) + CountBelow(s, m)
  {
    if s != [] && x > s[0] {
      InsertCounts(x, s[1..], m);
    } else {
      assert ([x] + s)[1..] == s;
    }
  }

  lemma {:induction false} SortLaw(s: seq<nat>, m: nat)
    ensures Sorted(Sort(s)) && CountBelow(Sort(s), m) == CountBelow(s, m)
  {
    if s != [] {
      SortLaw(s[1..], m);
      InsertSorts(s[0], Sort(s[1..]));
      InsertCounts(s[0], Sort(s[1..]), m);
    }
  }

  // In a sorted sequence the k-th element is at least m exactly when at most k are below m.
  lemma {:induction false} RankLaw(s: seq<nat>, k: nat, m: nat)
    requires Sorted(s) && k < |s|
    ensures s[k] >= m <==> CountBelow(s, m) <= k
  {
    if s[0] >= m {
      NoneBelow(s, m);
    } else if k > 0 {
      RankLaw(s[1..], k - 1, m);
    }
  }

  lemma {:induction false} NoneBelow(s: seq<nat>, m: nat)
    requires forall i | 0 <= i < |s| :: s[i] >= m
    ensures CountBelow(s, m) == 0
  {
    if s != [] {
      NoneBelow(s[1..], m);
    }
  }

  lemma {:induction false} CountAppend(s: seq<nat>, x: nat, m: nat)
    ensures CountBelow(s + [x], m) == CountBelow(s, m) + (if x < m then 1 else 0)
  {
    if s == [] {
      assert s + [x] == [x];
    } else {
      assert (s + [x])[1..] == s[1..] + [x];
      CountAppend(s[1..], x, m);
    }
  }

  function Window(blocks: seq<Block>): seq<nat>
    requires blocks != []
  {
    Timestamps(blocks[|blocks| - Min(|blocks|, MTP_WINDOW)..])
  }

  /** A block whose timestamp is above the median cannot lower the median, whether the window
      is still growing from 1 to 11 or the oldest timestamp drops out. */
  lemma MedianStep(blocks: seq<Block>, b: Block)
    requires blocks != []
    requires b.header.timestampMs > MedianTimePast(blocks)
    ensures MedianTimePast(blocks + [b]) >= MedianTimePast(blocks)
  {
    var m := MedianTimePast(blocks);
    var w := Window(blocks);
    var w' := Window(blocks + [b]);
    SortLaw(w, m);
    RankLaw(Sort(w), |w| / 2, m);
    CountAppend(w, b.header.timestampMs, m);
    assert w' == if |w| < MTP_WINDOW then w + [b.header.timestampMs] else (w + [b.header.timestampMs])[1..];
    assert CountBelow(w', m) <= CountBelow(w, m) <= |w| / 2 <= |w'| / 2;
    SortLaw(w', m);
    RankLaw(Sort(w'), |w'| / 2, m);
  }

  lemma MedianNext(r: Rules, blocks: seq<Block>, i: nat)
    requires ChainOk(r, blocks) && 1 <= i < |blocks|
    ensures MedianTimePast(blocks[..i]) <= MedianTimePast(blocks[..i + 1])
  {
    ChainOkPrefix(r, blocks, i);
    AcceptedLinks(r, blocks[..i], blocks[i]);
    MedianStep(blocks[..i], blocks[i]);
    assert blocks[..i] + [blocks[i]] == blocks[..i + 1];
  }

  /** Along every accepted chain, median-time-past never decreases. */
  lemma {:induction false} MedianTimePastIsMonotone(r: Rules, blocks: seq<Block>, i: nat, j: nat)
    requires ChainOk(r, blocks) && 1 <= i <= j <= |blocks|
    ensures MedianTimePast(blocks[..i]) <= MedianTimePast(blocks[..j])
    decreases j - i
  {
    if i < j {
      MedianNext(r, blocks, i);
      MedianTimePastIsMonotone(r, blocks, i + 1, j);
    }
  }

  /* ---------- no double spend, no double mint ---------- */

  function ProofsOf(r: Rules, b: Block): seq<PegProof> {
    DecodePegs(r, b.body.pegMints)
  }

  // All nullifiers spent on the chain above genesis, in order.
  function Spent(blocks: seq<Block>): seq<Nullifier> {
    if |blocks| <= 1 then [] else Spent(blocks[..|blocks| - 1]) + Nullifiers(Last(blocks).body.transfers)
  }

  // All receipts minted against on the chain above genesis, in order.
  function MintedReceipts(r: Rules, blocks: seq<Block>): seq<Hash> {
    if |blocks| <= 1 then [] else MintedReceipts(r, blocks[..|blocks| - 1]) + Receipts(r, ProofsOf(r, Last(blocks)))
  }

  function CountTransfers(blocks: seq<Block>): nat {
    if |blocks| <= 1 then 0 else CountTransfers(blocks[..|blocks| - 1]) + |Last(blocks).body.transfers|
  }

  function CountPegMints(blocks: seq<Block>): nat {
    if |blocks| <= 1 then 0 else CountPegMints(blocks[..|blocks| - 1]) + |Last(blocks).body.pegMints|
  }

  function CountCoinbases(blocks: seq<Block>): nat {
    if |blocks| <= 1 then 0 else CountCoinbases(blocks[..|blocks| - 1]) + (if Last(blocks).coinbase.Some? then 1 else 0)
  }

  lemma {:induction false} DecodeCount(r: Rules, envelopes: seq<seq<byte>>, i: nat)
    requires i <= |envelopes| && FirstUndecodable(r, envelopes, i).None?
    requires |DecodePegs(r, envelopes[..i])| == i
    ensures |DecodePegs(r, envelopes)| == |envelopes|
    decreases |envelopes| - i
  {
    if i == |envelopes| {
      assert envelopes[..i] == envelopes;
    } else {
      assert envelopes[..i + 1][..i] == envelopes[..i];
      DecodeCount(r, envelopes, i + 1);
    }
  }

  lemma AcceptedPegCount(r: Rules, blocks: seq<Block>, b: Block)
    requires blocks != [] && Accepts(r, blocks, b)
    ensures |ProofsOf(r, b)| == |b.body.pegMints|
  {
    assert b.body.pegMints[..0] == [];
    DecodeCount(r, b.body.pegMints, 0);
  }

  // What the newest block adds to the state of an accepted chain.
  lemma TipEffect(r: Rules, blocks: seq<Block>)
    requires ChainOk(r, blocks) && |blocks| > 1
    ensures var s := StateOf(r, blocks[..|blocks| - 1]);
      var b := Last(blocks);
      var s' := StateOf(r, blocks);
      && Fresh(Nullifiers(b.body.transfers), s.nullifiers)
      && s'.nullifiers == s.nullifiers + Elems(Nullifiers(b.body.transfers))
      && Fresh(Receipts(r, ProofsOf(r, b)), s.pegUsed)
      && s'.pegUsed == s.pegUsed + Elems(Receipts(r, ProofsOf(r, b)))
      && |s'.leaves| == |s.leaves| + 2 * |b.body.transfers| + |b.body.pegMints| + (if b.coinbase.Some? then 1 else 0)
      && s'.pot == NewPot(r, s.pot, |b.body.transfers|, RewardOf(b), Min(Credit(r, ProofsOf(r, b)), U128_MAX))
  {
    var prefix, b := blocks[..|blocks| - 1], Last(blocks);
    ChainOkTip(r, blocks);
    AcceptedCommits(r, prefix, b);
    AcceptedPegCount(r, prefix, b);
    AcceptedEffect(r, StateOf(r, prefix), b.body.transfers, ProofsOf(r, b), RewardOf(b));
  }

  /** No nullifier is ever spent twice and no receipt minted twice on any accepted chain;
      the state's sets are exactly those spent and minted, and every leaf is accounted for. */
  lemma {:induction false} NoDoubleSpendOnChain(r: Rules, blocks: seq<Block>)
    requires ChainOk(r, blocks)
    ensures Distinct(Spent(blocks)) && Elems(Spent(blocks)) == StateOf(r, blocks).nullifiers
    ensures Distinct(MintedReceipts(r, blocks)) && Elems(MintedReceipts(r, blocks)) == StateOf(r, blocks).pegUsed
    ensures |StateOf(r, blocks).leaves| == 2 * CountTransfers(blocks) + CountPegMints(blocks) + CountCoinbases(blocks)
  {
    if |blocks| > 1 {
      var prefix, b := blocks[..|blocks| - 1], Last(blocks);
      ChainOkTip(r, blocks);
      NoDoubleSpendOnChain(r, prefix);
      TipEffect(r, blocks);
      DistinctConcat(Spent(prefix), Nullifiers(b.body.transfers));
      DistinctConcat(MintedReceipts(r, prefix), Receipts(r, ProofsOf(r, b)));
    }
  }

  /* ---------- conservation of the emission pot ---------- */

  function FeesPaid(r: Rules, blocks: seq<Block>): nat {
    if |blocks| <= 1 then 0 else
      FeesPaid(r, blocks[..|blocks| - 1]) + r.scTxFee * |Last(blocks).body.transfers|
  }

  function PegCredits(r: Rules, blocks: seq<Block>): nat {
    if |blocks| <= 1 then 0 else
      PegCredits(r, blocks[..|blocks| - 1]) + Credit(r, ProofsOf(r, Last(blocks)))
  }

  // The coinbase value drawn by the newest block.
  function TipDraw(r: Rules, blocks: seq<Block>): nat
    requires |blocks| > 1
  {
    Drawn(r, StateOf(r, blocks[..|blocks| - 1]).pot, |Last(blocks).body.transfers|, RewardOf(Last(blocks)))
  }

  function CoinbaseDraws(r: Rules, blocks: seq<Block>): nat {
    if |blocks| <= 1 then 0 else CoinbaseDraws(r, blocks[..|blocks| - 1]) + TipDraw(r, blocks)
  }

  // No 64-bit addition of the newest block's pot update was clipped.
  predicate TipUnclipped(r: Rules, blocks: seq<Block>)
    requires |blocks| > 1
  {
    var pot := StateOf(r, blocks[..|blocks| - 1]).pot;
    var fees := r.scTxFee * |Last(blocks).body.transfers|;
    && pot + fees <= U64_MAX
    && pot + fees - TipDraw(r, blocks) + Credit(r, ProofsOf(r, Last(blocks))) <= U64_MAX
  }

  predicate Unclipped(r: Rules, blocks: seq<Block>) {
    |blocks| <= 1 || (Unclipped(r, blocks[..|blocks| - 1]) && TipUnclipped(r, blocks))
  }

  lemma PotStep(r: Rules, pot: nat, nTxs: nat, reward: RewardMode, credit: nat)
    requires pot <= U64_MAX
    ensures var fees := r.scTxFee * nTxs;
      var drawn := Drawn(r, pot, nTxs, reward);
      var pot' := NewPot(r, pot, nTxs, reward, Min(credit, U128_MAX));
      && pot' <= U64_MAX
      && pot' + drawn <= pot + fees + credit
      && (pot' + drawn == pot + fees + credit <==>
          pot + fees <= U64_MAX && pot + fees - drawn + credit <= U64_MAX)
  {
  }

  /** Value is never created: the pot plus all coinbase values ever drawn is at most all fees
      plus all peg credits, with equality exactly when no pot update was clipped at 64 bits. */
  lemma {:induction false} PotConservation(r: Rules, blocks: seq<Block>)
    requires ChainOk(r, blocks)
    ensures StateOf(r, blocks).pot <= U64_MAX
    ensures StateOf(r, blocks).pot + CoinbaseDraws(r, blocks) <= FeesPaid(r, blocks) + PegCredits(r, blocks)
    ensures StateOf(r, blocks).pot + CoinbaseDraws(r, blocks) == FeesPaid(r, blocks) + PegCredits(r, blocks)
       <==> Unclipped(r, blocks)
  {
    if |blocks| > 1 {
      var prefix, b := blocks[..|blocks| - 1], Last(blocks);
      ChainOkTip(r, blocks);
      PotConservation(r, prefix);
      TipEffect(r, blocks);
      PotStep(r, StateOf(r, prefix).pot, |b.body.transfers|, RewardOf(b), Credit(r, ProofsOf(r, b)));
    }
  }

  /** The coinbase note of an accepted block is proven for exactly the value the pot loses. */
  lemma CoinbaseProvesTheDraw(r: Rules, blocks: seq<Block>)
    requires ChainOk(r, blocks) && |blocks| > 1
    ensures match Last(blocks).coinbase
      case Some(proof) =>
        && r.prim.verifyMint(TipDraw(r, blocks), proof)
        && !r.prim.isIdentity(proof.cm)
        && Last(blocks).header.rewardClaim == r.prim.encodeCm(proof.cm)
        && StateOf(r, blocks).leaves != [] && Last(StateOf(r, blocks).leaves) == proof.cm
      case None => TipDraw(r, blocks) == 0 && Last(blocks).header.rewardClaim == EMPTY_REWARD_CLAIM
  {
    var prefix, b := blocks[..|blocks| - 1], Last(blocks);
    ChainOkTip(r, blocks);
    AcceptedCommits(r, prefix, b);
  }

  /* ---------- the header commits to the state ---------- */

  /** Every accepted header carries the digest, pot and root of the fold up to it. */
  lemma HeaderCommitsToState(r: Rules, blocks: seq<Block>)
    requires ChainOk(r, blocks)
    ensures var h := Last(blocks).header; var s := StateOf(r, blocks);
      h.nullifierDigest == s.digest && h.potBalance == s.pot && h.cmTreeRoot == s.root
  {
    if |blocks| > 1 {
      var prefix, b := blocks[..|blocks| - 1], Last(blocks);
      ChainOkTip(r, blocks);
      AcceptedCommits(r, prefix, b);
    }
  }

  /* ---------- producer and validator agree ---------- */

  // The peg envelope codec decodes what it encodes.
  ghost predicate PegCodecOk(r: Rules) {
    forall p: PegProof | r.prim.encodePeg(p).Some? :: r.prim.decodePeg(r.prim.encodePeg(p).value) == Some(p)
  }

  lemma {:induction false} AllEncodable(r: Rules, proofs: seq<PegProof>, i: nat)
    requires i <= |proofs| && FirstUnencodable(r, proofs, i).None?
    ensures forall k | i <= k < |proofs| :: r.prim.encodePeg(proofs[k]).Some?
    decreases |proofs| - i
  {
    if i < |proofs| {
      AllEncodable(r, proofs, i + 1);
    }
  }

  lemma {:induction false} AllDecodable(r: Rules, envelopes: seq<seq<byte>>, i: nat)
    requires i <= |envelopes|
    requires forall k | i <= k < |envelopes| :: r.prim.decodePeg(envelopes[k]).Some?
    ensures FirstUndecodable(r, envelopes, i).None?
    decreases |envelopes| - i
  {
    if i < |envelopes| {
      AllDecodable(r, envelopes, i + 1);
    }
  }

  lemma {:induction false} PegCodecRoundTrip(r: Rules, proofs: seq<PegProof>)
    requires PegCodecOk(r)
    requires forall k | 0 <= k < |proofs| :: r.prim.encodePeg(proofs[k]).Some?
    ensures DecodePegs(r, EncodePegs(r, proofs)) == proofs
    ensures forall k | 0 <= k < |EncodePegs(r, proofs)| :: r.prim.decodePeg(EncodePegs(r, proofs)[k]).Some?
  {
    if proofs != [] {
      var rest, p := proofs[..|proofs| - 1], proofs[|proofs| - 1];
      forall k | 0 <= k < |rest| ensures r.prim.encodePeg(rest[k]).Some? {
        assert rest[k] == proofs[k];
      }
      PegCodecRoundTrip(r, rest);
      var all := EncodePegs(r, proofs);
      assert r.prim.encodePeg(p).Some?;
      assert all[..|all| - 1] == EncodePegs(r, rest);
      assert r.prim.decodePeg(all[|all| - 1]) == Some(p);
    }
  }

  /** With stub proofs, a produced block is accepted by the same chain at every clock from 60 s
      below its timestamp on, exactly unless its coinbase note is the identity point. The
      mint proof is assumed to bind the expected reward, as the prover constructs it. */
  lemma ProducedBlockIsAccepted(r: Rules, blocks: seq<Block>, o: Order, now: nat, validatorNow: nat)
    requires blocks != [] && r.proofMode == StubProofs && PegCodecOk(r)
    requires Produce(r, blocks, o, now).Ok?
    requires o.coinbase.Some? ==>
      r.prim.verifyMint(ExpectedCoinbaseValue(r, StateOf(r, blocks).pot, |o.txs|), o.coinbase.value)
    requires Produce(r, blocks, o, now).value.header.timestampMs <= validatorNow + MAX_FUTURE_DRIFT_MS
    ensures Verdict(r, blocks, Produce(r, blocks, o, now).value, validatorNow).None?
       <==> (o.coinbase.Some? ==> !r.prim.isIdentity(o.coinbase.value.cm))
  {
    var b := Produce(r, blocks, o, now).value;
    AllEncodable(r, o.proofs, 0);
    PegCodecRoundTrip(r, o.proofs);
    AllDecodable(r, b.body.pegMints, 0);
    assert PlanFor(r, StateOf(r, blocks), b) == Plan(r, StateOf(r, blocks), o.txs, o.proofs, o.Reward());
  }
}
