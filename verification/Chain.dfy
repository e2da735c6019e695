/** The linear chain: extension rules, block production, and the bounded undo ring.
    A block's verdict is a function of the blocks before it, the block and the clock. */
module Chains {
  import opened Common
  import opened Blocks
  import opened ShieldedStates

  const MAX_FUTURE_DRIFT_MS: nat := 60_000
  const MTP_WINDOW: nat := 11
  const STATE_RETENTION_BLOCKS: nat := 240

  datatype ExtendError =
    | UnsupportedVersion(version: nat)
    | PrevIdMismatch(gotId: Id, wantId: Id)
    | HeightMismatch(gotHeight: nat, wantHeight: nat)
    | TimestampNotAfterMtp(ts: nat, mtp: nat)
    | TimestampTooFarInFuture(tooFarTs: nat, now: nat)
    | WrongDifficulty(gotBits: nat, wantBits: nat)
    | TxRootMismatch(gotRoot: Hash, wantRoot: Hash)
    | NullifierDigestMismatch(gotDigest: Hash, wantDigest: Hash)
    | PotMismatch(gotPot: nat, wantPot: nat)
    | CmTreeRootMismatch(gotCmRoot: Hash, wantCmRoot: Hash)
    | NoAnchor
    | Proof(index: nat)
    | CoinbaseMint
    | ZeroCoinbase
    | RewardClaimMismatch
    | PegMintDecode(pegIndex: nat)
    | Refused(cause: StateError)

  /* ---------- views of a block sequence ---------- */

  function InsertSorted(x: nat, s: seq<nat>): seq<nat> {
    if s == [] || x <= s[0] then [x] + s else [s[0]] + InsertSorted(x, s[1..])
  }

  function Sort(s: seq<nat>): (t: seq<nat>)
    ensures |t| == |s|
  {
    if s == [] then [] else
      var t := Sort(s[1..]);
      InsertLength(s[0], t);
      InsertSorted(s[0], t)
  }

  lemma InsertLength(x: nat, s: seq<nat>)
    ensures |InsertSorted(x, s)| == |s| + 1
  {
  }

  function Timestamps(blocks: seq<Block>): seq<nat> {
    seq(|blocks|, i requires 0 <= i < |blocks| => blocks[i].header.timestampMs)
  }

  // The upper median of the last (at most eleven) timestamps.
  function MedianTimePast(blocks: seq<Block>): nat
    requires blocks != []
  {
    var n := Min(|blocks|, MTP_WINDOW);
    var recent := Sort(Timestamps(blocks[|blocks| - n..]));
    recent[n / 2]
  }

  // What the retarget reads: (timestamp, nbits), oldest first.
  function DaaView(blocks: seq<Block>): seq<(nat, nat)> {
    seq(|blocks|, i requires 0 <= i < |blocks| => (blocks[i].header.timestampMs, blocks[i].header.scNbits))
  }

  function Last<T>(s: seq<T>): T
    requires s != []
  {
    s[|s| - 1]
  }

  function RewardOf(b: Block): RewardMode {
    match b.coinbase
    case None => NoReward
    case Some(proof) => Minted(proof.cm)
  }

  function FirstUndecodable(r: Rules, envelopes: seq<seq<byte>>, i: nat): Option<nat>
    requires i <= |envelopes|
    decreases |envelopes| - i
  {
    if i == |envelopes| then None
    else if r.prim.decodePeg(envelopes[i]).None? then Some(i)
    else FirstUndecodable(r, envelopes, i + 1)
  }

  function DecodePegs(r: Rules, envelopes: seq<seq<byte>>): seq<PegProof> {
    if envelopes == [] then [] else
      DecodePegs(r, envelopes[..|envelopes| - 1]) +
      (match r.prim.decodePeg(envelopes[|envelopes| - 1]) case Some(p) => [p] case None => [])
  }

  function PlanFor(r: Rules, s: State, b: Block): Result<Effect, StateError> {
    Plan(r, s, b.body.transfers, DecodePegs(r, b.body.pegMints), RewardOf(b))
  }

  // The state after a block (unchanged by content the state refuses).
  function Apply(r: Rules, s: State, b: Block): State {
    match PlanFor(r, s, b)
    case Ok(e) => Commit(r, s, e)
    case Err(_) => s
  }

  // The state of a chain: the fold of Apply from genesis.
  function StateOf(r: Rules, blocks: seq<Block>): State {
    if |blocks| <= 1 then EMPTY_STATE
    else Apply(r, StateOf(r, blocks[..|blocks| - 1]), Last(blocks))
  }

  /* ---------- the verdict on a block, as a value ---------- */

  function FirstBadProof(r: Rules, anchor: seq<Point>, txs: seq<Transfer>, i: nat): Option<nat>
    requires i <= |txs|
    decreases |txs| - i
  {
    if i == |txs| then None
    else if !r.prim.verifyTransfer(anchor, txs[i], r.scTxFee) then Some(i)
    else FirstBadProof(r, anchor, txs, i + 1)
  }

  function HeaderVerdict(r: Rules, blocks: seq<Block>, h: Header, now: nat): Option<ExtendError>
    requires blocks != []
  {
    var tip := Last(blocks).header;
    var mtp := MedianTimePast(blocks);
    var want := r.retarget(DaaView(blocks));
    if h.version != 1 then Some(UnsupportedVersion(h.version))
    else if h.prevId != r.HeaderId(tip) then Some(PrevIdMismatch(h.prevId, r.HeaderId(tip)))
    else if h.height != tip.height + 1 then Some(HeightMismatch(h.height, tip.height + 1))
    else if h.timestampMs <= mtp then Some(TimestampNotAfterMtp(h.timestampMs, mtp))
    else if h.timestampMs > now + MAX_FUTURE_DRIFT_MS then Some(TimestampTooFarInFuture(h.timestampMs, now))
    else if h.scNbits != want then Some(WrongDifficulty(h.scNbits, want))
    else None
  }

  function ProofVerdict(r: Rules, s: State, txs: seq<Transfer>): Option<ExtendError> {
    if r.proofMode == StubProofs || txs == [] then None
    else if s.leaves == [] then Some(NoAnchor)
    else match FirstBadProof(r, s.leaves, txs, 0)
      case Some(i) => Some(Proof(i))
      case None => None
  }

  function CoinbaseVerdict(r: Rules, s: State, b: Block): Option<ExtendError> {
    match b.coinbase
    case None =>
      if b.header.rewardClaim != EMPTY_REWARD_CLAIM then Some(RewardClaimMismatch) else None
    case Some(proof) =>
      if !r.prim.verifyMint(ExpectedCoinbaseValue(r, s.pot, |b.body.transfers|), proof) then Some(CoinbaseMint)
      else if r.prim.isIdentity(proof.cm) then Some(ZeroCoinbase)
      else if b.header.rewardClaim != r.prim.encodeCm(proof.cm) then Some(RewardClaimMismatch)
      else None
  }

  // Are the digest, pot and root that the header names those of the state?
  function RootsVerdict(h: Header, s: State): Option<ExtendError> {
    if h.nullifierDigest != s.digest then Some(NullifierDigestMismatch(h.nullifierDigest, s.digest))
    else if h.potBalance != s.pot then Some(PotMismatch(h.potBalance, s.pot))
    else if h.cmTreeRoot != s.root then Some(CmTreeRootMismatch(h.cmTreeRoot, s.root))
    else None
  }

  function BodyVerdict(r: Rules, s: State, b: Block): Option<ExtendError> {
    var txRoot := r.TxRoot(b.body);
    if b.header.txRoot != txRoot then Some(TxRootMismatch(b.header.txRoot, txRoot))
    else match ProofVerdict(r, s, b.body.transfers)
      case Some(e) => Some(e)
      case None =>
        match CoinbaseVerdict(r, s, b)
        case Some(e) => Some(e)
        case None =>
          match FirstUndecodable(r, b.body.pegMints, 0)
          case Some(i) => Some(PegMintDecode(i))
          case None =>
            match PlanFor(r, s, b)
            case Err(e) => Some(Refused(e))
            case Ok(e) => RootsVerdict(b.header, Commit(r, s, e))
  }

  /** Why `b` is refused as the next block after `blocks` at clock `now`; None is acceptance. */
  function Verdict(r: Rules, blocks: seq<Block>, b: Block, now: nat): Option<ExtendError>
    requires blocks != []
  {
    match HeaderVerdict(r, blocks, b.header, now)
    case Some(e) => Some(e)
    case None => BodyVerdict(r, StateOf(r, blocks), b)
  }

  // Acceptance at the block's own timestamp: the clock-free part of the rules.
  predicate Accepts(r: Rules, blocks: seq<Block>, b: Block)
    requires blocks != []
  {
    Verdict(r, blocks, b, b.header.timestampMs).None?
  }

  ghost predicate AcceptedAt(r: Rules, blocks: seq<Block>, i: nat)
    requires 1 <= i < |blocks|
  {
    Accepts(r, blocks[..i], blocks[i])
  }

  // A chain every block of which was accepted on top of its predecessors.
  ghost predicate ChainOk(r: Rules, blocks: seq<Block>) {
    && blocks != []
    && blocks[0] == r.GenesisBlock()
    && forall i: nat {:trigger AcceptedAt(r, blocks, i)} | 1 <= i < |blocks| :: AcceptedAt(r, blocks, i)
  }

  /** The clock matters only through the drift bound: a block is accepted at `now`
      exactly when it is accepted at its own timestamp and is not too far ahead. */
  lemma AcceptedIffPinnedAndNotAhead(r: Rules, blocks: seq<Block>, b: Block, now: nat)
    requires blocks != []
    ensures Verdict(r, blocks, b, now).None?
       <==> Accepts(r, blocks, b) && b.header.timestampMs <= now + MAX_FUTURE_DRIFT_MS
    ensures b.header.timestampMs <= now + MAX_FUTURE_DRIFT_MS ==>
              Verdict(r, blocks, b, now) == Verdict(r, blocks, b, b.header.timestampMs)
  {
  }

  /** An accepted block's content is admissible, so its state is a real commit. */
  lemma AcceptedCommits(r: Rules, blocks: seq<Block>, b: Block)
    requires blocks != [] && Accepts(r, blocks, b)
    ensures PlanFor(r, StateOf(r, blocks), b).Ok?
    ensures StateOf(r, blocks + [b]) == Commit(r, StateOf(r, blocks), PlanFor(r, StateOf(r, blocks), b).value)
  {
    assert (blocks + [b])[..|blocks + [b]| - 1] == blocks;
  }

  lemma AcceptedAtFrame(r: Rules, blocks: seq<Block>, blocks': seq<Block>, i: nat)
    requires 1 <= i < |blocks| && i < |blocks'|
    requires blocks[..i] == blocks'[..i] && blocks[i] == blocks'[i] && AcceptedAt(r, blocks, i)
    ensures AcceptedAt(r, blocks', i)
  {
  }

  lemma AcceptedAtTip(r: Rules, blocks: seq<Block>, b: Block)
    requires blocks != [] && Accepts(r, blocks, b)
    ensures AcceptedAt(r, blocks + [b], |blocks|)
  {
    assert (blocks + [b])[..|blocks|] == blocks;
  }

  lemma ChainOkPush(r: Rules, blocks: seq<Block>, b: Block)
    requires ChainOk(r, blocks) && Accepts(r, blocks, b)
    ensures ChainOk(r, blocks + [b])
  {
    hide Accepts, AcceptedAt;
    var blocks' := blocks + [b];
    forall i: nat | 1 <= i < |blocks'| ensures AcceptedAt(r, blocks', i) {
      if i < |blocks| {
        assert AcceptedAt(r, blocks, i);
        AcceptedAtFrame(r, blocks, blocks', i);
      } else {
        AcceptedAtTip(r, blocks, b);
      }
    }
  }

  lemma ChainOkPrefix(r: Rules, blocks: seq<Block>, n: nat)
    requires ChainOk(r, blocks) && 1 <= n <= |blocks|
    ensures ChainOk(r, blocks[..n])
    ensures n < |blocks| ==> Accepts(r, blocks[..n], blocks[n])
  {
    var prefix := blocks[..n];
    forall i: nat | 1 <= i < n ensures AcceptedAt(r, prefix, i) {
      assert AcceptedAt(r, blocks, i);
      AcceptedAtFrame(r, blocks, prefix, i);
    }
    assert n < |blocks| ==> AcceptedAt(r, blocks, n);
  }

  // A chain above genesis is an accepted block on top of a chain.
  lemma ChainOkTip(r: Rules, blocks: seq<Block>)
    requires ChainOk(r, blocks) && |blocks| > 1
    ensures var prefix := blocks[..|blocks| - 1];
      ChainOk(r, prefix) && Accepts(r, prefix, Last(blocks)) && prefix + [Last(blocks)] == blocks
  {
    ChainOkPrefix(r, blocks, |blocks| - 1);
  }

  lemma AcceptedLinks(r: Rules, blocks: seq<Block>, b: Block)
    requires blocks != [] && Accepts(r, blocks, b)
    ensures b.header.height == Last(blocks).header.height + 1
    ensures b.header.prevId == r.BlockId(Last(blocks))
    ensures b.header.timestampMs > MedianTimePast(blocks)
  {
  }

  lemma {:induction false} ChainHeights(r: Rules, blocks: seq<Block>, i: nat)
    requires ChainOk(r, blocks) && i < |blocks|
    ensures blocks[i].header.height == i
    ensures i > 0 ==> blocks[i].header.prevId == r.BlockId(blocks[i - 1])
    decreases i
  {
    if i == 0 {
      ChainOkPrefix(r, blocks, 1);
      assert blocks[..1][0] == blocks[0];
    } else {
      ChainHeights(r, blocks, i - 1);
      ChainOkPrefix(r, blocks, i);
      AcceptedLinks(r, blocks[..i], blocks[i]);
    }
  }

  /* ---------- the invariant of a chain in memory ---------- */

  // Block i took state i-1 to state i.
  ghost predicate StepAt(r: Rules, blocks: seq<Block>, states: seq<State>, i: nat)
    requires 1 <= i < |blocks| == |states|
  {
    states[i] == Apply(r, states[i - 1], blocks[i])
  }

  // The k-th undo record takes the state of its block back to the state before it.
  ghost predicate InverseAt(states: seq<State>, ring: seq<BlockUndo>, k: nat)
    requires k < |ring| < |states|
  {
    Rewind(states[|states| - |ring| + k], ring[k]) == states[|states| - |ring| + k - 1]
  }

  // `states` are the states after each block of an accepted chain.
  ghost predicate HistoryOk(r: Rules, blocks: seq<Block>, states: seq<State>) {
    && ChainOk(r, blocks)
    && |states| == |blocks|
    && states[0] == EMPTY_STATE
    && forall i: nat {:trigger StepAt(r, blocks, states, i)} | 1 <= i < |blocks| :: StepAt(r, blocks, states, i)
  }

  // The ring holds inverses of the newest |ring| blocks, newest last.
  ghost predicate RingOk(states: seq<State>, ring: seq<BlockUndo>) {
    && |ring| <= STATE_RETENTION_BLOCKS
    && |ring| < |states|
    && forall k: nat {:trigger InverseAt(states, ring, k)} | k < |ring| :: InverseAt(states, ring, k)
  }

  function PushUndo(ring: seq<BlockUndo>, u: BlockUndo): seq<BlockUndo> {
    if |ring| + 1 > STATE_RETENTION_BLOCKS then (ring + [u])[1..] else ring + [u]
  }

  /** The states recorded along the way are the fold. */
  lemma {:induction false} HistoryIsFold(r: Rules, blocks: seq<Block>, states: seq<State>, i: nat)
    requires HistoryOk(r, blocks, states) && i < |blocks|
    ensures states[i] == StateOf(r, blocks[..i + 1])
    decreases i
  {
    if i > 0 {
      HistoryIsFold(r, blocks, states, i - 1);
      assert StepAt(r, blocks, states, i);
      assert blocks[..i + 1][..i] == blocks[..i];
    }
  }

  lemma HistoryPush(r: Rules, blocks: seq<Block>, states: seq<State>, b: Block, s: State)
    requires HistoryOk(r, blocks, states) && Accepts(r, blocks, b) && s == Apply(r, Last(states), b)
    ensures HistoryOk(r, blocks + [b], states + [s])
  {
    hide Apply, Accepts, AcceptedAt;
    var blocks', states' := blocks + [b], states + [s];
    ChainOkPush(r, blocks, b);
    forall i: nat | 1 <= i < |blocks'| ensures StepAt(r, blocks', states', i) {
      assert i < |blocks| ==> StepAt(r, blocks, states, i);
    }
  }

  lemma HistoryPop(r: Rules, blocks: seq<Block>, states: seq<State>)
    requires HistoryOk(r, blocks, states) && |blocks| > 1
    ensures HistoryOk(r, blocks[..|blocks| - 1], states[..|blocks| - 1])
  {
    hide Apply, AcceptedAt, ChainOk;
    var blocks', states' := blocks[..|blocks| - 1], states[..|blocks| - 1];
    ChainOkPrefix(r, blocks, |blocks| - 1);
    forall i: nat | 1 <= i < |blocks'| ensures StepAt(r, blocks', states', i) {
      assert StepAt(r, blocks, states, i);
    }
  }

  lemma RingPush(states: seq<State>, ring: seq<BlockUndo>, s: State, u: BlockUndo)
    requires states != [] && RingOk(states, ring) && Rewind(s, u) == Last(states)
    ensures RingOk(states + [s], PushUndo(ring, u))
  {
    var states', ring' := states + [s], PushUndo(ring, u);
    forall k: nat | k < |ring'| ensures InverseAt(states', ring', k) {
      if k < |ring'| - 1 {
        var j := k + |ring| + 1 - |ring'|;
        assert InverseAt(states, ring, j);
        assert ring'[k] == ring[j];
      }
    }
  }

  lemma RingPop(states: seq<State>, ring: seq<BlockUndo>)
    requires RingOk(states, ring) && ring != []
    ensures RingOk(states[..|states| - 1], ring[..|ring| - 1])
    ensures Rewind(Last(states), Last(ring)) == states[|states| - 2]
  {
    var states', ring' := states[..|states| - 1], ring[..|ring| - 1];
    assert InverseAt(states, ring, |ring| - 1);
    forall k: nat | k < |ring'| ensures InverseAt(states', ring', k) {
      assert InverseAt(states, ring, k);
    }
  }

  /* ---------- production ---------- */

  function FirstUnencodable(r: Rules, proofs: seq<PegProof>, i: nat): Option<nat>
    requires i <= |proofs|
    decreases |proofs| - i
  {
    if i == |proofs| then None
    else if r.prim.encodePeg(proofs[i]).None? then Some(i)
    else FirstUnencodable(r, proofs, i + 1)
  }

  function EncodePegs(r: Rules, proofs: seq<PegProof>): seq<seq<byte>> {
    if proofs == [] then [] else
      EncodePegs(r, proofs[..|proofs| - 1]) +
      (match r.prim.encodePeg(proofs[|proofs| - 1]) case Some(e) => [e] case None => [])
  }

  // What a producer is asked to build: transfers, peg-mints and an optional coinbase.
  datatype Order = Order(txs: seq<Transfer>, proofs: seq<PegProof>, coinbase: Option<MintProof>)
  {
    function Reward(): RewardMode {
      match coinbase case None => NoReward case Some(p) => Minted(p.cm)
    }

    function Claim(r: Rules): CmBytes {
      match coinbase case None => EMPTY_REWARD_CLAIM case Some(p) => r.prim.encodeCm(p.cm)
    }
  }

  function ProducedBlock(r: Rules, blocks: seq<Block>, o: Order, now: nat, post: State): Block
    requires blocks != []
  {
    var tip := Last(blocks).header;
    var body := Body(o.txs, EncodePegs(r, o.proofs));
    Block(
      Header(1, r.HeaderId(tip), tip.height + 1, Max(now, MedianTimePast(blocks) + 1), r.TxRoot(body),
             post.root, post.digest, post.pot, r.retarget(DaaView(blocks)), o.Claim(r)),
      body,
      o.coinbase)
  }

  function Produce(r: Rules, blocks: seq<Block>, o: Order, now: nat): Result<Block, ExtendError>
    requires blocks != []
  {
    match FirstUnencodable(r, o.proofs, 0)
    case Some(i) => Err(PegMintDecode(i))
    case None =>
      var s := StateOf(r, blocks);
      match Plan(r, s, o.txs, o.proofs, o.Reward())
      case Err(e) => Err(Refused(e))
      case Ok(e) => Ok(ProducedBlock(r, blocks, o, now, Commit(r, s, e)))
  }

  /* ---------- the mutable chain ---------- */

  class Chain {
    const rules: Rules
    var blocks: seq<Block>
    const state: ShieldedState
    var undoRing: seq<BlockUndo>

    // The state after each block, newest last.
    ghost var states: seq<State>

    /** Every block was accepted on its predecessors, the state is the newest in the history
        (the fold over the blocks, see ValidIsFold), and the ring holds exact inverses. */
    ghost predicate Valid()
      reads this, state
    {
      && state.rules == rules
      && state.Valid()
      && HistoryOk(rules, blocks, states)
      && state.View() == Last(states)
      && RingOk(states, undoRing)
    }

    lemma ValidIsFold()
      requires Valid()
      ensures ChainOk(rules, blocks) && state.View() == StateOf(rules, blocks)
    {
      HistoryIsFold(rules, blocks, states, |blocks| - 1);
      assert blocks[..|blocks|] == blocks;
    }

    lemma NotEmpty()
      requires Valid()
      ensures blocks != []
    {
    }

    constructor (rules: Rules)
      ensures Valid() && this.rules == rules && fresh(state)
      ensures blocks == [rules.GenesisBlock()] && undoRing == []
    {
      this.rules := rules;
      blocks := [rules.GenesisBlock()];
      state := new ShieldedState(rules);
      undoRing := [];
      states := [EMPTY_STATE];
    }

    method CheckHeader(h: Header, now: nat) returns (err: Option<ExtendError>)
      requires Valid()
      requires now + MAX_FUTURE_DRIFT_MS <= U64_MAX
      ensures err == HeaderVerdict(rules, blocks, h, now)
    {
      if h.version != 1 {
        return Some(UnsupportedVersion(h.version));
      }
      var tip := Last(blocks).header;
      var tipId := rules.HeaderId(tip);
      if h.prevId != tipId {
        return Some(PrevIdMismatch(h.prevId, tipId));
      }
      if h.height != tip.height + 1 {
        return Some(HeightMismatch(h.height, tip.height + 1));
      }
      var mtp := MedianTimePast(blocks);
      if h.timestampMs <= mtp {
        return Some(TimestampNotAfterMtp(h.timestampMs, mtp));
      }
      if h.timestampMs > now + MAX_FUTURE_DRIFT_MS {
        return Some(TimestampTooFarInFuture(h.timestampMs, now));
      }
      var want := rules.retarget(DaaView(blocks));
      if h.scNbits != want {
        return Some(WrongDifficulty(h.scNbits, want));
      }
      return None;
    }

    // The first transfer, if any, whose proof fails against the leaves before the block.
    method CheckProofs(txs: seq<Transfer>) returns (err: Option<ExtendError>)
      requires Valid()
      ensures err == ProofVerdict(rules, state.View(), txs)
    {
      if rules.proofMode == StubProofs || txs == [] {
        return None;
      }
      if state.cmTree == [] {
        return Some(NoAnchor);
      }
      for i := 0 to |txs|
        invariant FirstBadProof(rules, state.cmLeaves, txs, 0) == FirstBadProof(rules, state.cmLeaves, txs, i)
      {
        if !rules.prim.verifyTransfer(state.cmTree, txs[i], rules.scTxFee) {
          return Some(Proof(i));
        }
      }
      return None;
    }

    method DecodePegMints(envelopes: seq<seq<byte>>) returns (res: Result<seq<PegProof>, ExtendError>)
      ensures match FirstUndecodable(rules, envelopes, 0)
        case Some(i) => res == Err(PegMintDecode(i))
        case None => res == Ok(DecodePegs(rules, envelopes))
    {
      var proofs: seq<PegProof> := [];
      for i := 0 to |envelopes|
        invariant FirstUndecodable(rules, envelopes, 0) == FirstUndecodable(rules, envelopes, i)
        invariant proofs == DecodePegs(rules, envelopes[..i])
      {
        match rules.prim.decodePeg(envelopes[i]) {
          case None => return Err(PegMintDecode(i));
          case Some(p) => proofs := proofs + [p];
        }
        assert envelopes[..i + 1][..i] == envelopes[..i];
      }
      assert envelopes[..|envelopes|] == envelopes;
      return Ok(proofs);
    }

    // Every check on a block that runs before the state is touched.
    method CheckBeforeApply(block: Block, now: nat) returns (res: Result<seq<PegProof>, ExtendError>)
      requires Valid()
      requires now + MAX_FUTURE_DRIFT_MS <= U64_MAX
      ensures match res
        case Err(e) => Verdict(rules, blocks, block, now) == Some(e)
        case Ok(proofs) =>
          && proofs == DecodePegs(rules, block.body.pegMints)
          && Verdict(rules, blocks, block, now) ==
             match PlanFor(rules, StateOf(rules, blocks), block)
             case Err(e) => Some(Refused(e))
             case Ok(e) => RootsVerdict(block.header, Commit(rules, StateOf(rules, blocks), e))
    {
      assert state.View() == StateOf(rules, blocks) by {
        ValidIsFold();
      }
      var err := CheckHeader(block.header, now);
      if err.Some? {
        return Err(err.value);
      }
      var wantTxRoot := rules.TxRoot(block.body);
      if block.header.txRoot != wantTxRoot {
        return Err(TxRootMismatch(block.header.txRoot, wantTxRoot));
      }
      err := CheckProofs(block.body.transfers);
      if err.Some? {
        return Err(err.value);
      }
      match block.coinbase {
        case None =>
          if block.header.rewardClaim != EMPTY_REWARD_CLAIM {
            return Err(RewardClaimMismatch);
          }
        case Some(proof) =>
          var value := ExpectedCoinbaseValue(rules, state.pot, |block.body.transfers|);
          if !rules.prim.verifyMint(value, proof) {
            return Err(CoinbaseMint);
          }
          if rules.prim.isIdentity(proof.cm) {
            return Err(ZeroCoinbase);
          }
          if block.header.rewardClaim != rules.prim.encodeCm(proof.cm) {
            return Err(RewardClaimMismatch);
          }
      }
      res := DecodePegMints(block.body.pegMints);
    }

    // The state takes the block first; a header with another digest, pot or root than the result
    // has the block undone again.
    method ApplyOrRollBack(block: Block, proofs: seq<PegProof>) returns (res: Result<BlockUndo, ExtendError>)
      requires state.Valid() && state.rules == rules
      requires proofs == DecodePegs(rules, block.body.pegMints)
      modifies state
      ensures state.Valid()
      ensures match PlanFor(rules, old(state.View()), block)
        case Err(e) => res == Err(Refused(e))
        case Ok(e) => match RootsVerdict(block.header, Commit(rules, old(state.View()), e))
                      case Some(err) => res == Err(err)
                      case None => res.Ok?
      ensures res.Err? ==> state.View() == old(state.View())
      ensures res.Ok? ==>
        && state.View() == Apply(rules, old(state.View()), block)
        && Rewind(state.View(), res.value) == old(state.View())
    {
      ghost var s := state.View();
      var applied := state.ApplyBlock(block.body.transfers, proofs, RewardOf(block));
      if applied.Err? {
        return Err(Refused(applied.error));
      }
      var undo := applied.value;
      RewindInvertsCommit(rules, s, block.body.transfers, proofs, RewardOf(block));
      var want := state.View();
      if block.header.nullifierDigest != want.digest {
        state.Rollback(undo);
        return Err(NullifierDigestMismatch(block.header.nullifierDigest, want.digest));
      }
      if block.header.potBalance != want.pot {
        state.Rollback(undo);
        return Err(PotMismatch(block.header.potBalance, want.pot));
      }
      if block.header.cmTreeRoot != want.root {
        state.Rollback(undo);
        return Err(CmTreeRootMismatch(block.header.cmTreeRoot, want.root));
      }
      return Ok(undo);
    }

    /** The verdict on a next block: it joins the chain, or the chain and its state are as before, even
        where the refusal came after the state had already taken the block. */
    method TryExtend(block: Block, now: nat) returns (err: Option<ExtendError>)
      requires Valid()
      requires now + MAX_FUTURE_DRIFT_MS <= U64_MAX
      modifies this, state
      ensures Valid()
      ensures err == Verdict(rules, old(blocks), block, now)
      ensures err.Some? ==> blocks == old(blocks) && undoRing == old(undoRing) && state.View() == old(state.View())
      ensures err.None? ==>
                blocks == old(blocks) + [block] && |undoRing| == Min(|old(undoRing)| + 1, 240)
    {
      assert state.View() == StateOf(rules, blocks) by {
        ValidIsFold();
      }
      var checked := CheckBeforeApply(block, now);
      if checked.Err? {
        return Some(checked.error);
      }
      var applied := ApplyOrRollBack(block, checked.value);
      if applied.Err? {
        return Some(applied.error);
      }
      Append(block, applied.value, now);
      return None;
    }

    // Record an accepted block and its undo record.
    method Append(block: Block, undo: BlockUndo, ghost now: nat)
      requires state.Valid() && state.rules == rules
      requires HistoryOk(rules, blocks, states) && RingOk(states, undoRing)
      requires Verdict(rules, blocks, block, now).None?
      requires state.View() == Apply(rules, Last(states), block) && Rewind(state.View(), undo) == Last(states)
      modifies `blocks, `undoRing, `states
      ensures Valid()
      ensures blocks == old(blocks) + [block] && |undoRing| == Min(|old(undoRing)| + 1, STATE_RETENTION_BLOCKS)
    {
      AcceptedIffPinnedAndNotAhead(rules, blocks, block, now);
      HistoryPush(rules, blocks, states, block, state.View());
      RingPush(states, undoRing, state.View(), undo);
      states := states + [state.View()];
      blocks := blocks + [block];
      undoRing := undoRing + [undo];
      if |undoRing| > STATE_RETENTION_BLOCKS {
        undoRing := undoRing[1..];
      }
    }

    method EncodePegMints(proofs: seq<PegProof>) returns (res: Result<seq<seq<byte>>, ExtendError>)
      ensures match FirstUnencodable(rules, proofs, 0)
        case Some(i) => res == Err(PegMintDecode(i))
        case None => res == Ok(EncodePegs(rules, proofs))
    {
      var envelopes: seq<seq<byte>> := [];
      for i := 0 to |proofs|
        invariant FirstUnencodable(rules, proofs, 0) == FirstUnencodable(rules, proofs, i)
        invariant envelopes == EncodePegs(rules, proofs[..i])
      {
        match rules.prim.encodePeg(proofs[i]) {
          case None => return Err(PegMintDecode(i));
          case Some(bytes) => envelopes := envelopes + [bytes];
        }
        assert proofs[..i + 1][..i] == proofs[..i];
      }
      assert proofs[..|proofs|] == proofs;
      return Ok(envelopes);
    }

    /** Build the next block by dry-running the order on a copy of the state. */
    method ProduceInner(o: Order, now: nat) returns (res: Result<Block, ExtendError>)
      requires Valid()
      ensures res == Produce(rules, blocks, o, now)
    {
      hide Plan, MedianTimePast, HistoryOk, RingOk, FirstUnencodable, EncodePegs;
      assert state.View() == StateOf(rules, blocks) by {
        ValidIsFold();
      }
      NotEmpty();
      var encoded := EncodePegMints(o.proofs);
      if encoded.Err? {
        return Err(encoded.error);
      }
      var dry := new ShieldedState.Clone(state);
      var applied := dry.ApplyBlock(o.txs, o.proofs, o.Reward());
      if applied.Err? {
        return Err(Refused(applied.error));
      }
      var tip := Last(blocks).header;
      var body := Body(o.txs, encoded.value);
      var header := Header(
        1, rules.HeaderId(tip), tip.height + 1, Max(now, MedianTimePast(blocks) + 1), rules.TxRoot(body),
        dry.cmRoot, dry.digest, dry.pot, rules.retarget(DaaView(blocks)), o.Claim(rules));
      return Ok(Block(header, body, o.coinbase));
    }

    /** One block back, whenever there is a record for it. */
    method RollbackTip() returns (ok: bool)
      requires Valid()
      modifies this, state
      ensures Valid()
      ensures ok <==> old(undoRing) != []
      ensures !ok ==> blocks == old(blocks) && undoRing == old(undoRing) && state.View() == old(state.View())
      ensures ok ==> blocks == old(blocks)[..|old(blocks)| - 1] && undoRing == old(undoRing)[..|old(undoRing)| - 1]
    {
      if |blocks| <= 1 {
        return false;
      }
      if undoRing == [] {
        return false;
      }
      var undo := undoRing[|undoRing| - 1];
      RingPop(states, undoRing);
      HistoryPop(rules, blocks, states);
      states := states[..|states| - 1];
      undoRing := undoRing[..|undoRing| - 1];
      blocks := blocks[..|blocks| - 1];
      state.Rollback(undo);
      return true;
    }
  }
}
