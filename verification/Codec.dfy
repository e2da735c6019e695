/** Canonical wire serialization of headers, transfers, bodies and blocks: three levels of
    length-prefixed nesting with consensus caps, and an optional coinbase proof. */
module Codec {
  import opened Common
  import opened Blocks
  import opened Wire

  const HASH_BYTES: nat := 32
  const NF_BYTES: nat := 32
  const NOTE_CM_BYTES: nat := 33
  const EPK_BYTES: nat := 33
  const NOTE_CT_BYTES: nat := 152
  const NOTE_OUT_CT_BYTES: nat := 80
  const OUTPUT_BYTES: nat := NOTE_CM_BYTES + EPK_BYTES + NOTE_CT_BYTES + NOTE_OUT_CT_BYTES
  const MAX_PROOF_BYTES: nat := 8_192
  const MAX_BLOCK_TXS: nat := 128
  const MAX_BLOCK_BYTES: nat := 524_288
  const MAX_BLOCK_PEGMINTS: nat := 32
  const MAX_PEGMINT_PROOF_BYTES: nat := 2_097_152

  /** The coinbase proof serialization, external to the format: `read` returns a proof and how
      many bytes it took. */
  datatype MintCodec = MintCodec(write: MintProof -> Bytes, read: Bytes -> Option<(MintProof, nat)>)

  /* ---------- what fits the format ---------- */

  predicate Fits(n: nat, width: nat) {
    n < Pow(256, width)
  }

  predicate HeaderOk(h: Header) {
    && h.version < 256 && Fits(h.prevId, 32)
    && h.height <= 0xFFFF_FFFF_FFFF_FFFF && h.timestampMs <= 0xFFFF_FFFF_FFFF_FFFF
    && Fits(h.txRoot, 32) && Fits(h.cmTreeRoot, 32) && Fits(h.nullifierDigest, 32)
    && h.potBalance <= 0xFFFF_FFFF_FFFF_FFFF && h.scNbits <= 0xFFFF_FFFF && Fits(h.rewardClaim, 33)
  }

  predicate OutputOk(o: Output) {
    Fits(o.noteCm, 33) && Fits(o.epk, 33) && Fits(o.ct, 152) && Fits(o.outCt, 80)
  }

  predicate TransferOk(t: Transfer) {
    && Fits(t.nf0, 32) && Fits(t.nf1, 32)
    && OutputOk(t.out0) && OutputOk(t.out1)
    && |t.proof| <= 8_192
  }

  predicate BodyOk(b: Body) {
    && |b.transfers| <= 128 && (forall i | 0 <= i < |b.transfers| :: TransferOk(b.transfers[i]))
    && |b.pegMints| <= 32
    && |BodyBytes(b)| <= 524_288
  }

  predicate BlockOk(c: MintCodec, b: Block) {
    && HeaderOk(b.header) && BodyOk(b.body)
    && (b.coinbase.Some? ==>
          var cb := c.write(b.coinbase.value);
          |cb| <= 8_192 && c.read(cb) == Some((b.coinbase.value, |cb|)))
  }

  /* ---------- the format ---------- */

  function HeaderParts(h: Header): seq<Bytes> {
    [[h.version % 256], Fixed(h.prevId, HASH_BYTES), Vlq(h.height), Vlq(h.timestampMs), Fixed(h.txRoot, HASH_BYTES),
     Fixed(h.cmTreeRoot, HASH_BYTES), Fixed(h.nullifierDigest, HASH_BYTES), Vlq(h.potBalance), Vlq(h.scNbits),
     Fixed(h.rewardClaim, NOTE_CM_BYTES)]
  }

  function HeaderBytes(h: Header): Bytes {
    Flatten(HeaderParts(h))
  }

  function OutputParts(o: Output): seq<Bytes> {
    [Fixed(o.noteCm, NOTE_CM_BYTES), Fixed(o.epk, EPK_BYTES),
     Fixed(o.ct, NOTE_CT_BYTES), Fixed(o.outCt, NOTE_OUT_CT_BYTES)]
  }

  function TransferParts(t: Transfer): seq<Bytes> {
    [Fixed(t.nf0, NF_BYTES), Fixed(t.nf1, NF_BYTES)] +
    OutputParts(t.out0) + OutputParts(t.out1) +
    [Vlq(|t.proof|), t.proof]
  }

  function TransferBytes(t: Transfer): Bytes {
    Flatten(TransferParts(t))
  }

  // Length, then content.
  function Prefixed(b: Bytes): seq<Bytes> {
    [Vlq(|b|), b]
  }

  function TxParts(txs: seq<Transfer>): seq<Bytes> {
    if txs == [] then [] else TxParts(txs[..|txs| - 1]) + Prefixed(TransferBytes(txs[|txs| - 1]))
  }

  function PegParts(pegs: seq<Bytes>): seq<Bytes> {
    if pegs == [] then [] else PegParts(pegs[..|pegs| - 1]) + Prefixed(pegs[|pegs| - 1])
  }

  function BodyParts(b: Body): seq<Bytes> {
    [Vlq(|b.transfers|)] + TxParts(b.transfers) + [Vlq(|b.pegMints|)] + PegParts(b.pegMints)
  }

  function BodyBytes(b: Body): Bytes {
    Flatten(BodyParts(b))
  }

  function CoinbaseParts(c: MintCodec, coinbase: Option<MintProof>): seq<Bytes> {
    match coinbase
    case None => [[0]]
    case Some(proof) => [[1]] + Prefixed(c.write(proof))
  }

  function BlockParts(c: MintCodec, b: Block): seq<Bytes> {
    Prefixed(HeaderBytes(b.header)) + Prefixed(BodyBytes(b.body)) + CoinbaseParts(c, b.coinbase)
  }

  function BlockBytes(c: MintCodec, b: Block): Bytes {
    Flatten(BlockParts(c, b))
  }

  /* ---------- decoding, as a function of the bytes ---------- */

  function Finish<T>(d: Bytes, p: nat, value: T): Result<T, DecodeError> {
    if p < |d| then Err(TrailingBytes(|d| - p)) else Ok(value)
  }

  function ParseHeader(d: Bytes): Result<Header, DecodeError> {
    var version :- U8At(d, 0);
    var prevId :- NumberAt(d, version.1, HASH_BYTES);
    var height :- U64At(d, prevId.1);
    var timestamp :- U64At(d, height.1);
    var txRoot :- NumberAt(d, timestamp.1, HASH_BYTES);
    var cmRoot :- NumberAt(d, txRoot.1, HASH_BYTES);
    var digest :- NumberAt(d, cmRoot.1, HASH_BYTES);
    var pot :- U64At(d, digest.1);
    var nbits :- U64At(d, pot.1);
    if nbits.0 > U32_MAX then Err(NbitsOutOfRange(nbits.0)) else
      var claim :- NumberAt(d, nbits.1, NOTE_CM_BYTES);
      Finish(d, claim.1, Header(version.0, prevId.0, height.0, timestamp.0, txRoot.0, cmRoot.0, digest.0, pot.0,
                                nbits.0, claim.0))
  }

  function ParseOutput(d: Bytes, p: nat): Read<Output> {
    var cm :- NumberAt(d, p, NOTE_CM_BYTES);
    var epk :- NumberAt(d, cm.1, EPK_BYTES);
    var ct :- NumberAt(d, epk.1, NOTE_CT_BYTES);
    var outCt :- NumberAt(d, ct.1, NOTE_OUT_CT_BYTES);
    Ok((Output(cm.0, epk.0, ct.0, outCt.0), outCt.1))
  }

  function ParseTransfer(d: Bytes): Result<Transfer, DecodeError> {
    var nf0 :- NumberAt(d, 0, NF_BYTES);
    var nf1 :- NumberAt(d, nf0.1, NF_BYTES);
    var out0 :- ParseOutput(d, nf1.1);
    var out1 :- ParseOutput(d, out0.1);
    var len :- U64At(d, out1.1);
    if len.0 > MAX_PROOF_BYTES then Err(ProofTooLarge(len.0)) else
      var proof :- BytesAt(d, len.1, len.0);
      Finish(d, proof.1, Transfer(nf0.0, nf1.0, out0.0, out1.0, proof.0))
  }

  function MapTx(r: Result<Transfer, DecodeError>): Result<Transfer, DecodeError> {
    match r case Ok(t) => Ok(t) case Err(e) => Err(InTx(e))
  }

  function ParseTxs(d: Bytes, p: nat, count: nat, acc: seq<Transfer>): Read<seq<Transfer>>
    decreases count
  {
    if count == 0 then Ok((acc, p)) else
      var len :- U64At(d, p);
      var txBytes :- BytesAt(d, len.1, Min(len.0, MAX_BLOCK_BYTES));
      var tx :- MapTx(ParseTransfer(txBytes.0));
      ParseTxs(d, txBytes.1, count - 1, acc + [tx])
  }

  function ParsePegs(d: Bytes, p: nat, count: nat, acc: seq<Bytes>): Read<seq<Bytes>>
    decreases count
  {
    if count == 0 then Ok((acc, p)) else
      var len :- U64At(d, p);
      if len.0 > MAX_PEGMINT_PROOF_BYTES then Err(PegMintTooLarge(len.0)) else
        var peg :- BytesAt(d, len.1, len.0);
        ParsePegs(d, peg.1, count - 1, acc + [peg.0])
  }

  function ParseBody(d: Bytes): Result<Body, DecodeError> {
    if |d| > MAX_BLOCK_BYTES then Err(TooLarge(|d|)) else
      var txCount :- U64At(d, 0);
      if txCount.0 > MAX_BLOCK_TXS then Err(TooManyTxs(txCount.0)) else
        var txs :- ParseTxs(d, txCount.1, txCount.0, []);
        var pegCount :- U64At(d, txs.1);
        if pegCount.0 > MAX_BLOCK_PEGMINTS then Err(TooManyPegMints(pegCount.0)) else
          var pegs :- ParsePegs(d, pegCount.1, pegCount.0, []);
          Finish(d, pegs.1, Body(txs.0, pegs.0))
  }

  function ParseCoinbase(c: MintCodec, d: Bytes, p: nat): Read<Option<MintProof>> {
    var flag :- U8At(d, p);
    if flag.0 == 0 then Ok((None, flag.1))
    else if flag.0 != 1 then Err(BadCoinbaseFlag(flag.0))
    else
      var len :- U64At(d, flag.1);
      if len.0 > MAX_PROOF_BYTES then Err(CoinbaseTooLarge(len.0)) else
        var cb :- BytesAt(d, len.1, len.0);
        match c.read(cb.0)
        case None => Err(CoinbaseMalformed)
        case Some((proof, used)) =>
          if used < |cb.0| then Err(CoinbaseTrailingBytes(|cb.0| - used)) else Ok((Some(proof), cb.1))
  }

  function MapHeader(r: Result<Header, DecodeError>): Result<Header, DecodeError> {
    match r case Ok(h) => Ok(h) case Err(e) => Err(InHeader(e))
  }

  function MapBody(r: Result<Body, DecodeError>): Result<Body, DecodeError> {
    match r case Ok(b) => Ok(b) case Err(e) => Err(InBody(e))
  }

  function ParseBlock(c: MintCodec, d: Bytes): Result<Block, DecodeError> {
    var headerLen :- U64At(d, 0);
    var headerBytes :- BytesAt(d, headerLen.1, Min(headerLen.0, MAX_BLOCK_BYTES));
    var header :- MapHeader(ParseHeader(headerBytes.0));
    var bodyLen :- U64At(d, headerBytes.1);
    var bodyBytes :- BytesAt(d, bodyLen.1, Min(bodyLen.0, MAX_BLOCK_BYTES));
    var body :- MapBody(ParseBody(bodyBytes.0));
    var coinbase :- ParseCoinbase(c, d, bodyBytes.1);
    Finish(d, coinbase.1, Block(header, body, coinbase.0))
  }

  /* ---------- round trips ---------- */

  /** Every header in range decodes from its bytes. */
  lemma HeaderRoundTrip(h: Header)
    requires HeaderOk(h)
    ensures ParseHeader(HeaderBytes(h)) == Ok(h)
  {
    hide Flatten, Vlq, Fixed, U64At, NumberAt, U8At, Pow, Pos;
    var parts := HeaderParts(h);
    WholeMessage(parts);
    ReadsU8(parts, 0, h.version);
    ReadsNumber(parts, 1, h.prevId, HASH_BYTES);
    ReadsU64(parts, 2, h.height);
    ReadsU64(parts, 3, h.timestampMs);
    ReadsNumber(parts, 4, h.txRoot, HASH_BYTES);
    ReadsNumber(parts, 5, h.cmTreeRoot, HASH_BYTES);
    ReadsNumber(parts, 6, h.nullifierDigest, HASH_BYTES);
    ReadsU64(parts, 7, h.potBalance);
    ReadsU64(parts, 8, h.scNbits);
    ReadsNumber(parts, 9, h.rewardClaim, NOTE_CM_BYTES);
  }

  lemma ReadsOutput(parts: seq<Bytes>, i: nat, o: Output)
    requires OutputOk(o) && i + 4 <= |parts| && parts[i..i + 4] == OutputParts(o)
    ensures ParseOutput(Flatten(parts), Pos(parts, i)) == Ok((o, Pos(parts, i + 4)))
  {
    hide Flatten, Fixed, NumberAt, Pow, Pos;
    var q := parts[i..i + 4];
    assert parts[i] == q[0] && parts[i + 1] == q[1] && parts[i + 2] == q[2] && parts[i + 3] == q[3];
    ReadsNumber(parts, i, o.noteCm, NOTE_CM_BYTES);
    ReadsNumber(parts, i + 1, o.epk, EPK_BYTES);
    ReadsNumber(parts, i + 2, o.ct, NOTE_CT_BYTES);
    ReadsNumber(parts, i + 3, o.outCt, NOTE_OUT_CT_BYTES);
  }

  /** Every transfer within the caps decodes from its bytes. */
  lemma TransferRoundTrip(t: Transfer)
    requires TransferOk(t)
    ensures ParseTransfer(TransferBytes(t)) == Ok(t)
  {
    hide Flatten, Vlq, Fixed, U64At, NumberAt, BytesAt, Pow, Pos, ParseOutput;
    var parts := TransferParts(t);
    WholeMessage(parts);
    ReadsNumber(parts, 0, t.nf0, NF_BYTES);
    ReadsNumber(parts, 1, t.nf1, NF_BYTES);
    assert parts[2..6] == OutputParts(t.out0);
    ReadsOutput(parts, 2, t.out0);
    assert parts[6..10] == OutputParts(t.out1);
    ReadsOutput(parts, 6, t.out1);
    ReadsU64(parts, 10, |t.proof|);
    ReadsBytes(parts, 11);
  }

  lemma {:induction false} TxPartsAt(txs: seq<Transfer>, i: nat)
    requires i < |txs|
    ensures |TxParts(txs)| == 2 * |txs|
    ensures TxParts(txs)[2 * i] == Vlq(|TransferBytes(txs[i])|) && TxParts(txs)[2 * i + 1] == TransferBytes(txs[i])
  {
    var rest := txs[..|txs| - 1];
    if i < |rest| {
      TxPartsAt(rest, i);
    } else if |rest| > 0 {
      TxPartsAt(rest, 0);
    }
  }

  lemma {:induction false} PegPartsAt(pegs: seq<Bytes>, i: nat)
    requires i < |pegs|
    ensures |PegParts(pegs)| == 2 * |pegs|
    ensures PegParts(pegs)[2 * i] == Vlq(|pegs[i]|) && PegParts(pegs)[2 * i + 1] == pegs[i]
  {
    var rest := pegs[..|pegs| - 1];
    if i < |rest| {
      PegPartsAt(rest, i);
    } else if |rest| > 0 {
      PegPartsAt(rest, 0);
    }
  }

  lemma PartFits(parts: seq<Bytes>, i: nat)
    requires i < |parts|
    ensures |parts[i]| <= |Flatten(parts)|
  {
    PartAt(parts, i);
  }

  // Reading one length-prefixed part.
  lemma ReadsPrefixed(parts: seq<Bytes>, i: nat)
    requires i + 1 < |parts| && parts[i] == Vlq(|parts[i + 1]|) && |Flatten(parts)| <= U64_MAX
    ensures U64At(Flatten(parts), Pos(parts, i)) == Ok((|parts[i + 1]|, Pos(parts, i + 1)))
    ensures BytesAt(Flatten(parts), Pos(parts, i + 1), |parts[i + 1]|) == Ok((parts[i + 1], Pos(parts, i + 2)))
    ensures |parts[i + 1]| <= |Flatten(parts)|
  {
    PartFits(parts, i + 1);
    ReadsU64(parts, i, |parts[i + 1]|);
    ReadsBytes(parts, i + 1);
  }

  lemma {:induction false} ReadsTxs(parts: seq<Bytes>, at: nat, txs: seq<Transfer>, i: nat)
    requires i <= |txs| && at + 2 * |txs| <= |parts| && |Flatten(parts)| <= MAX_BLOCK_BYTES
    requires forall k | 0 <= k < |txs| ::
      && TransferOk(txs[k])
      && parts[at + 2 * k] == Vlq(|TransferBytes(txs[k])|)
      && parts[at + 2 * k + 1] == TransferBytes(txs[k])
    ensures ParseTxs(Flatten(parts), Pos(parts, at + 2 * i), |txs| - i, txs[..i]) ==
            Ok((txs, Pos(parts, at + 2 * |txs|)))
    decreases |txs| - i
  {
    hide Flatten, Vlq, U64At, BytesAt, Pos, TransferBytes, ParseTransfer, TransferOk;
    if i == |txs| {
      assert txs[..i] == txs;
    } else {
      assert parts[at + 2 * i + 1] == TransferBytes(txs[i]);
      ReadsPrefixed(parts, at + 2 * i);
      TransferRoundTrip(txs[i]);
      assert txs[..i] + [txs[i]] == txs[..i + 1];
      ReadsTxs(parts, at, txs, i + 1);
      assert at + 2 * (i + 1) == at + 2 * i + 2;
    }
  }

  lemma {:induction false} ReadsPegs(parts: seq<Bytes>, at: nat, pegs: seq<Bytes>, i: nat)
    requires i <= |pegs| && at + 2 * |pegs| <= |parts| && |Flatten(parts)| <= MAX_BLOCK_BYTES
    requires forall k | 0 <= k < |pegs| :: parts[at + 2 * k] == Vlq(|pegs[k]|) && parts[at + 2 * k + 1] == pegs[k]
    ensures ParsePegs(Flatten(parts), Pos(parts, at + 2 * i), |pegs| - i, pegs[..i]) ==
            Ok((pegs, Pos(parts, at + 2 * |pegs|)))
    decreases |pegs| - i
  {
    hide Flatten, Vlq, U64At, BytesAt, Pos;
    if i == |pegs| {
      assert pegs[..i] == pegs;
    } else {
      assert parts[at + 2 * i + 1] == pegs[i];
      ReadsPrefixed(parts, at + 2 * i);
      assert pegs[..i] + [pegs[i]] == pegs[..i + 1];
      ReadsPegs(parts, at, pegs, i + 1);
      assert at + 2 * (i + 1) == at + 2 * i + 2;
    }
  }

  lemma BodyPartsAt(b: Body)
    ensures var parts := BodyParts(b); var n, m := |b.transfers|, |b.pegMints|;
      && |parts| == 2 + 2 * n + 2 * m
      && parts[0] == Vlq(n) && parts[1 + 2 * n] == Vlq(m)
      && (forall k | 0 <= k < n :: parts[1 + 2 * k] == Vlq(|TransferBytes(b.transfers[k])|)
                                   && parts[1 + 2 * k + 1] == TransferBytes(b.transfers[k]))
      && (forall k | 0 <= k < m :: parts[2 + 2 * n + 2 * k] == Vlq(|b.pegMints[k]|)
                                   && parts[2 + 2 * n + 2 * k + 1] == b.pegMints[k])
  {
    hide Vlq, TransferBytes;
    forall k | 0 <= k < |b.transfers| {
      TxPartsAt(b.transfers, k);
    }
    forall k | 0 <= k < |b.pegMints| {
      PegPartsAt(b.pegMints, k);
    }
    PartCounts(b);
  }

  lemma PartCounts(b: Body)
    ensures |TxParts(b.transfers)| == 2 * |b.transfers| && |PegParts(b.pegMints)| == 2 * |b.pegMints|
  {
    if b.transfers != [] {
      TxPartsAt(b.transfers, 0);
    }
    if b.pegMints != [] {
      PegPartsAt(b.pegMints, 0);
    }
  }

  /** Every body within the caps decodes from its bytes. */
  lemma BodyRoundTrip(b: Body)
    requires BodyOk(b)
    ensures ParseBody(BodyBytes(b)) == Ok(b)
  {
    hide Flatten, Vlq, U64At, Pos, TransferOk, TransferBytes, BodyParts, ParseTxs, ParsePegs;
    var parts, n, m := BodyParts(b), |b.transfers|, |b.pegMints|;
    BodyPartsAt(b);
    WholeMessage(parts);
    ReadsU64(parts, 0, n);
    ReadsTxs(parts, 1, b.transfers, 0);
    ReadsU64(parts, 1 + 2 * n, m);
    ReadsPegs(parts, 2 + 2 * n, b.pegMints, 0);
    assert b.transfers[..0] == [] && b.pegMints[..0] == [];
  }

  lemma {:induction false} VlqLength(n: nat, budget: nat)
    requires budget > 0 && n < Pow(128, budget)
    ensures |Vlq(n)| <= budget
    decreases budget
  {
    if n >= 128 {
      VlqLength(n / 128, budget - 1);
    }
  }

  lemma HeaderIsSmall(h: Header)
    requires HeaderOk(h)
    ensures |HeaderBytes(h)| <= 202
  {
    hide Pow;
    TenBytesSuffice();
    VlqLength(h.height, VLQ_MAX_BYTES);
    VlqLength(h.timestampMs, VLQ_MAX_BYTES);
    VlqLength(h.potBalance, VLQ_MAX_BYTES);
    VlqLength(h.scNbits, VLQ_MAX_BYTES);
    hide Flatten, Pos;
    var parts := HeaderParts(h);
    WholeMessage(parts);
    PartAt(parts, 0);
    PartAt(parts, 1);
    PartAt(parts, 2);
    PartAt(parts, 3);
    PartAt(parts, 4);
    PartAt(parts, 5);
    PartAt(parts, 6);
    PartAt(parts, 7);
    PartAt(parts, 8);
    PartAt(parts, 9);
  }

  /** Every block within the caps decodes from its bytes, through both nested messages and the
      optional coinbase proof. */
  lemma BlockRoundTrip(c: MintCodec, b: Block)
    requires BlockOk(c, b)
    ensures ParseBlock(c, BlockBytes(c, b)) == Ok(b)
  {
    hide Flatten, Vlq, U64At, U8At, BytesAt, Pos, HeaderOk, BodyOk, HeaderBytes, BodyBytes, ParseHeader, ParseBody;
    var parts := BlockParts(c, b);
    WholeMessage(parts);
    BlockLength(c, b);
    HeaderRoundTrip(b.header);
    BodyRoundTrip(b.body);
    ReadsPrefixed(parts, 0);
    ReadsPrefixed(parts, 2);
    match b.coinbase {
      case None =>
        ReadsU8(parts, 4, 0);
      case Some(proof) =>
        ReadsU8(parts, 4, 1);
        ReadsPrefixed(parts, 5);
    }
  }

  // A block is its two messages, the coinbase proof, and at most 31 bytes of framing.
  lemma BlockLength(c: MintCodec, b: Block)
    requires BlockOk(c, b)
    ensures |HeaderBytes(b.header)| <= 202 && |BodyBytes(b.body)| <= MAX_BLOCK_BYTES
    ensures |BlockBytes(c, b)| <= |BodyBytes(b.body)| + MAX_PROOF_BYTES + 202 + 31
  {
    hide Pow, HeaderBytes, BodyBytes, Flatten, Pos, HeaderOk;
    HeaderIsSmall(b.header);
    TenBytesSuffice();
    VlqLength(|HeaderBytes(b.header)|, VLQ_MAX_BYTES);
    VlqLength(|BodyBytes(b.body)|, VLQ_MAX_BYTES);
    var parts := BlockParts(c, b);
    WholeMessage(parts);
    PartAt(parts, 0);
    PartAt(parts, 1);
    PartAt(parts, 2);
    PartAt(parts, 3);
    PartAt(parts, 4);
    if b.coinbase.Some? {
      VlqLength(|c.write(b.coinbase.value)|, VLQ_MAX_BYTES);
      PartAt(parts, 5);
      PartAt(parts, 6);
    }
  }

  /** Distinct blocks within the caps have distinct bytes. */
  lemma BlockBytesInjective(c: MintCodec, a: Block, b: Block)
    requires BlockOk(c, a) && BlockOk(c, b) && BlockBytes(c, a) == BlockBytes(c, b)
    ensures a == b
  {
    hide BlockBytes, ParseBlock, BlockOk;
    BlockRoundTrip(c, a);
    BlockRoundTrip(c, b);
  }

  /* ---------- encoders ---------- */

  method EncodeHeader(h: Header) returns (bytes: Bytes)
    ensures bytes == HeaderBytes(h)
  {
    hide Flatten, Vlq, Fixed;
    var w := new VlqWriter();
    w.PutU8(h.version % 256);
    w.PutBytes(Fixed(h.prevId, HASH_BYTES));
    w.PutU64(h.height);
    w.PutU64(h.timestampMs);
    w.PutBytes(Fixed(h.txRoot, HASH_BYTES));
    w.PutBytes(Fixed(h.cmTreeRoot, HASH_BYTES));
    w.PutBytes(Fixed(h.nullifierDigest, HASH_BYTES));
    w.PutU64(h.potBalance);
    w.PutU64(h.scNbits);
    w.PutBytes(Fixed(h.rewardClaim, NOTE_CM_BYTES));
    assert w.parts == HeaderParts(h);
    bytes := w.buf;
  }

  method PutOutput(w: VlqWriter, o: Output)
    requires w.Valid()
    modifies w
    ensures w.Valid() && w.parts == old(w.parts) + OutputParts(o)
  {
    hide Flatten, Fixed;
    w.PutBytes(Fixed(o.noteCm, NOTE_CM_BYTES));
    w.PutBytes(Fixed(o.epk, EPK_BYTES));
    w.PutBytes(Fixed(o.ct, NOTE_CT_BYTES));
    w.PutBytes(Fixed(o.outCt, NOTE_OUT_CT_BYTES));
  }

  method EncodeTransfer(t: Transfer) returns (bytes: Bytes)
    ensures bytes == TransferBytes(t)
  {
    hide Flatten, Vlq, Fixed;
    var w := new VlqWriter();
    w.PutBytes(Fixed(t.nf0, NF_BYTES));
    w.PutBytes(Fixed(t.nf1, NF_BYTES));
    PutOutput(w, t.out0);
    PutOutput(w, t.out1);
    w.PutU64(|t.proof|);
    w.PutBytes(t.proof);
    assert w.parts == TransferParts(t);
    bytes := w.buf;
  }

  method PutPrefixed(w: VlqWriter, b: Bytes)
    requires w.Valid()
    modifies w
    ensures w.Valid() && w.parts == old(w.parts) + Prefixed(b)
  {
    hide Flatten, Vlq;
    w.PutU64(|b|);
    w.PutBytes(b);
  }

  method EncodeBody(b: Body) returns (bytes: Bytes)
    ensures bytes == BodyBytes(b)
  {
    hide Flatten, Vlq, TransferBytes, Prefixed;
    var w := new VlqWriter();
    w.PutU64(|b.transfers|);
    for i := 0 to |b.transfers|
      invariant w.Valid() && w.parts == [Vlq(|b.transfers|)] + TxParts(b.transfers[..i])
    {
      var txBytes := EncodeTransfer(b.transfers[i]);
      PutPrefixed(w, txBytes);
      assert b.transfers[..i + 1][..i] == b.transfers[..i];
    }
    assert b.transfers[..|b.transfers|] == b.transfers;
    w.PutU64(|b.pegMints|);
    for i := 0 to |b.pegMints|
      invariant w.Valid()
      invariant w.parts == [Vlq(|b.transfers|)] + TxParts(b.transfers) + [Vlq(|b.pegMints|)] + PegParts(b.pegMints[..i])
    {
      PutPrefixed(w, b.pegMints[i]);
      assert b.pegMints[..i + 1][..i] == b.pegMints[..i];
    }
    assert b.pegMints[..|b.pegMints|] == b.pegMints;
    bytes := w.buf;
  }

  method EncodeBlock(c: MintCodec, b: Block) returns (bytes: Bytes)
    ensures bytes == BlockBytes(c, b)
  {
    hide Flatten, Vlq, HeaderBytes, BodyBytes;
    var headerBytes := EncodeHeader(b.header);
    var bodyBytes := EncodeBody(b.body);
    var w := new VlqWriter();
    PutPrefixed(w, headerBytes);
    PutPrefixed(w, bodyBytes);
    match b.coinbase {
      case None =>
        w.PutU8(0);
      case Some(proof) =>
        w.PutU8(1);
        PutPrefixed(w, c.write(proof));
    }
    assert w.parts == BlockParts(c, b);
    bytes := w.buf;
  }

  /* ---------- decoders ---------- */

  method DecodeHeader(d: Bytes) returns (res: Result<Header, DecodeError>)
    ensures res == ParseHeader(d)
  {
    hide U64At, NumberAt, U8At;
    var r := new VlqReader(d);
    var version :- r.GetU8();
    var prevId :- r.GetNumber(HASH_BYTES);
    var height :- r.GetU64();
    var timestamp :- r.GetU64();
    var txRoot :- r.GetNumber(HASH_BYTES);
    var cmRoot :- r.GetNumber(HASH_BYTES);
    var digest :- r.GetNumber(HASH_BYTES);
    var pot :- r.GetU64();
    var nbits :- r.GetU64();
    if nbits > U32_MAX {
      return Err(NbitsOutOfRange(nbits));
    }
    var claim :- r.GetNumber(NOTE_CM_BYTES);
    if r.pos < |d| {
      return Err(TrailingBytes(|d| - r.pos));
    }
    return Ok(Header(version, prevId, height, timestamp, txRoot, cmRoot, digest, pot, nbits, claim));
  }

  method GetOutput(r: VlqReader) returns (res: Result<Output, DecodeError>)
    modifies r`pos
    ensures Advanced(ParseOutput(r.data, old(r.pos)), res, r.pos)
  {
    hide NumberAt;
    var cm :- r.GetNumber(NOTE_CM_BYTES);
    var epk :- r.GetNumber(EPK_BYTES);
    var ct :- r.GetNumber(NOTE_CT_BYTES);
    var outCt :- r.GetNumber(NOTE_OUT_CT_BYTES);
    return Ok(Output(cm, epk, ct, outCt));
  }

  method DecodeTransfer(d: Bytes) returns (res: Result<Transfer, DecodeError>)
    ensures res == ParseTransfer(d)
  {
    hide U64At, NumberAt, BytesAt, ParseOutput;
    var r := new VlqReader(d);
    var nf0 :- r.GetNumber(NF_BYTES);
    var nf1 :- r.GetNumber(NF_BYTES);
    var out0 :- GetOutput(r);
    var out1 :- GetOutput(r);
    var proofLen :- r.GetU64();
    if proofLen > MAX_PROOF_BYTES {
      return Err(ProofTooLarge(proofLen));
    }
    var proof :- r.GetBytes(proofLen);
    if r.pos < |d| {
      return Err(TrailingBytes(|d| - r.pos));
    }
    return Ok(Transfer(nf0, nf1, out0, out1, proof));
  }

  method DecodeBody(d: Bytes) returns (res: Result<Body, DecodeError>)
    ensures res == ParseBody(d)
  {
    hide U64At, BytesAt, ParseTransfer;
    if |d| > MAX_BLOCK_BYTES {
      return Err(TooLarge(|d|));
    }
    var r := new VlqReader(d);
    var count :- r.GetU64();
    if count > MAX_BLOCK_TXS {
      return Err(TooManyTxs(count));
    }
    var transfers: seq<Transfer> := [];
    ghost var start := r.pos;
    for i := 0 to count
      invariant ParseTxs(d, start, count, []) == ParseTxs(d, r.pos, count - i, transfers)
    {
      var len :- r.GetU64();
      var txBytes :- r.GetBytes(Min(len, MAX_BLOCK_BYTES));
      var tx := DecodeTransfer(txBytes);
      if tx.Err? {
        return Err(InTx(tx.error));
      }
      transfers := transfers + [tx.value];
    }
    var pegCount :- r.GetU64();
    if pegCount > MAX_BLOCK_PEGMINTS {
      return Err(TooManyPegMints(pegCount));
    }
    var pegMints: seq<Bytes> := [];
    start := r.pos;
    for i := 0 to pegCount
      invariant ParsePegs(d, start, pegCount, []) == ParsePegs(d, r.pos, pegCount - i, pegMints)
    {
      var len :- r.GetU64();
      if len > MAX_PEGMINT_PROOF_BYTES {
        return Err(PegMintTooLarge(len));
      }
      var peg :- r.GetBytes(len);
      pegMints := pegMints + [peg];
    }
    if r.pos < |d| {
      return Err(TrailingBytes(|d| - r.pos));
    }
    return Ok(Body(transfers, pegMints));
  }

  method GetCoinbase(c: MintCodec, r: VlqReader) returns (res: Result<Option<MintProof>, DecodeError>)
    modifies r`pos
    ensures Advanced(ParseCoinbase(c, r.data, old(r.pos)), res, r.pos)
  {
    hide U64At, BytesAt, U8At;
    var flag :- r.GetU8();
    if flag == 0 {
      return Ok(None);
    }
    if flag != 1 {
      return Err(BadCoinbaseFlag(flag));
    }
    var len :- r.GetU64();
    if len > MAX_PROOF_BYTES {
      return Err(CoinbaseTooLarge(len));
    }
    var cb :- r.GetBytes(len);
    match c.read(cb) {
      case None =>
        return Err(CoinbaseMalformed);
      case Some(proof) =>
        if proof.1 < |cb| {
          return Err(CoinbaseTrailingBytes(|cb| - proof.1));
        }
        return Ok(Some(proof.0));
    }
  }

  method DecodeBlock(c: MintCodec, d: Bytes) returns (res: Result<Block, DecodeError>)
    ensures res == ParseBlock(c, d)
  {
    hide U64At, BytesAt, ParseHeader, ParseBody, ParseCoinbase;
    var r := new VlqReader(d);
    var headerLen :- r.GetU64();
    var headerBytes :- r.GetBytes(Min(headerLen, MAX_BLOCK_BYTES));
    var header := DecodeHeader(headerBytes);
    if header.Err? {
      return Err(InHeader(header.error));
    }
    var bodyLen :- r.GetU64();
    var bodyBytes :- r.GetBytes(Min(bodyLen, MAX_BLOCK_BYTES));
    var body := DecodeBody(bodyBytes);
    if body.Err? {
      return Err(InBody(body.error));
    }
    var coinbase :- GetCoinbase(c, r);
    if r.pos < |d| {
      return Err(TrailingBytes(|d| - r.pos));
    }
    return Ok(Block(header.value, body.value, coinbase));
  }

  /* ---------- what decoding guarantees ---------- */

  lemma NumbersFit(d: Bytes, p: nat, width: nat)
    ensures NumberAt(d, p, width).Ok? ==> Fits(NumberAt(d, p, width).value.0, width)
  {
    if p + width <= |d| {
      UnfixedBound(d[p..p + width]);
    }
  }

  /** Whatever the bytes, a decoded header is in range and decodes again from its own encoding. */
  lemma DecodedHeaderFits(d: Bytes)
    requires ParseHeader(d).Ok?
    ensures HeaderOk(ParseHeader(d).value) && ParseHeader(HeaderBytes(ParseHeader(d).value)) == ParseHeader(d)
  {
    hide VlqAt, NumberAt, Fits, HeaderBytes, Vlq;
    var version := U8At(d, 0).value;
    var prevId := NumberAt(d, version.1, HASH_BYTES).value;
    var height := U64At(d, prevId.1).value;
    var timestamp := U64At(d, height.1).value;
    var txRoot := NumberAt(d, timestamp.1, HASH_BYTES).value;
    var cmRoot := NumberAt(d, txRoot.1, HASH_BYTES).value;
    var digest := NumberAt(d, cmRoot.1, HASH_BYTES).value;
    var pot := U64At(d, digest.1).value;
    var nbits := U64At(d, pot.1).value;
    NumbersFit(d, version.1, HASH_BYTES);
    VlqIsShortest(d, prevId.1, VLQ_MAX_BYTES);
    VlqIsShortest(d, height.1, VLQ_MAX_BYTES);
    NumbersFit(d, timestamp.1, HASH_BYTES);
    NumbersFit(d, txRoot.1, HASH_BYTES);
    NumbersFit(d, cmRoot.1, HASH_BYTES);
    VlqIsShortest(d, digest.1, VLQ_MAX_BYTES);
    NumbersFit(d, nbits.1, NOTE_CM_BYTES);
    HeaderRoundTrip(ParseHeader(d).value);
  }

  lemma OutputsFit(d: Bytes, p: nat)
    requires ParseOutput(d, p).Ok?
    ensures OutputOk(ParseOutput(d, p).value.0) && ParseOutput(d, p).value.1 == p + OUTPUT_BYTES
  {
    hide Fits;
    NumbersFit(d, p, NOTE_CM_BYTES);
    NumbersFit(d, p + NOTE_CM_BYTES, EPK_BYTES);
    NumbersFit(d, p + NOTE_CM_BYTES + EPK_BYTES, NOTE_CT_BYTES);
    NumbersFit(d, p + NOTE_CM_BYTES + EPK_BYTES + NOTE_CT_BYTES, NOTE_OUT_CT_BYTES);
  }

  lemma TransferLength(t: Transfer)
    ensures |TransferBytes(t)| == 2 * NF_BYTES + 2 * OUTPUT_BYTES + |Vlq(|t.proof|)| + |t.proof|
  {
    hide Vlq;
    FlattenAppend([Fixed(t.nf0, NF_BYTES), Fixed(t.nf1, NF_BYTES)] + OutputParts(t.out0) + OutputParts(t.out1),
                  [Vlq(|t.proof|), t.proof]);
    FlattenAppend([Fixed(t.nf0, NF_BYTES), Fixed(t.nf1, NF_BYTES)] + OutputParts(t.out0), OutputParts(t.out1));
    FlattenAppend([Fixed(t.nf0, NF_BYTES), Fixed(t.nf1, NF_BYTES)], OutputParts(t.out0));
    TwoParts(Fixed(t.nf0, NF_BYTES), Fixed(t.nf1, NF_BYTES));
    TwoParts(Vlq(|t.proof|), t.proof);
    OutputLength(t.out0);
    OutputLength(t.out1);
  }

  lemma OutputLength(o: Output)
    ensures |Flatten(OutputParts(o))| == OUTPUT_BYTES
  {
    hide Fixed;
    var cm, epk := Fixed(o.noteCm, NOTE_CM_BYTES), Fixed(o.epk, EPK_BYTES);
    var ct, outCt := Fixed(o.ct, NOTE_CT_BYTES), Fixed(o.outCt, NOTE_OUT_CT_BYTES);
    TwoParts(cm, epk);
    TwoParts(ct, outCt);
    assert OutputParts(o) == [cm, epk] + [ct, outCt];
    FlattenAppend([cm, epk], [ct, outCt]);
  }

  lemma TwoParts(a: Bytes, b: Bytes)
    ensures Flatten([a, b]) == a + b
  {
    OnePart(a);
    FlattenPush([a], b);
    assert [a] + [b] == [a, b];
  }

  /** Whatever the bytes, a decoded transfer is within the caps, takes no more bytes to write, and
      decodes again from them. */
  lemma DecodedTransferFits(d: Bytes)
    requires ParseTransfer(d).Ok?
    ensures var t := ParseTransfer(d).value;
      TransferOk(t) && |TransferBytes(t)| <= |d| && ParseTransfer(TransferBytes(t)) == Ok(t)
  {
    hide VlqAt, Fits, Unfixed, TransferBytes, ParseOutput, OutputOk, Vlq;
    NumbersFit(d, 0, NF_BYTES);
    NumbersFit(d, NF_BYTES, NF_BYTES);
    OutputsFit(d, 2 * NF_BYTES);
    OutputsFit(d, 2 * NF_BYTES + OUTPUT_BYTES);
    VlqIsShortest(d, 2 * NF_BYTES + 2 * OUTPUT_BYTES, VLQ_MAX_BYTES);
    var t := ParseTransfer(d).value;
    TransferLength(t);
    TransferRoundTrip(t);
  }

  lemma TxPartsLength(txs: seq<Transfer>, t: Transfer)
    ensures |Flatten(TxParts(txs + [t]))| ==
            |Flatten(TxParts(txs))| + |Vlq(|TransferBytes(t)|)| + |TransferBytes(t)|
  {
    hide Vlq, TransferBytes;
    assert (txs + [t])[..|txs|] == txs;
    FlattenAppend(TxParts(txs), Prefixed(TransferBytes(t)));
    TwoParts(Vlq(|TransferBytes(t)|), TransferBytes(t));
  }

  lemma PegPartsLength(pegs: seq<Bytes>, peg: Bytes)
    ensures |Flatten(PegParts(pegs + [peg]))| == |Flatten(PegParts(pegs))| + |Vlq(|peg|)| + |peg|
  {
    hide Vlq;
    assert (pegs + [peg])[..|pegs|] == pegs;
    FlattenAppend(PegParts(pegs), Prefixed(peg));
    TwoParts(Vlq(|peg|), peg);
  }

  lemma {:induction false} DecodedTxsFit(d: Bytes, p: nat, count: nat, acc: seq<Transfer>)
    requires ParseTxs(d, p, count, acc).Ok? && forall i | 0 <= i < |acc| :: TransferOk(acc[i])
    ensures var v := ParseTxs(d, p, count, acc).value;
      && |v.0| == |acc| + count && (forall i | 0 <= i < |v.0| :: TransferOk(v.0[i]))
      && p + |Flatten(TxParts(v.0))| <= v.1 + |Flatten(TxParts(acc))|
    decreases count
  {
    hide U64At, Vlq, TransferOk, TransferBytes, ParseTransfer, TxParts, Flatten;
    if count > 0 {
      var len := U64At(d, p).value;
      var bytes := BytesAt(d, len.1, Min(len.0, MAX_BLOCK_BYTES)).value;
      var tx := ParseTransfer(bytes.0).value;
      DecodedTransferFits(bytes.0);
      U64IsShortest(d, p);
      VlqGrows(|TransferBytes(tx)|, len.0);
      TxPartsLength(acc, tx);
      DecodedTxsFit(d, bytes.1, count - 1, acc + [tx]);
    }
  }

  lemma U64IsShortest(d: Bytes, p: nat)
    requires U64At(d, p).Ok?
    ensures var v := U64At(d, p).value; p + |Vlq(v.0)| <= v.1 <= |d| && v.0 <= U64_MAX
  {
    VlqIsShortest(d, p, VLQ_MAX_BYTES);
  }

  lemma {:induction false} DecodedPegsFit(d: Bytes, p: nat, count: nat, acc: seq<Bytes>)
    requires ParsePegs(d, p, count, acc).Ok? && p <= |d|
    ensures var v := ParsePegs(d, p, count, acc).value;
      |v.0| == |acc| + count && v.1 <= |d| && p + |Flatten(PegParts(v.0))| <= v.1 + |Flatten(PegParts(acc))|
    decreases count
  {
    hide U64At, Vlq, PegParts, Flatten;
    if count > 0 {
      var len := U64At(d, p).value;
      var peg := BytesAt(d, len.1, len.0).value;
      U64IsShortest(d, p);
      PegPartsLength(acc, peg.0);
      DecodedPegsFit(d, peg.1, count - 1, acc + [peg.0]);
    }
  }

  lemma BodyLength(b: Body)
    ensures |BodyBytes(b)| == |Vlq(|b.transfers|)| + |Flatten(TxParts(b.transfers))| +
                              |Vlq(|b.pegMints|)| + |Flatten(PegParts(b.pegMints))|
  {
    hide Vlq, TxParts, PegParts;
    var head, mid := [Vlq(|b.transfers|)], [Vlq(|b.pegMints|)];
    OnePart(Vlq(|b.transfers|));
    OnePart(Vlq(|b.pegMints|));
    FlattenAppend(head + TxParts(b.transfers) + mid, PegParts(b.pegMints));
    FlattenAppend(head + TxParts(b.transfers), mid);
    FlattenAppend(head, TxParts(b.transfers));
  }

  lemma OnePart(a: Bytes)
    ensures Flatten([a]) == a
  {
    assert [a][..0] == [];
  }

  /** Whatever the bytes, a decoded body is within the caps and decodes again from its own encoding. */
  lemma DecodedBodyFits(d: Bytes)
    requires ParseBody(d).Ok?
    ensures var b := ParseBody(d).value; BodyOk(b) && |BodyBytes(b)| <= |d| && ParseBody(BodyBytes(b)) == Ok(b)
  {
    hide U64At, Vlq, TransferOk, TxParts, PegParts, BodyBytes, ParseTxs, ParsePegs, BodyParts;
    var txCount := U64At(d, 0).value;
    var txs := ParseTxs(d, txCount.1, txCount.0, []).value;
    var pegCount := U64At(d, txs.1).value;
    U64IsShortest(d, 0);
    DecodedTxsFit(d, txCount.1, txCount.0, []);
    U64IsShortest(d, txs.1);
    DecodedPegsFit(d, pegCount.1, pegCount.0, []);
    NoParts();
    var b := ParseBody(d).value;
    BodyLength(b);
    BodyRoundTrip(b);
  }

  lemma NoParts()
    ensures Flatten(TxParts([])) == [] && Flatten(PegParts([])) == []
  {
  }

  // What is asked of the external proof codec: a proof that was read takes no more bytes to write than
  // were read, and reads back from them.
  ghost predicate MintCodecOk(c: MintCodec) {
    forall cb {:trigger c.read(cb)} | c.read(cb).Some? ::
      var (proof, used) := c.read(cb).value;
      used <= |cb| && |c.write(proof)| <= used && c.read(c.write(proof)) == Some((proof, |c.write(proof)|))
  }

  /** Whatever the bytes, a decoded block is within the caps and decodes again from its own encoding. */
  lemma DecodedBlockFits(c: MintCodec, d: Bytes)
    requires ParseBlock(c, d).Ok? && MintCodecOk(c)
    ensures var b := ParseBlock(c, d).value; BlockOk(c, b) && ParseBlock(c, BlockBytes(c, b)) == Ok(b)
  {
    hide U64At, HeaderOk, BodyOk, HeaderBytes, BodyBytes, ParseHeader, ParseBody, BlockBytes;
    var headerLen := U64At(d, 0).value;
    var headerBytes := BytesAt(d, headerLen.1, Min(headerLen.0, MAX_BLOCK_BYTES)).value;
    var bodyLen := U64At(d, headerBytes.1).value;
    var bodyBytes := BytesAt(d, bodyLen.1, Min(bodyLen.0, MAX_BLOCK_BYTES)).value;
    DecodedHeaderFits(headerBytes.0);
    DecodedBodyFits(bodyBytes.0);
    BlockRoundTrip(c, ParseBlock(c, d).value);
  }

  /** The caps are exactly what a block needs to come back from its own bytes. */
  lemma RoundTripIff(c: MintCodec, b: Block)
    requires MintCodecOk(c)
    ensures ParseBlock(c, BlockBytes(c, b)) == Ok(b) <==> BlockOk(c, b)
  {
    hide ParseBlock, BlockBytes, BlockOk;
    if BlockOk(c, b) {
      BlockRoundTrip(c, b);
    }
    if ParseBlock(c, BlockBytes(c, b)) == Ok(b) {
      DecodedBlockFits(c, BlockBytes(c, b));
    }
  }
}
