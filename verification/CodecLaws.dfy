/** The wire format spelled out: where every field of a message sits, how wide it is, and which malformed bytes
    draw which error. */
module CodecLaws {
  import opened Common
  import opened Blocks
  import opened Wire
  import opened Codec

  /* ---------- where fields are written ---------- */

  function OutputLayout(o: Output): Bytes {
    Fixed(o.noteCm, 33) + Fixed(o.epk, 33) + Fixed(o.ct, 152) + Fixed(o.outCt, 80)
  }

  lemma {:induction false} FlattenFirst(x: Bytes, rest: seq<Bytes>)
    ensures Flatten([x] + rest) == x + Flatten(rest)
  {
    FlattenAppend([x], rest);
    OnePart(x);
  }

  lemma FourParts(a: Bytes, b: Bytes, c: Bytes, d: Bytes)
    ensures Flatten([a, b, c, d]) == a + b + c + d
  {
    TwoParts(a, b);
    TwoParts(c, d);
    assert [a, b, c, d] == [a, b] + [c, d];
    FlattenAppend([a, b], [c, d]);
  }

  /** A header is its ten fields, hashes 32 bytes wide and the claim 33. */
  lemma HeaderLayout(h: Header)
    ensures HeaderBytes(h) ==
            [h.version % 256] + Fixed(h.prevId, 32) + Vlq(h.height) + Vlq(h.timestampMs) + Fixed(h.txRoot, 32)
            + Fixed(h.cmTreeRoot, 32) + Fixed(h.nullifierDigest, 32) + Vlq(h.potBalance) + Vlq(h.scNbits)
            + Fixed(h.rewardClaim, 33)
  {
    hide Flatten, Vlq, Fixed;
    var parts := HeaderParts(h);
    FourParts(parts[0], parts[1], parts[2], parts[3]);
    FourParts(parts[4], parts[5], parts[6], parts[7]);
    TwoParts(parts[8], parts[9]);
    assert parts == parts[0..4] + parts[4..8] + parts[8..10];
    assert parts[0..4] == [parts[0], parts[1], parts[2], parts[3]];
    assert parts[4..8] == [parts[4], parts[5], parts[6], parts[7]];
    assert parts[8..10] == [parts[8], parts[9]];
    FlattenAppend(parts[0..4], parts[4..8]);
    FlattenAppend(parts[0..4] + parts[4..8], parts[8..10]);
  }

  /** A transfer is its two nullifiers, its two outputs, and its proof behind the proof's length. */
  lemma TransferLayout(t: Transfer)
    ensures TransferBytes(t) ==
            Fixed(t.nf0, 32) + Fixed(t.nf1, 32) + OutputLayout(t.out0) + OutputLayout(t.out1)
            + Vlq(|t.proof|) + t.proof
  {
    hide Flatten, Vlq, Fixed;
    var nfs, proof := [Fixed(t.nf0, NF_BYTES), Fixed(t.nf1, NF_BYTES)], [Vlq(|t.proof|), t.proof];
    FlattenAppend(nfs + OutputParts(t.out0) + OutputParts(t.out1), proof);
    FlattenAppend(nfs + OutputParts(t.out0), OutputParts(t.out1));
    FlattenAppend(nfs, OutputParts(t.out0));
    TwoParts(nfs[0], nfs[1]);
    TwoParts(proof[0], proof[1]);
    OutputIsLaidOut(t.out0);
    OutputIsLaidOut(t.out1);
  }

  lemma OutputIsLaidOut(o: Output)
    ensures Flatten(OutputParts(o)) == OutputLayout(o)
  {
    FourParts(Fixed(o.noteCm, 33), Fixed(o.epk, 33), Fixed(o.ct, 152), Fixed(o.outCt, 80));
  }

  // The messages, each behind its length.
  function Listed(messages: seq<Bytes>): Bytes {
    if messages == [] then []
    else Listed(messages[..|messages| - 1]) + Vlq(|messages[|messages| - 1]|) + messages[|messages| - 1]
  }

  function TransferList(txs: seq<Transfer>): seq<Bytes> {
    seq(|txs|, i requires 0 <= i < |txs| => TransferBytes(txs[i]))
  }

  lemma {:induction false} TxsAreListed(txs: seq<Transfer>)
    ensures Flatten(TxParts(txs)) == Listed(TransferList(txs))
  {
    hide Vlq, TransferBytes;
    if txs != [] {
      var rest, t := txs[..|txs| - 1], txs[|txs| - 1];
      TxsAreListed(rest);
      assert TransferList(txs)[..|txs| - 1] == TransferList(rest);
      FlattenAppend(TxParts(rest), Prefixed(TransferBytes(t)));
      TwoParts(Vlq(|TransferBytes(t)|), TransferBytes(t));
    }
  }

  lemma {:induction false} PegsAreListed(pegs: seq<Bytes>)
    ensures Flatten(PegParts(pegs)) == Listed(pegs)
  {
    hide Vlq;
    if pegs != [] {
      var rest, peg := pegs[..|pegs| - 1], pegs[|pegs| - 1];
      PegsAreListed(rest);
      FlattenAppend(PegParts(rest), Prefixed(peg));
      TwoParts(Vlq(|peg|), peg);
    }
  }

  /** A body is the number of its transfers and the transfers, then the number of its peg-mints and those,
      each behind its length. */
  lemma BodyLayout(b: Body)
    ensures BodyBytes(b) ==
            Vlq(|b.transfers|) + Listed(TransferList(b.transfers)) + Vlq(|b.pegMints|) + Listed(b.pegMints)
  {
    hide Vlq, TxParts, PegParts, Listed;
    TxsAreListed(b.transfers);
    PegsAreListed(b.pegMints);
    var txCount, pegCount := [Vlq(|b.transfers|)], [Vlq(|b.pegMints|)];
    OnePart(Vlq(|b.transfers|));
    OnePart(Vlq(|b.pegMints|));
    FlattenAppend(txCount + TxParts(b.transfers) + pegCount, PegParts(b.pegMints));
    FlattenAppend(txCount + TxParts(b.transfers), pegCount);
    FlattenAppend(txCount, TxParts(b.transfers));
  }

  /** A block is its header and its body, each behind its length, and a flag for the coinbase proof, which
      follows behind its own length. */
  lemma BlockLayout(c: MintCodec, b: Block)
    ensures BlockBytes(c, b) ==
            Listed([HeaderBytes(b.header), BodyBytes(b.body)])
            + match b.coinbase case None => [0] case Some(proof) => [1] + Listed([c.write(proof)])
  {
    hide Vlq, HeaderBytes, BodyBytes;
    var head, body := HeaderBytes(b.header), BodyBytes(b.body);
    FourParts(Vlq(|head|), head, Vlq(|body|), body);
    assert Prefixed(head) + Prefixed(body) == [Vlq(|head|), head, Vlq(|body|), body];
    ListedTwo(head, body);
    match b.coinbase {
      case None =>
        OnePart([0]);
        FlattenAppend(Prefixed(head) + Prefixed(body), [[0]]);
      case Some(proof) =>
        var cb := c.write(proof);
        TwoParts(Vlq(|cb|), cb);
        FlattenFirst([1], Prefixed(cb));
        FlattenAppend(Prefixed(head) + Prefixed(body), [[1]] + Prefixed(cb));
        ListedOne(cb);
    }
  }

  lemma ListedOne(a: Bytes)
    ensures Listed([a]) == Vlq(|a|) + a
  {
    assert [a][..0] == [];
  }

  lemma ListedTwo(a: Bytes, b: Bytes)
    ensures Listed([a, b]) == Vlq(|a|) + a + Vlq(|b|) + b
  {
    ListedOne(a);
    assert [a, b][..1] == [a];
  }

  /* ---------- what reading a header means ---------- */

  // The fields up to the difficulty bits, the numbers ending at p1 to p4.
  ghost predicate HeadSits(d: Bytes, h: Header, p1: nat, p2: nat, p3: nat, p4: nat) {
    && 33 <= |d| && h.version == d[0] && h.prevId == Unfixed(d[1..33])
    && U64At(d, 33) == Ok((h.height, p1)) && U64At(d, p1) == Ok((h.timestampMs, p2)) && p2 + 96 <= |d|
    && h.txRoot == Unfixed(d[p2..p2 + 32]) && h.cmTreeRoot == Unfixed(d[p2 + 32..p2 + 64])
    && h.nullifierDigest == Unfixed(d[p2 + 64..p2 + 96])
    && U64At(d, p2 + 96) == Ok((h.potBalance, p3)) && U64At(d, p3) == Ok((h.scNbits, p4))
  }

  // All fields, the last of them with `left` bytes after it.
  ghost predicate HeaderSits(d: Bytes, h: Header, p1: nat, p2: nat, p3: nat, p4: nat, left: nat) {
    && HeadSits(d, h, p1, p2, p3, p4) && h.scNbits <= 0xFFFF_FFFF
    && p4 + 33 + left == |d| && h.rewardClaim == Unfixed(d[p4..p4 + 33])
  }

  /** What each result of reading a header says about the bytes. */
  lemma HeaderMeans(d: Bytes)
    ensures match ParseHeader(d)
      case Ok(h) => exists p1: nat, p2: nat, p3: nat, p4: nat :: HeaderSits(d, h, p1, p2, p3, p4, 0)
      case Err(TrailingBytes(left)) =>
        left > 0 && exists h, p1: nat, p2: nat, p3: nat, p4: nat :: HeaderSits(d, h, p1, p2, p3, p4, left)
      case Err(NbitsOutOfRange(raw)) =>
        && raw > 0xFFFF_FFFF
        && exists h, p1: nat, p2: nat, p3: nat, p4: nat :: HeadSits(d, h, p1, p2, p3, p4) && h.scNbits == raw
      case Err(e) =>
        e == ReadFailed && forall h, p1: nat, p2: nat, p3: nat, p4: nat | HeadSits(d, h, p1, p2, p3, p4) ::
          h.scNbits <= 0xFFFF_FFFF && p4 + 33 > |d|
  {
    hide U64At, Unfixed;
    if |d| < 33 {
      return;
    }
    FailsToRead(d, 33);
    if U64At(d, 33).Err? {
      return;
    }
    var p1 := U64At(d, 33).value.1;
    FailsToRead(d, p1);
    if U64At(d, p1).Err? {
      return;
    }
    var p2 := U64At(d, p1).value.1;
    if p2 + 96 > |d| {
      return;
    }
    FailsToRead(d, p2 + 96);
    if U64At(d, p2 + 96).Err? {
      return;
    }
    var p3 := U64At(d, p2 + 96).value.1;
    FailsToRead(d, p3);
    if U64At(d, p3).Err? {
      return;
    }
    var p4 := U64At(d, p3).value.1;
    var claim := if p4 + 33 <= |d| then Unfixed(d[p4..p4 + 33]) else 0;
    var h := Header(d[0], Unfixed(d[1..33]), U64At(d, 33).value.0, U64At(d, p1).value.0, Unfixed(d[p2..p2 + 32]),
                    Unfixed(d[p2 + 32..p2 + 64]), Unfixed(d[p2 + 64..p2 + 96]), U64At(d, p2 + 96).value.0,
                    U64At(d, p3).value.0, claim);
    assert HeadSits(d, h, p1, p2, p3, p4);
    if h.scNbits <= 0xFFFF_FFFF && p4 + 33 <= |d| {
      assert HeaderSits(d, h, p1, p2, p3, p4, |d| - p4 - 33);
    }
  }

  lemma FailsToRead(d: Bytes, p: nat)
    ensures U64At(d, p).Err? ==> U64At(d, p).error == ReadFailed
  {
    U64Means(d, p);
  }

  /* ---------- what reading a transfer means ---------- */

  ghost predicate OutputSits(d: Bytes, p: nat, o: Output) {
    && p + 298 <= |d|
    && o.noteCm == Unfixed(d[p..p + 33]) && o.epk == Unfixed(d[p + 33..p + 66])
    && o.ct == Unfixed(d[p + 66..p + 218]) && o.outCt == Unfixed(d[p + 218..p + 298])
  }

  // All fields, the proof from `start` on with `left` bytes after it.
  ghost predicate TransferSits(d: Bytes, t: Transfer, start: nat, left: nat) {
    && 660 <= |d| && t.nf0 == Unfixed(d[0..32]) && t.nf1 == Unfixed(d[32..64])
    && OutputSits(d, 64, t.out0) && OutputSits(d, 362, t.out1)
    && U64At(d, 660) == Ok((|t.proof|, start)) && |t.proof| <= 8_192
    && start + |t.proof| + left == |d| && t.proof == d[start..start + |t.proof|]
  }

  lemma OutputMeans(d: Bytes, p: nat)
    ensures match ParseOutput(d, p)
      case Ok((o, q)) => OutputSits(d, p, o) && q == p + 298
      case Err(e) => e == ReadFailed && p + 298 > |d|
  {
    hide Unfixed;
  }

  /** What each result of reading a transfer says about the bytes. */
  lemma TransferMeans(d: Bytes)
    ensures match ParseTransfer(d)
      case Ok(t) => exists start: nat :: TransferSits(d, t, start, 0)
      case Err(TrailingBytes(left)) => left > 0 && exists t, start: nat :: TransferSits(d, t, start, left)
      case Err(ProofTooLarge(n)) => n > 8_192 && 660 <= |d| && Announces(d, 660, n)
      case Err(e) => e == ReadFailed && (|d| < 660 || Unreadable(d, 660, 8_192))
  {
    hide U64At, Unfixed, ParseOutput;
    OutputMeans(d, 64);
    OutputMeans(d, 362);
    FailsToRead(d, 660);
    if |d| >= 660 && U64At(d, 660).Ok? {
      var (n, start) := U64At(d, 660).value;
      if n <= 8_192 && start + n <= |d| {
        var t := Transfer(Unfixed(d[0..32]), Unfixed(d[32..64]), ParseOutput(d, 64).value.0,
                          ParseOutput(d, 362).value.0, d[start..start + n]);
        assert TransferSits(d, t, start, |d| - start - n);
      }
    }
  }

  /* ---------- what reading a body means ---------- */

  // A message behind its length from p to q, no longer than a block may be.
  ghost predicate MessageAt(d: Bytes, p: nat, s: nat, q: nat) {
    U64At(d, p).Ok? && U64At(d, p).value.1 == s && q == s + Min(U64At(d, p).value.0, 524_288) && q <= |d|
  }

  ghost predicate NoMessage(d: Bytes, p: nat) {
    U64At(d, p).Err? || U64At(d, p).value.1 + Min(U64At(d, p).value.0, 524_288) > |d|
  }

  ghost predicate TxAt(d: Bytes, p: nat, t: Transfer, q: nat) {
    exists s: nat :: s <= q && MessageAt(d, p, s, q) && ParseTransfer(d[s..q]) == Ok(t)
  }

  // Why no transfer can be read at p.
  ghost predicate NoTx(d: Bytes, p: nat, e: DecodeError) {
    || (e == ReadFailed && NoMessage(d, p))
    || exists s: nat, q: nat :: s <= q && MessageAt(d, p, s, q) && ParseTransfer(d[s..q]).Err?
                                && e == InTx(ParseTransfer(d[s..q]).error)
  }

  // The transfers follow each other at these marks.
  ghost predicate TxsAt(d: Bytes, txs: seq<Transfer>, marks: seq<nat>) {
    |marks| == |txs| + 1 && forall i: nat | i < |txs| :: TxAt(d, marks[i], txs[i], marks[i + 1])
  }

  ghost predicate PegAt(d: Bytes, p: nat, peg: Bytes, q: nat) {
    && |peg| <= 2_097_152 && q <= |d| && q >= |peg| && peg == d[q - |peg|..q]
    && U64At(d, p) == Ok((|peg|, q - |peg|))
  }

  ghost predicate NoPeg(d: Bytes, p: nat, e: DecodeError) {
    if e.PegMintTooLarge? then e.pegLen > 2_097_152 && Announces(d, p, e.pegLen)
    else e == ReadFailed && Unreadable(d, p, 2_097_152)
  }

  ghost predicate PegsAt(d: Bytes, pegs: seq<Bytes>, marks: seq<nat>) {
    |marks| == |pegs| + 1 && forall i: nat | i < |pegs| :: PegAt(d, marks[i], pegs[i], marks[i + 1])
  }

  lemma {:induction false} TxsMean(d: Bytes, p: nat, count: nat, acc: seq<Transfer>)
    returns (txs: seq<Transfer>, marks: seq<nat>)
    ensures TxsAt(d, txs, marks) && marks[0] == p
    ensures match ParseTxs(d, p, count, acc)
      case Ok((all, q)) => |txs| == count && all == acc + txs && marks[count] == q
      case Err(e) => |txs| < count && NoTx(d, marks[|txs|], e) && (e.ReadFailed? || e.InTx?)
    decreases count
  {
    hide U64At, ParseTransfer;
    txs, marks := [], [p];
    if count > 0 {
      FailsToRead(d, p);
      if !NoMessage(d, p) {
        var s := U64At(d, p).value.1;
        var q := s + Min(U64At(d, p).value.0, 524_288);
        assert MessageAt(d, p, s, q);
        var tx := ParseTransfer(d[s..q]);
        if tx.Ok? {
          assert TxAt(d, p, tx.value, q);
          var rest, later := TxsMean(d, q, count - 1, acc + [tx.value]);
          txs, marks := [tx.value] + rest, [p] + later;
        }
      }
    }
  }

  lemma {:induction false} PegsMean(d: Bytes, p: nat, count: nat, acc: seq<Bytes>)
    returns (pegs: seq<Bytes>, marks: seq<nat>)
    ensures PegsAt(d, pegs, marks) && marks[0] == p
    ensures match ParsePegs(d, p, count, acc)
      case Ok((all, q)) => |pegs| == count && all == acc + pegs && marks[count] == q
      case Err(e) => |pegs| < count && NoPeg(d, marks[|pegs|], e) && (e.ReadFailed? || e.PegMintTooLarge?)
    decreases count
  {
    hide U64At;
    pegs, marks := [], [p];
    if count > 0 {
      FailsToRead(d, p);
      if U64At(d, p).Ok? && U64At(d, p).value.0 <= 2_097_152 {
        var (n, s) := U64At(d, p).value;
        if s + n <= |d| {
          assert PegAt(d, p, d[s..s + n], s + n);
          var rest, later := PegsMean(d, s + n, count - 1, acc + [d[s..s + n]]);
          pegs, marks := [d[s..s + n]] + rest, [p] + later;
        }
      }
    }
  }

  // The number of transfers and the first of them, at these marks.
  ghost predicate TransfersSit(d: Bytes, count: nat, txs: seq<Transfer>, marks: seq<nat>) {
    TxsAt(d, txs, marks) && |txs| <= count <= 128 && U64At(d, 0) == Ok((count, marks[0]))
  }

  // All transfers, the number of peg-mints, and the first of those.
  ghost predicate PegsSit(d: Bytes, txs: seq<Transfer>, marks: seq<nat>, count: nat, pegs: seq<Bytes>, ends: seq<nat>) {
    && TransfersSit(d, |txs|, txs, marks)
    && PegsAt(d, pegs, ends) && |pegs| <= count <= 32 && U64At(d, marks[|txs|]) == Ok((count, ends[0]))
  }

  ghost predicate BodySits(d: Bytes, b: Body, left: nat) {
    exists marks, ends :: PegsSit(d, b.transfers, marks, |b.pegMints|, b.pegMints, ends)
                          && ends[|b.pegMints|] + left == |d|
  }

  // Reading stops before all announced transfers are read.
  ghost predicate StopsInTxs(d: Bytes, e: DecodeError) {
    || (e == ReadFailed && U64At(d, 0).Err?)
    || exists count, txs, marks :: TransfersSit(d, count, txs, marks) && |txs| < count && NoTx(d, marks[|txs|], e)
  }

  ghost predicate StopsInPegs(d: Bytes, e: DecodeError) {
    || (exists txs, marks :: TransfersSit(d, |txs|, txs, marks) && U64At(d, marks[|txs|]).Err? && e == ReadFailed)
    || exists txs, marks, count, pegs, ends ::
         PegsSit(d, txs, marks, count, pegs, ends) && |pegs| < count && NoPeg(d, ends[|pegs|], e)
  }

  ghost predicate AnnouncesPegs(d: Bytes, n: nat) {
    exists txs, marks :: TransfersSit(d, |txs|, txs, marks) && Announces(d, marks[|txs|], n)
  }

  /** What each result of reading a body says about the bytes. */
  lemma BodyMeans(d: Bytes)
    ensures match ParseBody(d)
      case Ok(b) => |d| <= 524_288 && BodySits(d, b, 0)
      case Err(TrailingBytes(left)) => |d| <= 524_288 && left > 0 && exists b :: BodySits(d, b, left)
      case Err(TooLarge(n)) => n == |d| > 524_288
      case Err(TooManyTxs(n)) => |d| <= 524_288 && n > 128 && Announces(d, 0, n)
      case Err(TooManyPegMints(n)) => |d| <= 524_288 && n > 32 && AnnouncesPegs(d, n)
      case Err(e) => |d| <= 524_288 && (StopsInTxs(d, e) || StopsInPegs(d, e))
  {
    hide U64At, ParseTxs, ParsePegs, TransfersSit, PegsSit, NoTx, NoPeg, TxAt, StopsInTxs, StopsInPegs, BodySits;
    FailsToRead(d, 0);
    if |d| <= 524_288 && U64At(d, 0).Ok? && U64At(d, 0).value.0 <= 128 {
      var (count, p) := U64At(d, 0).value;
      var txs, marks := TxsMean(d, p, count, []);
      assert [] + txs == txs;
      TxsOutcome(d, count, txs, marks);
      if ParseTxs(d, p, count, []).Ok? {
        PegsMeanAfter(d, txs, marks);
      }
    }
    if U64At(d, 0).Err? {
      NothingRead(d);
    }
  }

  lemma NothingRead(d: Bytes)
    requires U64At(d, 0).Err?
    ensures StopsInTxs(d, ReadFailed)
  {
  }

  lemma TxsOutcome(d: Bytes, count: nat, txs: seq<Transfer>, marks: seq<nat>)
    requires TxsAt(d, txs, marks) && |txs| <= count <= 128 && U64At(d, 0) == Ok((count, marks[0]))
    ensures TransfersSit(d, count, txs, marks)
    ensures |txs| < count ==> forall e | NoTx(d, marks[|txs|], e) :: StopsInTxs(d, e)
  {
    hide U64At, NoTx;
  }

  lemma PegsMeanAfter(d: Bytes, txs: seq<Transfer>, marks: seq<nat>)
    requires |marks| == |txs| + 1 && TransfersSit(d, |txs|, txs, marks)
    ensures U64At(d, marks[|txs|]).Err? ==> U64At(d, marks[|txs|]).error == ReadFailed && StopsInPegs(d, ReadFailed)
    ensures U64At(d, marks[|txs|]).Ok? ==>
      var n, q := U64At(d, marks[|txs|]).value.0, U64At(d, marks[|txs|]).value.1;
      && (n > 32 ==> AnnouncesPegs(d, n))
      && (n <= 32 ==> PegsRead(d, txs, ParsePegs(d, q, n, [])))
  {
    hide U64At, ParsePegs, TransfersSit, PegsSit, NoPeg, PegsRead;
    var at := marks[|txs|];
    FailsToRead(d, at);
    if U64At(d, at).Ok? && U64At(d, at).value.0 <= 32 {
      PegsAreRead(d, txs, marks, U64At(d, at).value.0, U64At(d, at).value.1);
    }
  }

  ghost predicate PegsRead(d: Bytes, txs: seq<Transfer>, pegs: Read<seq<Bytes>>) {
    match pegs
    case Ok((all, end)) => end <= |d| && BodySits(d, Body(txs, all), |d| - end)
    case Err(e) => StopsInPegs(d, e) && (e.ReadFailed? || e.PegMintTooLarge?)
  }

  lemma PegsAreRead(d: Bytes, txs: seq<Transfer>, marks: seq<nat>, n: nat, q: nat)
    requires |marks| == |txs| + 1 && TransfersSit(d, |txs|, txs, marks)
    requires U64At(d, marks[|txs|]) == Ok((n, q)) && n <= 32
    ensures PegsRead(d, txs, ParsePegs(d, q, n, []))
  {
    hide U64At, ParsePegs, TransfersSit, PegAt, NoPeg, BodySits, StopsInPegs;
    U64Means(d, marks[|txs|]);
    var pegs, ends := PegsMean(d, q, n, []);
    assert [] + pegs == pegs;
    PegsEnd(d, pegs, ends);
    PegsOutcome(d, txs, marks, n, pegs, ends);
  }

  lemma PegsOutcome(d: Bytes, txs: seq<Transfer>, marks: seq<nat>, count: nat, pegs: seq<Bytes>, ends: seq<nat>)
    requires |marks| == |txs| + 1 && TransfersSit(d, |txs|, txs, marks) && PegsAt(d, pegs, ends)
    requires |pegs| <= count <= 32 && U64At(d, marks[|txs|]) == Ok((count, ends[0]))
    ensures |pegs| < count ==> forall e | NoPeg(d, ends[|pegs|], e) :: StopsInPegs(d, e)
    ensures |pegs| == count && ends[count] <= |d| ==> BodySits(d, Body(txs, pegs), |d| - ends[count])
  {
    hide U64At, TransfersSit, PegAt, NoPeg;
    assert PegsSit(d, txs, marks, count, pegs, ends);
  }

  lemma PegsEnd(d: Bytes, pegs: seq<Bytes>, ends: seq<nat>)
    requires PegsAt(d, pegs, ends) && ends[0] <= |d|
    ensures ends[|pegs|] <= |d|
  {
    if pegs != [] {
      assert PegAt(d, ends[|pegs| - 1], pegs[|pegs| - 1], ends[|pegs|]);
    }
  }

  /* ---------- what reading a block means ---------- */

  /** What each result of reading the coinbase part says about the bytes from p on. */
  lemma CoinbaseMeans(c: MintCodec, d: Bytes, p: nat)
    ensures match ParseCoinbase(c, d, p)
      case Ok((None, q)) => p < |d| && d[p] == 0 && q == p + 1
      case Ok((Some(proof), q)) =>
        var cb := CoinbaseBytes(d, p);
        CoinbaseAt(d, p, q) && exists used :: c.read(cb) == Some((proof, used)) && used >= |cb|
      case Err(BadCoinbaseFlag(flag)) => p < |d| && flag == d[p] > 1
      case Err(CoinbaseTooLarge(n)) => Flagged(d, p) && Announces(d, p + 1, n) && n > 8_192
      case Err(CoinbaseMalformed) =>
        CoinbaseAt(d, p, CoinbaseEnd(d, p)) && c.read(CoinbaseBytes(d, p)) == None
      case Err(CoinbaseTrailingBytes(left)) =>
        var cb := CoinbaseBytes(d, p);
        && left > 0 && CoinbaseAt(d, p, CoinbaseEnd(d, p))
        && exists proof, used :: c.read(cb) == Some((proof, used)) && used + left == |cb|
      case Err(e) =>
        && e == ReadFailed
        && (p >= |d| || (Flagged(d, p) && Unreadable(d, p + 1, 8_192)))
  {
    hide U64At;
    FailsToRead(d, p + 1);
  }

  predicate Flagged(d: Bytes, p: nat) {
    p < |d| && d[p] == 1
  }

  // Where a coinbase proof ends that is announced behind the flag.
  function CoinbaseEnd(d: Bytes, p: nat): nat {
    match U64At(d, p + 1) case Ok((n, start)) => start + n case Err(_) => 0
  }

  predicate Announces(d: Bytes, p: nat, n: nat) {
    match U64At(d, p) case Ok((m, _)) => m == n case Err(_) => false
  }

  // No number can be read at p, or one within the cap whose bytes are not all there.
  predicate Unreadable(d: Bytes, p: nat, cap: nat) {
    match U64At(d, p) case Ok((n, start)) => n <= cap && start + n > |d| case Err(_) => true
  }

  predicate CoinbaseAt(d: Bytes, p: nat, q: nat) {
    Flagged(d, p) && U64At(d, p + 1).Ok? && U64At(d, p + 1).value.0 <= 8_192 && q == CoinbaseEnd(d, p) <= |d|
  }

  function CoinbaseBytes(d: Bytes, p: nat): Bytes {
    if U64At(d, p + 1).Ok? && CoinbaseEnd(d, p) <= |d| then d[U64At(d, p + 1).value.1..CoinbaseEnd(d, p)] else []
  }

  // The header's message and the body's, and what they hold.
  ghost predicate HeaderRead(d: Bytes, h: Result<Header, DecodeError>, q: nat) {
    exists s: nat :: s <= q && MessageAt(d, 0, s, q) && ParseHeader(d[s..q]) == h
  }

  ghost predicate BodyRead(d: Bytes, p: nat, b: Result<Body, DecodeError>, q: nat) {
    exists s: nat :: s <= q && MessageAt(d, p, s, q) && ParseBody(d[s..q]) == b
  }

  // The header ends at q1 and the body at q2.
  ghost predicate PartsRead(d: Bytes, h: Header, q1: nat, b: Body, q2: nat) {
    HeaderRead(d, Ok(h), q1) && BodyRead(d, q1, Ok(b), q2)
  }

  /** What each result of reading a block says about the bytes. */
  lemma BlockMeans(c: MintCodec, d: Bytes)
    ensures match ParseBlock(c, d)
      case Ok(b) =>
        exists q1: nat, q2: nat :: PartsRead(d, b.header, q1, b.body, q2)
                                   && ParseCoinbase(c, d, q2) == Ok((b.coinbase, |d|))
      case Err(e) => BlockFails(c, d, e)
  {
    hide U64At, ParseHeader, ParseBody, ParseCoinbase;
    FailsToRead(d, 0);
    if !NoMessage(d, 0) {
      var s1 := U64At(d, 0).value.1;
      var q1 := s1 + Min(U64At(d, 0).value.0, 524_288);
      assert MessageAt(d, 0, s1, q1) && HeaderRead(d, ParseHeader(d[s1..q1]), q1);
      FailsToRead(d, q1);
      if ParseHeader(d[s1..q1]).Ok? && !NoMessage(d, q1) {
        var s2 := U64At(d, q1).value.1;
        var q2 := s2 + Min(U64At(d, q1).value.0, 524_288);
        assert MessageAt(d, q1, s2, q2) && BodyRead(d, q1, ParseBody(d[s2..q2]), q2);
        if ParseBody(d[s2..q2]).Ok? {
          assert PartsRead(d, ParseHeader(d[s1..q1]).value, q1, ParseBody(d[s2..q2]).value, q2);
          CoinbaseEnds(c, d, q2);
        }
      }
    }
  }

  lemma CoinbaseEnds(c: MintCodec, d: Bytes, p: nat)
    ensures ParseCoinbase(c, d, p).Ok? ==> ParseCoinbase(c, d, p).value.1 <= |d|
  {
    hide U64At;
  }

  // In the header's message, in the body's, in the coinbase part, or behind it.
  ghost predicate BlockFails(c: MintCodec, d: Bytes, e: DecodeError) {
    || (e == ReadFailed && NoMessage(d, 0))
    || (exists q: nat, why :: HeaderRead(d, Err(why), q) && e == InHeader(why))
    || (exists q: nat, h :: HeaderRead(d, Ok(h), q) && e == ReadFailed && NoMessage(d, q))
    || (exists q1: nat, h, q2: nat, why :: HeaderRead(d, Ok(h), q1) && BodyRead(d, q1, Err(why), q2)
                                           && e == InBody(why))
    || (exists h, q1: nat, b, q2: nat :: PartsRead(d, h, q1, b, q2) && ParseCoinbase(c, d, q2) == Err(e))
    || (exists h, q1: nat, b, q2: nat :: PartsRead(d, h, q1, b, q2) && ParseCoinbase(c, d, q2).Ok?
          && ParseCoinbase(c, d, q2).value.1 < |d| && e == TrailingBytes(|d| - ParseCoinbase(c, d, q2).value.1))
  }
}
