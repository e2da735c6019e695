/** The block log spelled out: where its records sit, what each reading of it means, and what a tail that is
    cut away looks like. */
module StoreLaws {
  import opened Common
  import opened Blocks
  import opened Wire
  import opened Codec
  import opened Chains
  import opened ChainRules
  import opened Store

  // The length in front of a record, four bytes, least significant first.
  function LengthAt(d: Bytes, p: nat): nat
    requires p + 4 <= |d|
  {
    d[p] as nat + 256 * d[p + 1] as nat + 65_536 * d[p + 2] as nat + 16_777_216 * d[p + 3] as nat
  }

  // A whole record from p to q.
  ghost predicate RecordSits(d: Bytes, p: nat, q: nat, cap: nat) {
    p + 4 <= |d| && LengthAt(d, p) <= cap && q == p + 4 + LengthAt(d, p) <= |d|
  }

  // Whole records at these marks, from the start of the file on.
  ghost predicate RecordsSit(d: Bytes, marks: seq<nat>, cap: nat) {
    && marks != [] && marks[0] == 0 && marks[|marks| - 1] <= |d|
    && forall i: nat | i + 1 < |marks| :: RecordSits(d, marks[i], marks[i + 1], cap)
  }

  // No whole record follows, but what is left passes for the start of one.
  ghost predicate TornAt(d: Bytes, p: nat, cap: nat) {
    p <= |d| && (|d| < p + 4 || (LengthAt(d, p) <= cap && |d| < p + 4 + LengthAt(d, p)))
  }

  ghost predicate OversizedAt(d: Bytes, p: nat, len: nat, cap: nat) {
    p + 4 <= |d| && LengthAt(d, p) == len > cap
  }

  // The payload of the record from p to q, with its offset.
  ghost predicate IsRecord(d: Bytes, p: nat, q: nat, record: LogRecord) {
    p + 4 <= q <= |d| && record == (p, d[p + 4..q])
  }

  ghost predicate AreRecords(d: Bytes, marks: seq<nat>, records: seq<LogRecord>) {
    && |records| + 1 == |marks|
    && forall i: nat | i < |records| :: IsRecord(d, marks[i], marks[i + 1], records[i])
  }

  lemma LengthIsRead(d: Bytes, p: nat)
    requires p + 4 <= |d|
    ensures FromLe32(d[p..p + LEN_PREFIX_BYTES]) == LengthAt(d, p)
  {
    var b := d[p..p + 4];
    assert b[0] == d[p] && b[1] == d[p + 1] && b[2] == d[p + 2] && b[3] == d[p + 3];
  }

  lemma MarkNext(d: Bytes, marks: seq<nat>, records: seq<LogRecord>, q: nat, cap: nat)
    requires RecordsSit(d, marks, cap) && AreRecords(d, marks, records) && RecordSits(d, marks[|marks| - 1], q, cap)
    requires q <= |d|
    ensures var p := marks[|marks| - 1];
      RecordsSit(d, marks + [q], cap) && AreRecords(d, marks + [q], records + [(p, d[p + 4..q])])
  {
    hide LengthAt;
    var p, more := marks[|marks| - 1], marks + [q];
    assert IsRecord(d, p, q, (p, d[p + 4..q]));
    hide RecordSits, IsRecord;
    forall i: nat | i + 1 < |more| ensures RecordSits(d, more[i], more[i + 1], cap) {
      if i + 1 < |marks| {
        assert RecordSits(d, marks[i], marks[i + 1], cap);
      }
    }
    forall i: nat | i < |records| + 1
      ensures IsRecord(d, more[i], more[i + 1], (records + [(p, d[p + 4..q])])[i])
    {
      if i < |records| {
        assert IsRecord(d, marks[i], marks[i + 1], records[i]);
      }
    }
  }

  lemma {:induction false} ScanFrom(d: Bytes, marks: seq<nat>, cap: nat, records: seq<LogRecord>)
    returns (all: seq<nat>)
    requires RecordsSit(d, marks, cap) && AreRecords(d, marks, records)
    ensures RecordsSit(d, all, cap)
    ensures match Scan(d, marks[|marks| - 1], cap, records)
      case Ok((read, end)) => AreRecords(d, all, read) && end == all[|all| - 1] && TornAt(d, end, cap)
      case Err(RecordTooLarge(at, len, limit)) => at == all[|all| - 1] && limit == cap && OversizedAt(d, at, len, cap)
      case Err(_) => false
    decreases |d| - marks[|marks| - 1]
  {
    var p := marks[|marks| - 1];
    all := marks;
    if p + 4 <= |d| {
      LengthIsRead(d, p);
      var q := p + 4 + LengthAt(d, p);
      hide FromLe32, LengthAt, RecordsSit, AreRecords;
      if LengthAt(d, p) <= cap && q <= |d| {
        MarkNext(d, marks, records, q, cap);
        all := ScanFrom(d, marks + [q], cap, records + [(p, d[p + 4..q])]);
      }
    }
  }

  // Whole records, and a tail that is none.
  ghost predicate WholeLog(d: Bytes, marks: seq<nat>, records: seq<LogRecord>) {
    RecordsSit(d, marks, 533_504) && AreRecords(d, marks, records) && TornAt(d, marks[|marks| - 1], 533_504)
  }

  // The first i records hold blocks.
  ghost predicate HoldBlocks(c: MintCodec, records: seq<LogRecord>, blocks: seq<Block>, i: nat) {
    i == |blocks| <= |records| && forall k | 0 <= k < i :: ParseBlock(c, records[k].1) == Ok(blocks[k])
  }

  ghost predicate MalformedAt(c: MintCodec, records: seq<LogRecord>, i: nat, at: nat, e: DecodeError) {
    && i < |records| && at == records[i].0 && ParseBlock(c, records[i].1) == Err(e)
    && forall k | 0 <= k < i :: ParseBlock(c, records[k].1).Ok?
  }

  lemma {:induction false} DecodeAllMeans(c: MintCodec, records: seq<LogRecord>, i: nat, acc: seq<Block>)
    requires HoldBlocks(c, records, acc, i)
    ensures match DecodeAll(c, records, i, acc)
      case Ok(blocks) => HoldBlocks(c, records, blocks, |records|)
      case Err(Malformed(at, e)) => exists k: nat :: MalformedAt(c, records, k, at, e)
      case Err(_) => false
    decreases |records| - i
  {
    hide ParseBlock;
    if i < |records| {
      var b := ParseBlock(c, records[i].1);
      if b.Ok? {
        DecodeAllMeans(c, records, i + 1, acc + [b.value]);
      } else {
        assert MalformedAt(c, records, i, records[i].0, b.error);
      }
    }
  }

  /** What each result of reading the log says about its bytes: whole records that hold blocks, up to a tail
      that passes for a torn write; a length over the cap, whatever was before it; or the first record that
      holds no block, when all lengths are in order. */
  lemma ReadLogMeans(c: MintCodec, d: Bytes)
    ensures match ReadLog(c, Some(d))
      case Ok(blocks) =>
        exists marks, records :: WholeLog(d, marks, records) && HoldBlocks(c, records, blocks, |records|)
      case Err(RecordTooLarge(at, len, cap)) =>
        cap == 533_504 &&
        exists marks :: RecordsSit(d, marks, 533_504) && at == marks[|marks| - 1] && OversizedAt(d, at, len, 533_504)
      case Err(Malformed(at, e)) =>
        exists marks, records, k: nat :: WholeLog(d, marks, records) && MalformedAt(c, records, k, at, e)
      case Err(_) => false
  {
    hide Scan, DecodeAll, LengthAt, MalformedAt;
    assert AreRecords(d, [0], []);
    var marks := ScanFrom(d, [0], 533_504, []);
    var scan := Scan(d, 0, 533_504, []);
    if scan.Ok? {
      assert WholeLog(d, marks, scan.value.0);
      hide WholeLog;
      DecodeAllMeans(c, scan.value.0, 0, []);
    }
  }

  /** Reading cuts the file behind its last whole record, or leaves it alone when what follows is no torn write. */
  lemma RecoveryMeans(d: Bytes)
    ensures exists marks :: RecordsSit(d, marks, 533_504) &&
              var end := marks[|marks| - 1];
              if TornAt(d, end, 533_504) then Recovered(Some(d), 533_504) == Some(d[..end])
              else Recovered(Some(d), 533_504) == Some(d) && OversizedAt(d, end, LengthAt(d, end), 533_504)
  {
    hide Scan, LengthAt;
    assert AreRecords(d, [0], []);
    var marks := ScanFrom(d, [0], 533_504, []);
  }

  /* ---------- replaying the log ---------- */

  // The blocks before the i-th load, and it does not: its drift bound does not fit 64 bits, or its header, proofs
  // and content explain the refusal at its own timestamp.
  ghost predicate ReplayStops(r: Rules, blocks: seq<Block>, i: nat, e: StoreError) {
    && i < |blocks| && Loadable(r, blocks[..i])
    && var q, h := [r.GenesisBlock()] + blocks[..i], blocks[i].header;
       match e
       case ClockOverflow(height) => height == h.height && h.timestampMs + 60_000 > 0xFFFF_FFFF_FFFF_FFFF
       case Replay(height, why) =>
         && height == h.height && h.timestampMs + 60_000 <= 0xFFFF_FFFF_FFFF_FFFF
         && Explains(r, q, StateOf(r, q), blocks[i], h.timestampMs, Some(why))
       case _ => false
  }

  /** A replay error names the height of the first block that does not load, and why it does not. */
  lemma ReplayErrorMeans(r: Rules, blocks: seq<Block>, e: StoreError)
    requires IsReplayError(r, blocks, e)
    ensures exists i: nat :: ReplayStops(r, blocks, i, e)
  {
    hide Explains, Verdict, StateOf, Loadable;
    var i :| 0 <= i < |blocks| && StopsAt(r, blocks, i, e);
    var q := [r.GenesisBlock()] + blocks[..i];
    VerdictIsExplained(r, q, blocks[i], blocks[i].header.timestampMs);
    assert ReplayStops(r, blocks, i, e);
  }
}
