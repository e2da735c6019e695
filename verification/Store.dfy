/** The append-only block log: length-prefixed records, recovery from a torn write, and a chain
    rebuilt by replaying every record through block validation. */
module Store {
  import opened Common
  import opened Blocks
  import opened ShieldedStates
  import opened Chains
  import opened ChainLaws
  import opened Wire
  import opened Codec

  const LEN_PREFIX_BYTES: nat := 4
  const MAX_RECORD_BYTES: nat := MAX_BLOCK_BYTES + MAX_PROOF_BYTES + 1024
  const U32_RANGE: nat := 0x1_0000_0000

  datatype StoreError =
    | RecordTooLarge(offset: nat, got: nat, cap: nat)
    | Malformed(at: nat, source: DecodeError)
    | Replay(height: nat, refusal: ExtendError)
    | ClockOverflow(overflowHeight: nat)

  // Where a record starts, and its payload.
  type LogRecord = (nat, Bytes)

  // u32::to_le_bytes of a length cast to 32 bits.
  function Le32(n: nat): (b: Bytes)
    ensures |b| == LEN_PREFIX_BYTES
  {
    var m := n % U32_RANGE;
    [m % 256, m / 256 % 256, m / 256 / 256 % 256, m / 256 / 256 / 256]
  }

  function FromLe32(b: Bytes): nat
    requires |b| == LEN_PREFIX_BYTES
  {
    b[0] as nat + 256 * b[1] as nat + 65536 * b[2] as nat + 16777216 * b[3] as nat
  }

  // A length reads back up to the width of its prefix.
  lemma Le32RoundTrip(n: nat)
    ensures FromLe32(Le32(n)) == n % U32_RANGE
  {
    var m := n % U32_RANGE;
    var q := m / 256;
    var r := q / 256;
    assert m == 256 * q + m % 256 && q == 256 * r + q % 256 && r == 256 * (r / 256) + r % 256;
  }

  function Record(payload: Bytes): Bytes {
    Le32(|payload|) + payload
  }

  function Records(payloads: seq<Bytes>): seq<Bytes> {
    seq(|payloads|, i requires 0 <= i < |payloads| => Record(payloads[i]))
  }

  // The file after appending these payloads to an empty one.
  function Log(payloads: seq<Bytes>): Bytes {
    Flatten(Records(payloads))
  }

  /* ---------- reading, as a function of the bytes ---------- */

  // The records from `offset` on and where the last complete one ends.
  function Scan(d: Bytes, offset: nat, cap: nat, acc: seq<LogRecord>): Result<(seq<LogRecord>, nat), StoreError>
    requires offset <= |d|
    decreases |d| - offset
  {
    if |d| - offset < LEN_PREFIX_BYTES then Ok((acc, offset))
    else
      var len := FromLe32(d[offset..offset + LEN_PREFIX_BYTES]);
      var start := offset + LEN_PREFIX_BYTES;
      if len > cap then Err(RecordTooLarge(offset, len, cap))
      else if |d| - start < len then Ok((acc, offset))
      else Scan(d, start + len, cap, acc + [(offset, d[start..start + len])])
  }

  // Payload i with the offset of its record.
  function Tagged(payloads: seq<Bytes>, k: nat): seq<LogRecord>
    requires k <= |payloads|
  {
    seq(k, i requires 0 <= i < k => (Pos(Records(payloads), i), payloads[i]))
  }

  // How many records lie wholly before the cut.
  function WholeBefore(payloads: seq<Bytes>, cut: nat): (k: nat)
    ensures k <= |payloads|
    ensures Pos(Records(payloads), k) <= cut
    ensures k < |payloads| ==> Pos(Records(payloads), k + 1) > cut
  {
    if payloads == [] then 0
    else
      var rest := payloads[..|payloads| - 1];
      PrefixRecords(payloads);
      if |Log(payloads)| <= cut then |payloads| else WholeBefore(rest, cut)
  }

  lemma PrefixRecords(payloads: seq<Bytes>)
    requires payloads != []
    ensures var rest := payloads[..|payloads| - 1];
      && (forall i | 0 <= i <= |rest| :: Pos(Records(payloads), i) == Pos(Records(rest), i))
      && Pos(Records(payloads), |payloads|) == |Log(payloads)|
  {
    var rest := payloads[..|payloads| - 1];
    forall i | 0 <= i <= |rest| ensures Records(payloads)[..i] == Records(rest)[..i] {
    }
    WholeMessage(Records(payloads));
  }

  // A record sits at its position: length prefix, then payload.
  lemma RecordAt(payloads: seq<Bytes>, i: nat)
    requires i < |payloads|
    ensures var d, p, len := Log(payloads), Pos(Records(payloads), i), |payloads[i]|;
      && p + LEN_PREFIX_BYTES + len == Pos(Records(payloads), i + 1) <= |d|
      && FromLe32(d[p..p + LEN_PREFIX_BYTES]) == len % U32_RANGE
      && d[p + LEN_PREFIX_BYTES..p + LEN_PREFIX_BYTES + len] == payloads[i]
  {
    hide Flatten, Le32, FromLe32;
    var d, p := Log(payloads), Pos(Records(payloads), i);
    PartAt(Records(payloads), i);
    var r := Record(payloads[i]);
    assert d[p..p + |r|] == r;
    assert d[p..p + LEN_PREFIX_BYTES] == r[..LEN_PREFIX_BYTES] == Le32(|payloads[i]|);
    assert d[p + LEN_PREFIX_BYTES..p + |r|] == r[LEN_PREFIX_BYTES..];
    Le32RoundTrip(|payloads[i]|);
  }

  // The same seen through a cut of the file.
  lemma RecordBeforeCut(payloads: seq<Bytes>, cut: nat, i: nat)
    requires i < |payloads| && cut <= |Log(payloads)|
    ensures var d, p, len := Log(payloads)[..cut], Pos(Records(payloads), i), |payloads[i]|;
      && p + LEN_PREFIX_BYTES + len == Pos(Records(payloads), i + 1)
      && (p + LEN_PREFIX_BYTES <= cut ==> FromLe32(d[p..p + LEN_PREFIX_BYTES]) == len % U32_RANGE)
      && (Pos(Records(payloads), i + 1) <= cut ==> d[p + LEN_PREFIX_BYTES..p + LEN_PREFIX_BYTES + len] == payloads[i])
  {
    hide Flatten, FromLe32;
    RecordAt(payloads, i);
    var full, p, len := Log(payloads), Pos(Records(payloads), i), |payloads[i]|;
    var d := full[..cut];
    if p + LEN_PREFIX_BYTES <= cut {
      assert d[p..p + LEN_PREFIX_BYTES] == full[p..p + LEN_PREFIX_BYTES];
    }
    if Pos(Records(payloads), i + 1) <= cut {
      var start := p + LEN_PREFIX_BYTES;
      assert d[start..start + len] == full[start..start + len];
    }
  }

  ghost predicate WithinCap(payloads: seq<Bytes>, cap: nat) {
    forall i | 0 <= i < |payloads| :: |payloads[i]| <= cap
  }

  // Records within the cap that lie before the cut are all read.
  lemma {:induction false} ScanSkips(payloads: seq<Bytes>, cap: nat, cut: nat, k: nat, i: nat)
    requires i <= k <= |payloads| && WithinCap(payloads[..k], cap) && cap < U32_RANGE
    requires Pos(Records(payloads), k) <= cut <= |Log(payloads)|
    ensures Pos(Records(payloads), i) <= cut
    ensures Scan(Log(payloads)[..cut], Pos(Records(payloads), i), cap, Tagged(payloads, i)) ==
            Scan(Log(payloads)[..cut], Pos(Records(payloads), k), cap, Tagged(payloads, k))
    decreases k - i
  {
    hide Flatten, Pos, FromLe32, Record;
    if i < k {
      assert payloads[..k][i] == payloads[i];
      RecordBeforeCut(payloads, cut, i);
      ScanSkips(payloads, cap, cut, k, i + 1);
      assert Tagged(payloads, i) + [(Pos(Records(payloads), i), payloads[i])] == Tagged(payloads, i + 1);
    }
  }

  // What is left of the record that the cut falls into is taken for a torn write: it has no whole length
  // prefix, or one within the cap that asks for more bytes than there are.
  predicate TailStops(payloads: seq<Bytes>, cut: nat, cap: nat) {
    var k := WholeBefore(payloads, cut);
    var left := cut - Pos(Records(payloads), k);
    k < |payloads| && left >= LEN_PREFIX_BYTES ==>
      var len := |payloads[k]| % U32_RANGE;
      len <= cap && left - LEN_PREFIX_BYTES < len
  }

  lemma {:induction false} ScanGrows(d: Bytes, offset: nat, cap: nat, acc: seq<LogRecord>)
    requires offset <= |d| && Scan(d, offset, cap, acc).Ok?
    ensures |acc| <= |Scan(d, offset, cap, acc).value.0|
    decreases |d| - offset
  {
    hide FromLe32;
    if |d| - offset >= LEN_PREFIX_BYTES {
      var len := FromLe32(d[offset..offset + LEN_PREFIX_BYTES]);
      var start := offset + LEN_PREFIX_BYTES;
      if len <= cap && |d| - start >= len {
        ScanGrows(d, start + len, cap, acc + [(offset, d[start..start + len])]);
      }
    }
  }

  // The scan of a cut file whose whole records are within the cap reads those records and no more exactly
  // when the tail stops it.
  lemma ScanOfCut(payloads: seq<Bytes>, cap: nat, cut: nat)
    requires cap < U32_RANGE && cut <= |Log(payloads)|
    requires WithinCap(payloads[..WholeBefore(payloads, cut)], cap)
    ensures var k := WholeBefore(payloads, cut); var scan := Scan(Log(payloads)[..cut], 0, cap, []);
      && (TailStops(payloads, cut, cap) ==> scan == Ok((Tagged(payloads, k), Pos(Records(payloads), k))))
      && (scan.Ok? && |scan.value.0| == k ==> TailStops(payloads, cut, cap))
  {
    hide Flatten, FromLe32, Record;
    var k, d := WholeBefore(payloads, cut), Log(payloads)[..cut];
    var p: nat := Pos(Records(payloads), k);
    ScanSkips(payloads, cap, cut, k, 0);
    WholeMessage(Records(payloads));
    assert Tagged(payloads, 0) == [];
    if k < |payloads| {
      RecordBeforeCut(payloads, cut, k);
      if cut - p >= LEN_PREFIX_BYTES && !TailStops(payloads, cut, cap) {
        var len := |payloads[k]| % U32_RANGE;
        var start := p + LEN_PREFIX_BYTES;
        if len <= cap {
          assert Scan(d, p, cap, Tagged(payloads, k)) ==
                 Scan(d, start + len, cap, Tagged(payloads, k) + [(p, d[start..start + len])]);
          if Scan(d, p, cap, Tagged(payloads, k)).Ok? {
            ScanGrows(d, start + len, cap, Tagged(payloads, k) + [(p, d[start..start + len])]);
          }
        }
      }
    }
  }

  lemma FittingTailStops(payloads: seq<Bytes>, cap: nat, cut: nat)
    requires WithinCap(payloads, cap) && cap < U32_RANGE && cut <= |Log(payloads)|
    ensures TailStops(payloads, cut, cap)
  {
    hide Flatten;
    var k := WholeBefore(payloads, cut);
    if k < |payloads| {
      RecordBeforeCut(payloads, cut, k);
    }
  }

  /** Crash recovery: whatever byte the file is cut at, reading returns exactly the records wholly
      before the cut, and the file is truncated to exactly their bytes. */
  lemma CrashRecovery(payloads: seq<Bytes>, cap: nat, cut: nat)
    requires WithinCap(payloads, cap) && cap < U32_RANGE && cut <= |Log(payloads)|
    ensures var k := WholeBefore(payloads, cut);
      && Scan(Log(payloads)[..cut], 0, cap, []) == Ok((Tagged(payloads, k), |Log(payloads[..k])|))
      && |Log(payloads[..k])| <= cut
      && Log(payloads)[..cut][..|Log(payloads[..k])|] == Log(payloads[..k])
  {
    var k := WholeBefore(payloads, cut);
    FittingTailStops(payloads, cap, cut);
    ScanOfCut(payloads, cap, cut);
    assert Records(payloads)[..k] == Records(payloads[..k]);
    FlattenPrefix(Records(payloads), k);
    assert Log(payloads)[..cut][..|Log(payloads[..k])|] == Log(payloads)[..|Log(payloads[..k])|];
  }

  lemma {:induction false} FlattenPrefix(parts: seq<Bytes>, i: nat)
    requires i <= |parts|
    ensures Pos(parts, i) <= |Flatten(parts)| && Flatten(parts)[..Pos(parts, i)] == Flatten(parts[..i])
  {
    if i == |parts| {
      assert parts[..i] == parts;
    } else {
      var rest := parts[..|parts| - 1];
      FlattenPrefix(rest, i);
      assert rest[..i] == parts[..i];
    }
  }

  lemma {:induction false} ScanStops(d: Bytes, offset: nat, cap: nat, acc: seq<LogRecord>)
    requires offset <= |d| && Scan(d, offset, cap, acc).Ok?
    ensures var end := Scan(d, offset, cap, acc).value.1;
      && offset <= end <= |d|
      && Scan(d[..end], offset, cap, acc) == Scan(d, offset, cap, acc)
    decreases |d| - offset
  {
    hide FromLe32;
    if |d| - offset >= LEN_PREFIX_BYTES {
      var len := FromLe32(d[offset..offset + LEN_PREFIX_BYTES]);
      var start := offset + LEN_PREFIX_BYTES;
      if len <= cap && |d| - start >= len {
        ScanStops(d, start + len, cap, acc + [(offset, d[start..start + len])]);
        var end := Scan(d, offset, cap, acc).value.1;
        assert d[..end][offset..start] == d[offset..start];
        assert d[..end][start..start + len] == d[start..start + len];
      }
    }
  }

  /** Reading is idempotent on any file: after the truncation the same records are read again and
      nothing is left to truncate. */
  lemma ReadingIsIdempotent(d: Bytes, cap: nat)
    requires Scan(d, 0, cap, []).Ok?
    ensures var end := Scan(d, 0, cap, []).value.1;
      end <= |d| && Scan(d[..end], 0, cap, []) == Scan(d, 0, cap, []) && end == |d[..end]|
  {
    ScanStops(d, 0, cap, []);
  }

  /** Records appended after a recovery read back behind the recovered ones. */
  lemma AppendAfterRecovery(payloads: seq<Bytes>, more: seq<Bytes>, cap: nat, cut: nat)
    requires WithinCap(payloads, cap) && WithinCap(more, cap) && cap < U32_RANGE && cut <= |Log(payloads)|
    ensures var all := payloads[..WholeBefore(payloads, cut)] + more;
      Scan(Log(all), 0, cap, []) == Ok((Tagged(all, |all|), |Log(all)|))
  {
    var all := payloads[..WholeBefore(payloads, cut)] + more;
    FullLogReadsBack(all, cap);
  }

  lemma FullLogReadsBack(all: seq<Bytes>, cap: nat)
    requires WithinCap(all, cap) && cap < U32_RANGE
    ensures Scan(Log(all), 0, cap, []) == Ok((Tagged(all, |all|), |Log(all)|))
  {
    WholeMessage(Records(all));
    CrashRecovery(all, cap, |Log(all)|);
    assert Log(all)[..|Log(all)|] == Log(all);
    assert WholeBefore(all, |Log(all)|) == |all|;
    assert all[..|all|] == all;
  }

  /** A record over the cap is corruption, not a crash tail: nothing is read and the error names
      the first such record. */
  lemma OversizedRecordIsRefused(payloads: seq<Bytes>, cap: nat, bad: nat)
    requires bad < |payloads| && cap < |payloads[bad]| % U32_RANGE && cap < U32_RANGE
    requires WithinCap(payloads[..bad], cap)
    ensures Scan(Log(payloads), 0, cap, []) ==
            Err(RecordTooLarge(Pos(Records(payloads), bad), |payloads[bad]| % U32_RANGE, cap))
  {
    hide Flatten, FromLe32, Record;
    RecordAt(payloads, bad);
    assert Log(payloads)[..|Log(payloads)|] == Log(payloads);
    ScanSkips(payloads, cap, |Log(payloads)|, bad, 0);
    WholeMessage(Records(payloads));
    assert Tagged(payloads, 0) == [];
  }

  // What is left of the file once it was read: a torn tail is cut away, a corrupt file is not touched.
  function Recovered(data: Option<Bytes>, cap: nat): Option<Bytes> {
    match data
    case None => None
    case Some(d) => match Scan(d, 0, cap, [])
                    case Err(_) => data
                    case Ok(v) => if v.1 <= |d| then Some(d[..v.1]) else data
  }

  /* ---------- the log file ---------- */

  class LogFile {
    // The bytes on disk; None when the file does not exist.
    var data: Option<Bytes>

    constructor ()
      ensures data == None
    {
      data := None;
    }

    method AppendRecord(payload: Bytes)
      modifies this
      ensures data == Some((if old(data).Some? then old(data).value else []) + Record(payload))
    {
      var record: Bytes := [];
      record := record + Le32(|payload|);
      record := record + payload;
      assert record == Record(payload);
      data := Some((if data.Some? then data.value else []) + record);
    }

    method ReadRecords(cap: nat) returns (res: Result<seq<LogRecord>, StoreError>)
      modifies this
      ensures data == Recovered(old(data), cap)
      ensures match old(data)
        case None => res == Ok([])
        case Some(d) => match Scan(d, 0, cap, [])
                        case Err(e) => res == Err(e)
                        case Ok(v) => res == Ok(v.0)
    {
      if data.None? {
        return Ok([]);
      }
      var d := data.value;
      var records: seq<LogRecord> := [];
      var offset := 0;
      while offset < |d|
        invariant offset <= |d|
        invariant Scan(d, 0, cap, []) == Scan(d, offset, cap, records)
        decreases |d| - offset
      {
        if |d| - offset < LEN_PREFIX_BYTES {
          break;
        }
        var len := FromLe32(d[offset..offset + LEN_PREFIX_BYTES]);
        if len > cap {
          return Err(RecordTooLarge(offset, len, cap));
        }
        var start := offset + LEN_PREFIX_BYTES;
        if |d| - start < len {
          break;
        }
        records := records + [(offset, d[start..start + len])];
        offset := start + len;
      }
      if offset < |d| {
        data := Some(d[..offset]);
      } else {
        assert d[..offset] == d;
      }
      return Ok(records);
    }
  }

  /* ---------- blocks in the log ---------- */

  function DecodeAll(c: MintCodec, records: seq<LogRecord>, i: nat, acc: seq<Block>): Result<seq<Block>, StoreError>
    requires i <= |records|
    decreases |records| - i
  {
    if i == |records| then Ok(acc)
    else match ParseBlock(c, records[i].1)
      case Err(e) => Err(Malformed(records[i].0, e))
      case Ok(b) => DecodeAll(c, records, i + 1, acc + [b])
  }

  // What the log file holds, block by block.
  function ReadLog(c: MintCodec, d: Option<Bytes>): Result<seq<Block>, StoreError> {
    match d
    case None => Ok([])
    case Some(bytes) => match Scan(bytes, 0, MAX_RECORD_BYTES, [])
                        case Err(e) => Err(e)
                        case Ok(v) => DecodeAll(c, v.0, 0, [])
  }

  method SaveBlock(c: MintCodec, log: LogFile, b: Block)
    modifies log
    ensures log.data == Some((if old(log.data).Some? then old(log.data).value else []) + Record(BlockBytes(c, b)))
  {
    var bytes := EncodeBlock(c, b);
    log.AppendRecord(bytes);
  }

  method ReadBlocks(c: MintCodec, log: LogFile) returns (res: Result<seq<Block>, StoreError>)
    modifies log
    ensures res == ReadLog(c, old(log.data)) && log.data == Recovered(old(log.data), MAX_RECORD_BYTES)
  {
    var records :- log.ReadRecords(MAX_RECORD_BYTES);
    var blocks: seq<Block> := [];
    for i := 0 to |records|
      invariant log.data == Recovered(old(log.data), MAX_RECORD_BYTES)
      invariant DecodeAll(c, records, 0, []) == DecodeAll(c, records, i, blocks)
    {
      var b := DecodeBlock(c, records[i].1);
      if b.Err? {
        return Err(Malformed(records[i].0, b.error));
      }
      blocks := blocks + [b.value];
    }
    return Ok(blocks);
  }

  // The drift bound of a block pinned to its own timestamp fits 64 bits.
  predicate ClockFits(b: Block) {
    b.header.timestampMs + 60_000 <= 0xFFFF_FFFF_FFFF_FFFF
  }

  ghost predicate AllClocksFit(blocks: seq<Block>) {
    forall i | 0 <= i < |blocks| :: ClockFits(blocks[i])
  }

  // The blocks above genesis form an accepted chain whose drift bounds fit 64 bits.
  ghost predicate Loadable(r: Rules, blocks: seq<Block>) {
    ChainOk(r, [r.GenesisBlock()] + blocks) && AllClocksFit(blocks)
  }

  // The replay stops at this block with this error: all before it load, and it is refused at its own
  // timestamp, or has no drift bound.
  ghost predicate StopsAt(r: Rules, blocks: seq<Block>, i: nat, e: StoreError)
    requires i < |blocks|
  {
    && Loadable(r, blocks[..i])
    && var b, v := blocks[i], Verdict(r, [r.GenesisBlock()] + blocks[..i], blocks[i], blocks[i].header.timestampMs);
       if !ClockFits(b) then e == ClockOverflow(b.header.height) else v.Some? && e == Replay(b.header.height, v.value)
  }

  ghost predicate IsReplayError(r: Rules, blocks: seq<Block>, e: StoreError) {
    exists i :: 0 <= i < |blocks| && StopsAt(r, blocks, i, e)
  }

  // A block of a chain that loads was accepted on top of those before it.
  lemma LoadedIsAccepted(r: Rules, blocks: seq<Block>, i: nat, j: nat)
    requires i < j <= |blocks| && Loadable(r, blocks[..j])
    ensures ClockFits(blocks[i])
    ensures Verdict(r, [r.GenesisBlock()] + blocks[..i], blocks[i], blocks[i].header.timestampMs).None?
  {
    hide Verdict;
    var all := [r.GenesisBlock()] + blocks[..j];
    assert all[..i + 1] == [r.GenesisBlock()] + blocks[..i];
    assert all[i + 1] == blocks[..j][i] == blocks[i];
    ReplayStep(r, all, i + 1);
  }

  /** Blocks that stop the replay do not load, and there is one error they stop it with. */
  lemma ReplayErrorIsUnique(r: Rules, blocks: seq<Block>, e: StoreError, f: StoreError)
    requires IsReplayError(r, blocks, e)
    ensures !Loadable(r, blocks)
    ensures IsReplayError(r, blocks, f) ==> e == f
  {
    hide Verdict, Loadable;
    var i :| 0 <= i < |blocks| && StopsAt(r, blocks, i, e);
    if Loadable(r, blocks) {
      assert blocks[..|blocks|] == blocks;
      LoadedIsAccepted(r, blocks, i, |blocks|);
    }
    if IsReplayError(r, blocks, f) {
      var j :| 0 <= j < |blocks| && StopsAt(r, blocks, j, f);
      if i < j {
        LoadedIsAccepted(r, blocks, i, j);
      } else if j < i {
        LoadedIsAccepted(r, blocks, j, i);
      }
    }
  }

  /** Rebuild a chain by replaying every record of the log at its own timestamp. It succeeds
      exactly when the log decodes to an accepted chain, and is then that chain; else the error is
      that of reading the log, or that of the first block that cannot be replayed. */
  method LoadChain(c: MintCodec, log: LogFile, rules: Rules) returns (res: Result<Chain, StoreError>)
    modifies log
    ensures log.data == Recovered(old(log.data), 533_504)
    ensures res.Ok? <==> ReadLog(c, old(log.data)).Ok? && Loadable(rules, ReadLog(c, old(log.data)).value)
    ensures res.Ok? ==>
            && fresh(res.value) && fresh(res.value.state) && res.value.Valid() && res.value.rules == rules
            && res.value.blocks == [rules.GenesisBlock()] + ReadLog(c, old(log.data)).value
    ensures res.Err? ==>
              match ReadLog(c, old(log.data))
              case Err(e) => res.error == e
              case Ok(blocks) => IsReplayError(rules, blocks, res.error)
  {
    hide ReadLog, Recovered, Loadable, Chain.Valid, StopsAt;
    var blocks :- ReadBlocks(c, log);
    res := ReplayAll(blocks, rules);
  }

  method ReplayAll(blocks: seq<Block>, rules: Rules) returns (res: Result<Chain, StoreError>)
    ensures res.Ok? <==> Loadable(rules, blocks)
    ensures res.Ok? ==>
            && fresh(res.value) && fresh(res.value.state) && res.value.Valid() && res.value.rules == rules
            && res.value.blocks == [rules.GenesisBlock()] + blocks
    ensures res.Err? ==> IsReplayError(rules, blocks, res.error)
  {
    hide Loadable, Chain.Valid, Verdict, StopsAt;
    var chain := new Chain(rules);
    for i := 0 to |blocks|
      invariant fresh(chain) && fresh(chain.state) && chain.Valid() && chain.rules == rules
      invariant chain.blocks == ([rules.GenesisBlock()] + blocks)[..i + 1]
      invariant forall k | 0 <= k < i :: ClockFits(blocks[k])
    {
      var failure := ReplayNext(chain, blocks, i);
      if failure.Some? {
        return Err(failure.value);
      }
    }
    ReplayDone(chain, blocks);
    return Ok(chain);
  }

  // Replay one block on top of its predecessors.
  method ReplayNext(chain: Chain, blocks: seq<Block>, i: nat) returns (failure: Option<StoreError>)
    requires chain.Valid() && i < |blocks| && chain.blocks == ([chain.rules.GenesisBlock()] + blocks)[..i + 1]
    requires forall k | 0 <= k < i :: ClockFits(blocks[k])
    modifies chain, chain.state
    ensures chain.Valid()
    ensures failure.Some? ==> !Loadable(chain.rules, blocks) && StopsAt(chain.rules, blocks, i, failure.value)
    ensures failure.None? ==> ClockFits(blocks[i]) && chain.blocks == ([chain.rules.GenesisBlock()] + blocks)[..i + 2]
  {
    hide Chain.Valid, Verdict, ChainOk, Accepts;
    var b := blocks[i];
    ghost var all := [chain.rules.GenesisBlock()] + blocks;
    assert all[i + 1] == b && all[..i + 1] + [b] == all[..i + 2];
    assert all[..i + 1] == [chain.rules.GenesisBlock()] + blocks[..i];
    ReplayedSoFar(chain, blocks, i);
    if b.header.timestampMs > U64_MAX - MAX_FUTURE_DRIFT_MS {
      assert !ClockFits(blocks[i]);
      return Some(ClockOverflow(b.header.height));
    }
    ReplayStep(chain.rules, all, i + 1);
    var err := chain.TryExtend(b, b.header.timestampMs);
    if err.Some? {
      return Some(Replay(b.header.height, err.value));
    }
    return None;
  }

  lemma ReplayedSoFar(chain: Chain, blocks: seq<Block>, i: nat)
    requires chain.Valid() && i <= |blocks| && chain.blocks == [chain.rules.GenesisBlock()] + blocks[..i]
    requires forall k | 0 <= k < i :: ClockFits(blocks[k])
    ensures Loadable(chain.rules, blocks[..i])
  {
    chain.ValidIsFold();
  }

  lemma ReplayDone(chain: Chain, blocks: seq<Block>)
    requires chain.Valid() && (forall k | 0 <= k < |blocks| :: ClockFits(blocks[k]))
    requires chain.blocks == ([chain.rules.GenesisBlock()] + blocks)[..|blocks| + 1]
    ensures Loadable(chain.rules, blocks) && chain.blocks == [chain.rules.GenesisBlock()] + blocks
  {
    chain.ValidIsFold();
    assert chain.blocks == [chain.rules.GenesisBlock()] + blocks;
  }

  // A refused block shows that the log is not a chain.
  lemma ReplayStep(r: Rules, all: seq<Block>, i: nat)
    requires 1 <= i < |all|
    ensures ChainOk(r, all) ==> Verdict(r, all[..i], all[i], all[i].header.timestampMs).None?
  {
    if ChainOk(r, all) {
      ChainOkPrefix(r, all, i);
    }
  }

  function Payloads(c: MintCodec, blocks: seq<Block>): seq<Bytes> {
    seq(|blocks|, i requires 0 <= i < |blocks| => BlockBytes(c, blocks[i]))
  }

  ghost predicate AllFit(c: MintCodec, blocks: seq<Block>) {
    forall i | 0 <= i < |blocks| :: BlockOk(c, blocks[i])
  }

  lemma PayloadsWithinCap(c: MintCodec, blocks: seq<Block>, k: nat)
    requires k <= |blocks| && AllFit(c, blocks[..k])
    ensures WithinCap(Payloads(c, blocks)[..k], MAX_RECORD_BYTES)
  {
    hide BlockBytes, BlockOk;
    forall i | 0 <= i < k ensures |Payloads(c, blocks)[i]| <= MAX_RECORD_BYTES {
      assert blocks[..k][i] == blocks[i];
      BlockLength(c, blocks[i]);
    }
  }

  lemma {:induction false} DecodesBack(c: MintCodec, blocks: seq<Block>, k: nat, i: nat)
    requires i <= k <= |blocks| && AllFit(c, blocks[..k])
    ensures DecodeAll(c, Tagged(Payloads(c, blocks), k), i, blocks[..i]) == Ok(blocks[..k])
    decreases k - i
  {
    hide BlockBytes, BlockOk, ParseBlock, Records;
    if i < k {
      assert blocks[..k][i] == blocks[i];
      BlockRoundTrip(c, blocks[i]);
      DecodesBack(c, blocks, k, i + 1);
      assert blocks[..i] + [blocks[i]] == blocks[..i + 1];
    }
  }

  // Whatever was decoded is within the caps, one block a record.
  lemma {:induction false} DecodedAllFit(c: MintCodec, records: seq<LogRecord>, i: nat, acc: seq<Block>)
    requires i <= |records| && MintCodecOk(c) && AllFit(c, acc) && DecodeAll(c, records, i, acc).Ok?
    ensures var blocks := DecodeAll(c, records, i, acc).value; AllFit(c, blocks) && |blocks| == |acc| + |records| - i
    decreases |records| - i
  {
    hide ParseBlock, BlockOk;
    if i < |records| {
      DecodedBlockFits(c, records[i].1);
      DecodedAllFit(c, records, i + 1, acc + [ParseBlock(c, records[i].1).value]);
    }
  }

  // The log of these blocks, cut there, reads back as the blocks wholly before the cut.
  ghost predicate Reloads(c: MintCodec, r: Rules, saved: seq<Block>, cut: nat) {
    var payloads := Payloads(c, saved);
    var k := WholeBefore(payloads, cut);
    && cut <= |Log(payloads)|
    && ReadLog(c, Some(Log(payloads)[..cut])) == Ok(saved[..k])
    && Loadable(r, saved[..k])
  }

  // What a cut log needs of its blocks: those before the cut within the wire caps and the clock, and a
  // tail that passes for a torn write.
  ghost predicate CutFits(c: MintCodec, saved: seq<Block>, cut: nat) {
    var payloads := Payloads(c, saved);
    var k := WholeBefore(payloads, cut);
    AllFit(c, saved[..k]) && AllClocksFit(saved[..k]) && TailStops(payloads, cut, MAX_RECORD_BYTES)
  }

  lemma FittingCutReloads(c: MintCodec, r: Rules, chain: seq<Block>, cut: nat)
    requires ChainOk(r, chain) && cut <= |Log(Payloads(c, chain[1..]))| && CutFits(c, chain[1..], cut)
    ensures Reloads(c, r, chain[1..], cut)
  {
    hide BlockBytes, BlockOk, ParseBlock, Scan, Flatten, Records, TailStops;
    var saved := chain[1..];
    var payloads := Payloads(c, saved);
    var k := WholeBefore(payloads, cut);
    PayloadsWithinCap(c, saved, k);
    ScanOfCut(payloads, MAX_RECORD_BYTES, cut);
    DecodesBack(c, saved, k, 0);
    assert saved[..0] == [];
    ChainOkPrefix(r, chain, k + 1);
    assert [r.GenesisBlock()] + saved[..k] == chain[..k + 1];
  }

  /** When a crashed node comes back. A node that saved every block of an accepted chain above genesis and
      crashed at any byte comes back with the blocks wholly before the cut exactly when those are within
      the wire caps, which acceptance does not check, their clocks fit, and the torn record's declared
      length is within the cap. */
  lemma CrashedNodeReloads(c: MintCodec, r: Rules, chain: seq<Block>, cut: nat)
    requires ChainOk(r, chain) && MintCodecOk(c) && cut <= |Log(Payloads(c, chain[1..]))|
    ensures Reloads(c, r, chain[1..], cut) <==> CutFits(c, chain[1..], cut)
  {
    hide BlockBytes, BlockOk, ParseBlock, Scan, Flatten, Records, TailStops, MintCodecOk;
    var saved := chain[1..];
    var payloads := Payloads(c, saved);
    var k := WholeBefore(payloads, cut);
    if CutFits(c, saved, cut) {
      FittingCutReloads(c, r, chain, cut);
    }
    if Reloads(c, r, saved, cut) {
      var records := Scan(Log(payloads)[..cut], 0, MAX_RECORD_BYTES, []).value.0;
      DecodedAllFit(c, records, 0, []);
      PayloadsWithinCap(c, saved, k);
      ScanOfCut(payloads, MAX_RECORD_BYTES, cut);
    }
  }

  /** The uncut log of an accepted chain loads again exactly when all its blocks are within the wire caps
      and their clocks fit. */
  lemma WholeLogReloadsIff(c: MintCodec, r: Rules, chain: seq<Block>)
    requires ChainOk(r, chain) && MintCodecOk(c)
    ensures var saved := chain[1..];
      ReadLog(c, Some(Log(Payloads(c, saved)))) == Ok(saved) && Loadable(r, saved) <==>
        AllFit(c, saved) && AllClocksFit(saved)
  {
    hide BlockBytes, BlockOk, ParseBlock, Scan, Flatten, Records, MintCodecOk, ReadLog, Loadable;
    var saved := chain[1..];
    var payloads := Payloads(c, saved);
    var log := Log(payloads);
    CrashedNodeReloads(c, r, chain, |log|);
    WholeMessage(Records(payloads));
    assert log[..|log|] == log && WholeBefore(payloads, |log|) == |saved| && saved[..|saved|] == saved;
  }

  /** Blocks that were decoded from wire bytes are within the caps, so a node that saves nothing else loses
      nothing but a torn tail. */
  lemma DecodedChainReloads(c: MintCodec, r: Rules, chain: seq<Block>, wire: seq<Bytes>, cut: nat)
    requires ChainOk(r, chain) && MintCodecOk(c) && AllClocksFit(chain[1..]) && cut <= |Log(Payloads(c, chain[1..]))|
    requires |wire| == |chain| && forall i | 1 <= i < |chain| :: ParseBlock(c, wire[i]) == Ok(chain[i])
    ensures Reloads(c, r, chain[1..], cut)
  {
    hide BlockBytes, BlockOk, ParseBlock, Scan, Flatten, Records, MintCodecOk;
    var saved := chain[1..];
    var payloads := Payloads(c, saved);
    forall i | 0 <= i < |saved| ensures BlockOk(c, saved[i]) {
      DecodedBlockFits(c, wire[i + 1]);
    }
    assert saved[..|saved|] == saved && payloads[..|saved|] == payloads;
    PayloadsWithinCap(c, saved, |saved|);
    FittingTailStops(payloads, MAX_RECORD_BYTES, cut);
    FittingCutReloads(c, r, chain, cut);
  }

  /* ---------- an accepted block that no log holds ---------- */

  // What the block producer takes from the pool at most.
  const MAX_BLOCK_TRANSFERS: nat := 64

  // As many transfers as the producer takes, each with the longest proof a transfer may carry.
  predicate IsFull(txs: seq<Transfer>) {
    |txs| == MAX_BLOCK_TRANSFERS && forall i | 0 <= i < |txs| :: |txs[i].proof| == MAX_PROOF_BYTES
  }

  lemma {:induction false} TransfersAtLeast(txs: seq<Transfer>)
    requires forall i | 0 <= i < |txs| :: |txs[i].proof| == MAX_PROOF_BYTES
    ensures |Flatten(TxParts(txs))| >= 8_800 * |txs|
  {
    if txs != [] {
      var rest, t := txs[..|txs| - 1], txs[|txs| - 1];
      TransfersAtLeast(rest);
      assert rest + [t] == txs;
      TxPartsLength(rest, t);
      TransferLength(t);
    }
  }

  lemma FullBlockIsOversized(c: MintCodec, b: Block)
    requires IsFull(b.body.transfers)
    ensures |BlockBytes(c, b)| > MAX_RECORD_BYTES
  {
    hide TxParts, PegParts, Vlq, HeaderBytes;
    TransfersAtLeast(b.body.transfers);
    BodyLength(b.body);
    var parts := BlockParts(c, b);
    assert parts[3] == BodyBytes(b.body);
    PartFits(parts, 3);
  }

  /** Acceptance bounds no sizes: with stub proofs, a full block that was produced on any chain and whose
      coinbase is in order is accepted, and saving it makes the whole log unreadable, with all the blocks
      before it and whatever follows. */
  lemma FullBlockLosesTheLog(c: MintCodec, r: Rules, chain: seq<Block>, o: Order, now: nat, later: seq<Block>)
    requires ChainOk(r, chain) && AllFit(c, chain[1..]) && r.proofMode == StubProofs && PegCodecOk(r)
    requires IsFull(o.txs) && Produce(r, chain, o, now).Ok?
    requires o.coinbase.Some? ==>
      && !r.prim.isIdentity(o.coinbase.value.cm)
      && r.prim.verifyMint(ExpectedCoinbaseValue(r, StateOf(r, chain).pot, |o.txs|), o.coinbase.value)
    requires |BlockBytes(c, Produce(r, chain, o, now).value)| < U32_RANGE
    ensures var b := Produce(r, chain, o, now).value;
      && ChainOk(r, chain + [b])
      && ReadLog(c, Some(Log(Payloads(c, chain[1..] + [b] + later)))) ==
         Err(RecordTooLarge(|Log(Payloads(c, chain[1..]))|, |BlockBytes(c, b)|, MAX_RECORD_BYTES))
  {
    var b := Produce(r, chain, o, now).value;
    ProducedBlockIsAccepted(r, chain, o, now, b.header.timestampMs);
    ChainOkPush(r, chain, b);
    FullBlockIsOversized(c, b);
    SavedTooLarge(c, chain[1..], b, later);
  }

  lemma SavedTooLarge(c: MintCodec, saved: seq<Block>, b: Block, later: seq<Block>)
    requires AllFit(c, saved) && MAX_RECORD_BYTES < |BlockBytes(c, b)| < U32_RANGE
    ensures ReadLog(c, Some(Log(Payloads(c, saved + [b] + later)))) ==
            Err(RecordTooLarge(|Log(Payloads(c, saved))|, |BlockBytes(c, b)|, MAX_RECORD_BYTES))
  {
    hide BlockBytes, BlockOk, ParseBlock, Scan, Flatten, DecodeAll;
    var all, n := saved + [b] + later, |saved|;
    var payloads := Payloads(c, all);
    assert all[..n] == saved;
    PayloadsWithinCap(c, all, n);
    OversizedRecordIsRefused(payloads, MAX_RECORD_BYTES, n);
    assert Records(payloads)[..n] == Records(Payloads(c, saved));
  }
}
