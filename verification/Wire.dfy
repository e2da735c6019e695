/** Byte-level wire format: variable-length integers, fixed-width numbers, a writer that
    appends and a reader that advances a cursor. */
module Wire {
  import opened Common
  import opened Arithmetic

  type Bytes = seq<byte>

  datatype DecodeError =
    | ReadFailed
    | TrailingBytes(left: nat)
    | NbitsOutOfRange(raw: nat)
    | ProofTooLarge(proofLen: nat)
    | TooManyTxs(txCount: nat)
    | TooManyPegMints(pegCount: nat)
    | PegMintTooLarge(pegLen: nat)
    | TooLarge(bodyLen: nat)
    | BadCoinbaseFlag(flag: nat)
    | CoinbaseTooLarge(coinbaseLen: nat)
    | CoinbaseMalformed
    | CoinbaseTrailingBytes(coinbaseLeft: nat)
    | InTx(txError: DecodeError)
    | InHeader(headerError: DecodeError)
    | InBody(bodyError: DecodeError)

  // A value read, and the position after it.
  type Read<T> = Result<(T, nat), DecodeError>

  /* ---------- numbers ---------- */

  // Seven bits per byte, low bits first, the top bit set on all but the last.
  function Vlq(n: nat): (b: Bytes)
    ensures b != []
  {
    if n < 128 then [n] else [n % 128 + 128] + Vlq(n / 128)
  }

  // At most `budget` bytes are read; bits beyond 64 are lost.
  function VlqAt(d: Bytes, p: nat, budget: nat): Read<nat>
    decreases budget
  {
    if p >= |d| || budget == 0 then Err(ReadFailed)
    else if d[p] < 128 then Ok((d[p], p + 1))
    else
      var rest :- VlqAt(d, p + 1, budget - 1);
      Ok(((d[p] - 128 + 128 * rest.0) % (U64_MAX + 1), rest.1))
  }

  // Big-endian, in exactly `width` bytes.
  function Fixed(n: nat, width: nat): (b: Bytes)
    ensures |b| == width
  {
    if width == 0 then [] else Fixed(n / 256, width - 1) + [n % 256]
  }

  function Unfixed(b: Bytes): nat {
    if b == [] then 0 else Unfixed(b[..|b| - 1]) * 256 + b[|b| - 1]
  }

  function Pow(base: nat, e: nat): nat {
    if e == 0 then 1 else base * Pow(base, e - 1)
  }

  lemma {:induction false} FixedRoundTrip(n: nat, width: nat)
    requires n < Pow(256, width)
    ensures Unfixed(Fixed(n, width)) == n
  {
    if width > 0 {
      var b := Fixed(n, width);
      assert b[..|b| - 1] == Fixed(n / 256, width - 1);
      assert n / 256 < Pow(256, width - 1);
      FixedRoundTrip(n / 256, width - 1);
    }
  }

  lemma {:induction false} UnfixedBound(b: Bytes)
    ensures Unfixed(b) < Pow(256, |b|)
  {
    if b != [] {
      UnfixedBound(b[..|b| - 1]);
    }
  }

  // The encoding of n sits at position p.
  ghost predicate At(d: Bytes, p: nat, s: Bytes) {
    p + |s| <= |d| && d[p..p + |s|] == s
  }

  lemma {:induction false} VlqRoundTrip(d: Bytes, p: nat, n: nat, budget: nat)
    requires n <= U64_MAX && budget > 0 && n < Pow(128, budget) && At(d, p, Vlq(n))
    ensures VlqAt(d, p, budget) == Ok((n, p + |Vlq(n)|))
    decreases budget
  {
    var s := Vlq(n);
    assert d[p] == d[p..p + |s|][0] == s[0];
    if n >= 128 {
      assert budget > 0;
      assert d[p + 1..p + 1 + |Vlq(n / 128)|] == d[p..p + |s|][1..] == Vlq(n / 128);
      assert n / 128 < Pow(128, budget - 1);
      VlqRoundTrip(d, p + 1, n / 128, budget - 1);
      var rest := VlqAt(d, p + 1, budget - 1).value;
      assert d[p] as int - 128 + 128 * rest.0 == n;
      assert n % (U64_MAX + 1) == n;
    }
  }

  lemma {:induction false} VlqGrows(m: nat, n: nat)
    requires m <= n
    ensures |Vlq(m)| <= |Vlq(n)|
  {
    if n >= 128 && m >= 128 {
      VlqGrows(m / 128, n / 128);
    }
  }

  // What was read takes no more bytes to write again, whatever its encoding was.
  lemma {:induction false} VlqIsShortest(d: Bytes, p: nat, budget: nat)
    requires VlqAt(d, p, budget).Ok?
    ensures var v := VlqAt(d, p, budget).value; p + |Vlq(v.0)| <= v.1 <= |d| && v.0 <= U64_MAX
    decreases budget
  {
    if d[p] >= 128 {
      VlqIsShortest(d, p + 1, budget - 1);
      var rest := VlqAt(d, p + 1, budget - 1).value.0;
      var whole: nat := d[p] - 128 + 128 * rest;
      assert whole / 128 == rest && whole % 128 == d[p] - 128;
      VlqGrows(whole % (U64_MAX + 1), whole);
    }
  }

  // Ten bytes of seven bits hold any 64-bit number.
  lemma TenBytesSuffice()
    ensures U64_MAX < Pow(128, VLQ_MAX_BYTES)
  {
    assert Pow(128, 2) == 16384;
    assert Pow(128, 4) == 268435456;
    assert Pow(128, 6) == 4398046511104;
    assert Pow(128, 8) == 72057594037927936;
    assert Pow(128, 10) == 1180591620717411303424;
  }

  /* ---------- the digits ---------- */

  lemma {:induction false} PowPositive(base: nat, e: nat)
    requires base > 0
    ensures Pow(base, e) > 0
  {
    if e > 0 {
      PowPositive(base, e - 1);
    }
  }

  // A digit of n / base is the next digit of n.
  lemma NextDigit(n: nat, base: nat, i: nat)
    requires base > 0
    ensures Pow(base, i) > 0 && n / base / Pow(base, i) == n / Pow(base, i + 1)
  {
    PowPositive(base, i);
    NestedQuotient(n, base, Pow(base, i));
  }

  /** Fixed-width numbers are written most significant byte first. */
  lemma {:induction false} FixedDigit(n: nat, width: nat, i: nat)
    requires i < width
    ensures Pow(256, width - 1 - i) > 0 && Fixed(n, width)[i] == n / Pow(256, width - 1 - i) % 256
  {
    if i < width - 1 {
      FixedDigit(n / 256, width - 1, i);
      NextDigit(n, 256, width - 2 - i);
    }
  }

  // n has k digits to this base, and no fewer unless it is a single one.
  ghost predicate HasDigits(n: nat, base: nat, k: nat) {
    k > 0 && n < Pow(base, k) && (k > 1 ==> n >= Pow(base, k - 1))
  }

  /** Variable-length numbers are written as few digits as they have to base 128, least significant first, all
      but the last with the top bit set. */
  lemma {:induction false} VlqDigit(n: nat, i: nat)
    requires i < |Vlq(n)|
    ensures HasDigits(n, 128, |Vlq(n)|) && Pow(128, i) > 0
    ensures Vlq(n)[i] == n / Pow(128, i) % 128 + if i + 1 < |Vlq(n)| then 128 else 0
  {
    if n < 128 {
      assert Pow(128, 1) == 128 * Pow(128, 0);
    } else {
      var rest := n / 128;
      VlqDigit(rest, if i == 0 then 0 else i - 1);
      Shifted(n, Pow(128, |Vlq(rest)|), Pow(128, |Vlq(rest)| - 1));
      if i > 0 {
        NextDigit(n, 128, i - 1);
      }
    }
  }

  lemma Shifted(n: nat, above: nat, below: nat)
    ensures n / 128 < above ==> n < 128 * above
    ensures n / 128 >= below ==> n >= 128 * below
  {
  }

  // The low seven bits of every byte, least significant first.
  function Septets(b: Bytes): nat {
    if b == [] then 0 else b[0] % 128 + 128 * Septets(b[1..])
  }

  /** What reading a 64-bit number means: up to the first of at most ten bytes without the top bit, the low
      seven bits of each, of which the lowest 64 are kept; it fails when there is no such byte. */
  lemma U64Means(d: Bytes, p: nat)
    ensures match U64At(d, p)
      case Ok((n, end)) =>
        && p < end <= |d| && end <= p + 10
        && d[end - 1] < 128 && (forall i | p <= i < end - 1 :: d[i] >= 128)
        && n == Septets(d[p..end]) % 0x1_0000_0000_0000_0000
      case Err(e) => e == ReadFailed && forall i | p <= i < p + 10 && i < |d| :: d[i] >= 128
  {
    VlqMeans(d, p, VLQ_MAX_BYTES);
  }

  lemma {:induction false} VlqMeans(d: Bytes, p: nat, budget: nat)
    ensures match VlqAt(d, p, budget)
      case Ok((n, end)) =>
        && p < end <= |d| && end <= p + budget
        && d[end - 1] < 128 && (forall i | p <= i < end - 1 :: d[i] >= 128)
        && n == Septets(d[p..end]) % (U64_MAX + 1)
      case Err(e) => e == ReadFailed && forall i | p <= i < p + budget && i < |d| :: d[i] >= 128
    decreases budget
  {
    hide Septets;
    if p < |d| && budget > 0 {
      if d[p] < 128 {
        OneSeptet(d, p);
      } else {
        VlqMeans(d, p + 1, budget - 1);
        var rest := VlqAt(d, p + 1, budget - 1);
        if rest.Ok? {
          MoreSeptets(d, p, rest.value.1, rest.value.0);
        }
      }
    }
  }

  lemma OneSeptet(d: Bytes, p: nat)
    requires p < |d| && d[p] < 128
    ensures Septets(d[p..p + 1]) % (U64_MAX + 1) == d[p]
  {
    assert d[p..p + 1][1..] == [];
  }

  lemma MoreSeptets(d: Bytes, p: nat, end: nat, rest: nat)
    requires p + 1 < end <= |d| && d[p] >= 128 && rest == Septets(d[p + 1..end]) % (U64_MAX + 1)
    ensures (d[p] - 128 + 128 * rest) % (U64_MAX + 1) == Septets(d[p..end]) % (U64_MAX + 1)
  {
    assert d[p..end][1..] == d[p + 1..end];
    assert Septets(d[p..end]) == d[p] - 128 + 128 * Septets(d[p + 1..end]);
    hide Septets;
    ReduceOnce(d[p] - 128, Septets(d[p + 1..end]));
  }

  lemma ReduceOnce(x: nat, s: nat)
    ensures (x + 128 * (s % (U64_MAX + 1))) % (U64_MAX + 1) == (x + 128 * s) % (U64_MAX + 1)
  {
    var m := U64_MAX + 1;
    var q := s / m;
    assert s == m * q + s % m;
    SameRemainder(x + 128 * (s % m), x + 128 * s, 128 * q, m);
  }

  /* ---------- reading ---------- */

  const VLQ_MAX_BYTES: nat := 10

  function U64At(d: Bytes, p: nat): Read<nat> {
    VlqAt(d, p, VLQ_MAX_BYTES)
  }

  function BytesAt(d: Bytes, p: nat, n: nat): Read<Bytes> {
    if p + n <= |d| then Ok((d[p..p + n], p + n)) else Err(ReadFailed)
  }

  function U8At(d: Bytes, p: nat): Read<nat> {
    if p < |d| then Ok((d[p] as nat, p + 1)) else Err(ReadFailed)
  }

  function NumberAt(d: Bytes, p: nat, width: nat): Read<nat> {
    var b :- BytesAt(d, p, width);
    Ok((Unfixed(b.0), b.1))
  }

  /* ---------- a message as a list of parts ---------- */

  function Flatten(parts: seq<Bytes>): Bytes {
    if parts == [] then [] else Flatten(parts[..|parts| - 1]) + parts[|parts| - 1]
  }

  // Where the i-th part starts.
  function Pos(parts: seq<Bytes>, i: nat): nat
    requires i <= |parts|
  {
    |Flatten(parts[..i])|
  }

  lemma FlattenPush(parts: seq<Bytes>, s: Bytes)
    ensures Flatten(parts + [s]) == Flatten(parts) + s
  {
    assert (parts + [s])[..|parts|] == parts;
  }

  lemma {:induction false} FlattenAppend(a: seq<Bytes>, b: seq<Bytes>)
    ensures Flatten(a + b) == Flatten(a) + Flatten(b)
  {
    if b == [] {
      assert a + b == a;
    } else {
      var rest := b[..|b| - 1];
      FlattenAppend(a, rest);
      assert (a + b)[..|a + b| - 1] == a + rest;
    }
  }

  lemma {:induction false} PartAt(parts: seq<Bytes>, i: nat)
    requires i < |parts|
    ensures At(Flatten(parts), Pos(parts, i), parts[i])
    ensures Pos(parts, i + 1) == Pos(parts, i) + |parts[i]|
  {
    var rest := parts[..|parts| - 1];
    assert parts[..i + 1][..i] == parts[..i];
    if i < |rest| {
      PartAt(rest, i);
      assert rest[..i] == parts[..i] && rest[..i + 1] == parts[..i + 1];
    } else {
      assert parts[..i + 1] == parts;
    }
  }

  lemma WholeMessage(parts: seq<Bytes>)
    ensures Pos(parts, 0) == 0 && Pos(parts, |parts|) == |Flatten(parts)|
  {
    assert parts[..|parts|] == parts;
  }

  lemma ReadsBytes(parts: seq<Bytes>, i: nat)
    requires i < |parts|
    ensures BytesAt(Flatten(parts), Pos(parts, i), |parts[i]|) == Ok((parts[i], Pos(parts, i + 1)))
  {
    PartAt(parts, i);
  }

  lemma ReadsNumber(parts: seq<Bytes>, i: nat, n: nat, width: nat)
    requires i < |parts| && parts[i] == Fixed(n, width) && n < Pow(256, width)
    ensures NumberAt(Flatten(parts), Pos(parts, i), width) == Ok((n, Pos(parts, i + 1)))
  {
    hide Pow, Fixed, Unfixed, Flatten;
    ReadsBytes(parts, i);
    FixedRoundTrip(n, width);
  }

  lemma ReadsU64(parts: seq<Bytes>, i: nat, n: nat)
    requires i < |parts| && parts[i] == Vlq(n) && n <= U64_MAX
    ensures U64At(Flatten(parts), Pos(parts, i)) == Ok((n, Pos(parts, i + 1)))
  {
    hide Pow, VlqAt, Vlq, Flatten;
    PartAt(parts, i);
    TenBytesSuffice();
    VlqRoundTrip(Flatten(parts), Pos(parts, i), n, VLQ_MAX_BYTES);
  }

  lemma ReadsU8(parts: seq<Bytes>, i: nat, b: byte)
    requires i < |parts| && parts[i] == [b]
    ensures U8At(Flatten(parts), Pos(parts, i)) == Ok((b as nat, Pos(parts, i + 1)))
  {
    PartAt(parts, i);
    var d, p := Flatten(parts), Pos(parts, i);
    assert d[p] == d[p..p + 1][0];
  }

  /* ---------- writer and reader ---------- */

  class VlqWriter {
    var buf: Bytes
    ghost var parts: seq<Bytes>

    ghost predicate Valid()
      reads this
    {
      buf == Flatten(parts)
    }

    constructor ()
      ensures Valid() && parts == []
    {
      buf, parts := [], [];
    }

    method PutBytes(b: Bytes)
      requires Valid()
      modifies this
      ensures Valid() && parts == old(parts) + [b]
    {
      FlattenPush(parts, b);
      buf := buf + b;
      parts := parts + [b];
    }

    method PutU8(b: byte)
      requires Valid()
      modifies this
      ensures Valid() && parts == old(parts) + [[b]]
    {
      PutBytes([b]);
    }

    method PutU64(n: nat)
      requires Valid()
      modifies this
      ensures Valid() && parts == old(parts) + [Vlq(n)]
    {
      PutBytes(Vlq(n));
    }
  }

  // The cursor moves past what was read, or the read failed.
  predicate Advanced<T(==)>(want: Read<T>, got: Result<T, DecodeError>, pos: nat) {
    match want
    case Ok(v) => got == Ok(v.0) && pos == v.1
    case Err(e) => got == Err(e)
  }

  class VlqReader {
    const data: Bytes
    var pos: nat

    constructor (data: Bytes)
      ensures this.data == data && pos == 0
    {
      this.data := data;
      pos := 0;
    }

    method GetBytes(n: nat) returns (res: Result<Bytes, DecodeError>)
      modifies this`pos
      ensures Advanced(BytesAt(data, old(pos), n), res, pos)
    {
      if pos + n > |data| {
        return Err(ReadFailed);
      }
      res := Ok(data[pos..pos + n]);
      pos := pos + n;
    }

    method GetU8() returns (res: Result<nat, DecodeError>)
      modifies this`pos
      ensures Advanced(U8At(data, old(pos)), res, pos)
    {
      if pos >= |data| {
        return Err(ReadFailed);
      }
      res := Ok(data[pos] as nat);
      pos := pos + 1;
    }

    method GetNumber(width: nat) returns (res: Result<nat, DecodeError>)
      modifies this`pos
      ensures Advanced(NumberAt(data, old(pos), width), res, pos)
    {
      var b :- GetBytes(width);
      return Ok(Unfixed(b));
    }

    method GetU64() returns (res: Result<nat, DecodeError>)
      modifies this`pos
      ensures Advanced(U64At(data, old(pos)), res, pos)
    {
      var v :- U64At(data, pos);
      pos := v.1;
      return Ok(v.0);
    }
  }
}
