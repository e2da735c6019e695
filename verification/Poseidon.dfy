/** The Poseidon permutation over a prime field and its constraint-system gadget: every
    assignment that satisfies the emitted constraints makes the gadget's output the native hash. */
module Poseidon {
  import opened Arithmetic

  const T: nat := 3
  const R_F: nat := 8
  const R_P: nat := 56
  const ROUNDS: nat := 64
  const DOMAIN: nat := 0x6165_6769_733a_6e66

  /* ---------- the field ---------- */

  /** The field modulus, the round constants and the mixing matrix; all entries reduced. */
  datatype Params = Params(p: nat, ark: seq<seq<nat>>, mds: seq<seq<nat>>)
  {
    predicate Ok() {
      && p > DOMAIN
      && |ark| == ROUNDS && (forall r | 0 <= r < ROUNDS :: |ark[r]| == T && forall i | 0 <= i < T :: ark[r][i] < p)
      && |mds| == T && (forall i | 0 <= i < T :: |mds[i]| == T && forall j | 0 <= j < T :: mds[i][j] < p)
    }

    function Add(a: nat, b: nat): (c: nat)
      requires p > 0
      ensures c < p
    {
      (a + b) % p
    }

    function Mul(a: nat, b: nat): (c: nat)
      requires p > 0
      ensures c < p
    {
      (a * b) % p
    }
  }

  lemma AddAssoc(c: Params, x: nat, y: nat, z: nat)
    requires c.p > 0
    ensures c.Add(c.Add(x, y), z) == c.Add(x, c.Add(y, z))
  {
    ModSum(x + y, z, c.p);
    ModSum(x, y + z, c.p);
  }

  lemma MulAssoc(c: Params, x: nat, y: nat, z: nat)
    requires c.p > 0
    ensures c.Mul(c.Mul(x, y), z) == c.Mul(x, c.Mul(y, z))
  {
    ModProduct(x * y, z, c.p);
    ModProduct(y * z, x, c.p);
    assert (x * y) * z == (y * z) * x;
    assert c.Mul(y, z) * x == x * c.Mul(y, z);
  }

  lemma MulCommutes(c: Params, x: nat, y: nat)
    requires c.p > 0
    ensures c.Mul(x, y) == c.Mul(y, x)
  {
    assert x * y == y * x;
  }

  lemma Distribute(c: Params, k: nat, x: nat, y: nat)
    requires c.p > 0
    ensures c.Mul(k, c.Add(x, y)) == c.Add(c.Mul(k, x), c.Mul(k, y))
  {
    MulCommutes(c, k, c.Add(x, y));
    ModProduct(x + y, k, c.p);
    SplitProduct(k, x, y);
    ModSum(k * x, k * y, c.p);
  }

  lemma SplitProduct(k: nat, x: nat, y: nat)
    ensures (x + y) * k == k * x + k * y
  {
  }

  lemma Units(c: Params, x: nat)
    requires 1 < c.p && x < c.p
    ensures c.Add(x, 0) == x && c.Add(0, x) == x && c.Mul(x, 1) == x && c.Mul(1, x) == x && c.Mul(x, 0) == 0
  {
    RemainderOf(x, c.p, 0, x);
    RemainderOf(0, c.p, 0, 0);
    assert x * 1 == x && 1 * x == x && x * 0 == 0;
  }

  /* ---------- the native permutation, as values ---------- */

  type State = s: seq<nat> | |s| == T witness [0, 0, 0]

  predicate IsFullRound(r: nat) {
    !(R_F / 2 <= r < R_F / 2 + R_P)
  }

  function Sbox(c: Params, x: nat): nat
    requires c.Ok()
  {
    var x2 := c.Mul(x, x);
    var x4 := c.Mul(x2, x2);
    c.Mul(x4, x)
  }

  function AddConstants(c: Params, s: State, r: nat): State
    requires c.Ok() && r < ROUNDS
  {
    [c.Add(s[0], c.ark[r][0]), c.Add(s[1], c.ark[r][1]), c.Add(s[2], c.ark[r][2])]
  }

  function SboxLayer(c: Params, s: State, r: nat): State
    requires c.Ok()
  {
    if IsFullRound(r) then [Sbox(c, s[0]), Sbox(c, s[1]), Sbox(c, s[2])] else [Sbox(c, s[0]), s[1], s[2]]
  }

  // Row i of the matrix times the state.
  function Lane(c: Params, s: State, i: nat): nat
    requires c.Ok() && i < T
  {
    c.Add(c.Add(c.Add(0, c.Mul(c.mds[i][0], s[0])), c.Mul(c.mds[i][1], s[1])), c.Mul(c.mds[i][2], s[2]))
  }

  function MixLayer(c: Params, s: State): State
    requires c.Ok()
  {
    [Lane(c, s, 0), Lane(c, s, 1), Lane(c, s, 2)]
  }

  function Round(c: Params, s: State, r: nat): State
    requires c.Ok() && r < ROUNDS
  {
    MixLayer(c, SboxLayer(c, AddConstants(c, s, r), r))
  }

  // The state after the first r rounds.
  function Rounds(c: Params, s: State, r: nat): State
    requires c.Ok() && r <= ROUNDS
  {
    if r == 0 then s else Round(c, Rounds(c, s, r - 1), r - 1)
  }

  function Hash1(c: Params, x: nat): nat
    requires c.Ok()
  {
    Rounds(c, [x, DOMAIN, 0], ROUNDS)[0]
  }

  /* ---------- the hash in plain integers ---------- */

  // What lane j of a state brings to round r before it is mixed: all lanes are raised to the fifth power
  // in the first and the last four rounds, in between only the first lane is.
  function Powered(c: Params, s: State, r: nat, j: nat): nat
    requires c.Ok() && r < 64 && j < 3
  {
    var x := s[j] + c.ark[r][j];
    if j == 0 || r < 4 || r >= 60 then x * x * x * x * x else x
  }

  ghost predicate RoundAt(c: Params, trace: seq<State>, r: nat)
    requires c.Ok() && |trace| == 65 && r < 64
  {
    forall i | 0 <= i < 3 ::
      trace[r + 1][i] == (c.mds[i][0] * Powered(c, trace[r], r, 0) + c.mds[i][1] * Powered(c, trace[r], r, 1)
                          + c.mds[i][2] * Powered(c, trace[r], r, 2)) % c.p
  }

  // The states before, between and after the 64 rounds, each reduced once.
  ghost predicate IsTrace(c: Params, x: nat, trace: seq<State>)
    requires c.Ok()
  {
    && |trace| == 65
    && trace[0] == [x, 0x6165_6769_733a_6e66, 0]
    && forall r: nat | r < 64 :: RoundAt(c, trace, r)
  }

  lemma AddMod(c: Params, x: nat, y: nat)
    requires c.p > 0
    ensures c.Add(x % c.p, y % c.p) == (x + y) % c.p
    ensures c.Add(0, x % c.p) == x % c.p
  {
    ModSum(x, y, c.p);
    ModSum(0, x, c.p);
  }

  lemma FifthPower(c: Params, x: nat)
    requires c.Ok()
    ensures Sbox(c, x % c.p) == (x * x * x * x * x) % c.p
  {
    var p := c.p;
    ModProductBoth(x, x, p);
    ModProductBoth(x * x, x * x, p);
    ModProductBoth(x * x * (x * x), x, p);
    assert x * x * (x * x) * x == x * x * x * x * x;
  }

  lemma ModProductBoth(a: nat, b: nat, p: nat)
    requires p > 0
    ensures (a % p) * (b % p) % p == (a * b) % p
    ensures a * (b % p) % p == (a * b) % p
  {
    ModProduct(a, b % p, p);
    ModProduct(b, a, p);
    assert a * (b % p) == b % p * a && b * a == a * b;
  }

  lemma TermOfLane(c: Params, s: State, r: nat, i: nat, j: nat)
    requires c.Ok() && r < 64 && i < 3 && j < 3
    ensures c.Mul(c.mds[i][j], SboxLayer(c, AddConstants(c, s, r), r)[j]) == c.mds[i][j] * Powered(c, s, r, j) % c.p
  {
    FifthPower(c, s[j] + c.ark[r][j]);
    assert SboxLayer(c, AddConstants(c, s, r), r)[j] == Powered(c, s, r, j) % c.p;
    hide Powered, SboxLayer;
    ModProductBoth(c.mds[i][j], Powered(c, s, r, j), c.p);
  }

  lemma LaneOfRound(c: Params, s: State, r: nat, i: nat)
    requires c.Ok() && r < 64 && i < 3
    ensures Lane(c, SboxLayer(c, AddConstants(c, s, r), r), i)
         == (c.mds[i][0] * Powered(c, s, r, 0) + c.mds[i][1] * Powered(c, s, r, 1) + c.mds[i][2] * Powered(c, s, r, 2))
            % c.p
  {
    hide Powered, SboxLayer, Params.Add, Params.Mul;
    TermOfLane(c, s, r, i, 0);
    TermOfLane(c, s, r, i, 1);
    TermOfLane(c, s, r, i, 2);
    var x, y := c.mds[i][0] * Powered(c, s, r, 0), c.mds[i][1] * Powered(c, s, r, 1);
    var z := c.mds[i][2] * Powered(c, s, r, 2);
    AddMod(c, x, y);
    AddMod(c, x + y, z);
  }

  lemma RoundIsTraced(c: Params, trace: seq<State>, r: nat)
    requires c.Ok() && |trace| == 65 && r < 64
    ensures RoundAt(c, trace, r) <==> trace[r + 1] == Round(c, trace[r], r)
  {
    forall i: nat | i < 3
      ensures Round(c, trace[r], r)[i] ==
              (c.mds[i][0] * Powered(c, trace[r], r, 0) + c.mds[i][1] * Powered(c, trace[r], r, 1)
               + c.mds[i][2] * Powered(c, trace[r], r, 2)) % c.p
    {
      LaneOfRound(c, trace[r], r, i);
    }
    hide Powered, Lane, Sbox, SboxLayer;
  }

  lemma {:induction false} TraceIsRounds(c: Params, x: nat, trace: seq<State>, r: nat)
    requires c.Ok() && IsTrace(c, x, trace) && r <= 64
    ensures trace[r] == Rounds(c, [x, DOMAIN, 0], r)
  {
    hide RoundAt, Round;
    if r > 0 {
      TraceIsRounds(c, x, trace, r - 1);
      RoundIsTraced(c, trace, r - 1);
    }
  }

  /** Reducing after every operation is reducing once a round: the hash of x is h exactly when 64 rounds of
      plain integer sums and fifth powers, each reduced once, lead from x to h in the first lane. */
  lemma HashIsTraced(c: Params, x: nat, h: nat)
    requires c.Ok()
    ensures h == Hash1(c, x) <==> exists trace: seq<State> :: IsTrace(c, x, trace) && h == trace[64][0]
  {
    hide RoundAt, Round;
    var rounds: seq<State> := seq(65, r requires 0 <= r < 65 => Rounds(c, [x, DOMAIN, 0], r));
    forall r: nat | r < 64 ensures RoundAt(c, rounds, r) {
      RoundIsTraced(c, rounds, r);
    }
    assert IsTrace(c, x, rounds) && rounds[64][0] == Hash1(c, x);
    forall trace: seq<State> | IsTrace(c, x, trace) ensures trace[64][0] == Hash1(c, x) {
      TraceIsRounds(c, x, trace, 64);
    }
  }

  // Without constants and mixing every lane stays to itself.
  predicate Plain(c: Params) {
    && c.Ok()
    && (forall r | 0 <= r < 64 :: c.ark[r] == [0, 0, 0])
    && c.mds == [[1, 0, 0], [0, 1, 0], [0, 0, 1]]
  }

  // The fifth power, n times over.
  function Fifths(p: nat, x: nat, n: nat): nat
    requires p > 0
  {
    if n == 0 then x else var y := Fifths(p, x, n - 1); y * y * y * y * y % p
  }

  lemma {:induction false} PlainRounds(c: Params, x: nat, trace: seq<State>, r: nat)
    requires Plain(c) && IsTrace(c, x, trace) && r <= 64
    ensures trace[r][0] == Fifths(c.p, x, r)
  {
    hide RoundAt;
    if r > 0 {
      PlainRounds(c, x, trace, r - 1);
      assert RoundAt(c, trace, r - 1);
      PlainLane(c, trace, r - 1);
    }
  }

  lemma PlainLane(c: Params, trace: seq<State>, r: nat)
    requires Plain(c) && |trace| == 65 && r < 64 && RoundAt(c, trace, r)
    ensures trace[r + 1][0] == var y := trace[r][0]; y * y * y * y * y % c.p
  {
    var y := trace[r][0];
    assert Powered(c, trace[r], r, 0) == y * y * y * y * y;
    hide Powered;
    var x1, x2 := Powered(c, trace[r], r, 1), Powered(c, trace[r], r, 2);
    assert c.mds[0] == [1, 0, 0];
    assert trace[r + 1][0] == (1 * Powered(c, trace[r], r, 0) + 0 * x1 + 0 * x2) % c.p;
  }

  /** With zero constants and an identity matrix the hash is the input raised to the fifth power 64 times. */
  lemma PlainHash(c: Params, x: nat)
    requires Plain(c)
    ensures Hash1(c, x) == Fifths(c.p, x, 64)
  {
    HashIsTraced(c, x, Hash1(c, x));
    var trace: seq<State> :| IsTrace(c, x, trace) && Hash1(c, x) == trace[64][0];
    PlainRounds(c, x, trace, 64);
  }

  /** The native permutation, rewriting the state array in place. */
  method Permute(c: Params, state: array<nat>)
    requires c.Ok() && state.Length == T
    modifies state
    ensures state[..] == Rounds(c, old(state[..]), ROUNDS)
  {
    for r := 0 to ROUNDS
      invariant state[..] == Rounds(c, old(state[..]), r)
    {
      NativeRound(c, state, r);
    }
  }

  method NativeRound(c: Params, state: array<nat>, r: nat)
    requires c.Ok() && state.Length == T && r < ROUNDS
    modifies state
    ensures state[..] == Round(c, old(state[..]), r)
  {
    for i := 0 to T
      invariant forall k | 0 <= k < T :: state[k] == if k < i then c.Add(old(state[k]), c.ark[r][k]) else old(state[k])
    {
      state[i] := c.Add(state[i], c.ark[r][i]);
    }
    ghost var added := AddConstants(c, old(state[..]), r);
    assert state[..] == added;
    if IsFullRound(r) {
      for i := 0 to T
        invariant forall k | 0 <= k < T :: state[k] == if k < i then Sbox(c, added[k]) else added[k]
      {
        state[i] := Sbox(c, state[i]);
      }
    } else {
      state[0] := Sbox(c, state[0]);
    }
    ghost var boxed := SboxLayer(c, added, r);
    assert state[..] == boxed;
    var next := new nat[T](_ => 0);
    for i := 0 to T
      invariant state[..] == boxed
      invariant forall k | 0 <= k < i :: next[k] == Lane(c, boxed, k)
    {
      var lane := c.Add(0, c.Mul(c.mds[i][0], state[0]));
      lane := c.Add(lane, c.Mul(c.mds[i][1], state[1]));
      lane := c.Add(lane, c.Mul(c.mds[i][2], state[2]));
      next[i] := lane;
    }
    for i := 0 to T
      invariant forall k | 0 <= k < T :: next[k] == Lane(c, boxed, k)
      invariant forall k | 0 <= k < i :: state[k] == next[k]
    {
      state[i] := next[i];
    }
    assert state[..] == MixLayer(c, boxed);
  }

  method Hash(c: Params, x: nat) returns (h: nat)
    requires c.Ok()
    ensures h == Hash1(c, x)
  {
    var state := new nat[T];
    state[0], state[1], state[2] := x, DOMAIN, 0;
    assert state[..] == [x, DOMAIN, 0];
    Permute(c, state);
    h := state[0];
    assert h == state[..][0];
  }
}
