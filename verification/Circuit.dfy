/** The in-circuit Poseidon: a constraint system of multiplication gates over linear
    combinations, and the gadget that emits the permutation into it. */
module Circuit {
  import opened Poseidon

  datatype Variable = One | Input(index: nat) | LeftOf(gate: nat) | RightOf(gate: nat) | OutputOf(gate: nat)

  datatype Term = Term(variable: Variable, coeff: nat)

  // A linear combination: the sum of its terms.
  type LC = seq<Term>

  // The gate with index i ties its wires to the two combinations and their product.
  datatype Gate = Gate(left: LC, right: LC)

  datatype Wire = Wire(left: nat, right: nat, output: nat)

  datatype Assignment = Assignment(inputs: seq<nat>, wires: seq<Wire>)

  function FromVariable(v: Variable): LC {
    [Term(v, 1)]
  }

  function ConstantLC(k: nat): LC {
    [Term(One, k)]
  }

  function Scale(c: Params, l: LC, k: nat): LC
    requires c.Ok()
  {
    seq(|l|, i requires 0 <= i < |l| => Term(l[i].variable, c.Mul(l[i].coeff, k)))
  }

  /* ---------- meaning ---------- */

  function Value(a: Assignment, v: Variable): nat {
    match v
    case One => 1
    case Input(i) => if i < |a.inputs| then a.inputs[i] else 0
    case LeftOf(g) => if g < |a.wires| then a.wires[g].left else 0
    case RightOf(g) => if g < |a.wires| then a.wires[g].right else 0
    case OutputOf(g) => if g < |a.wires| then a.wires[g].output else 0
  }

  function Eval(c: Params, a: Assignment, l: LC): (v: nat)
    requires c.Ok()
    ensures v < c.p
  {
    if l == [] then 0
    else c.Add(Eval(c, a, l[..|l| - 1]), c.Mul(l[|l| - 1].coeff, Value(a, l[|l| - 1].variable)))
  }

  ghost predicate GateHolds(c: Params, gates: seq<Gate>, a: Assignment, i: nat)
    requires c.Ok() && i < |gates| <= |a.wires|
  {
    var w := a.wires[i];
    && w.left == Eval(c, a, gates[i].left)
    && w.right == Eval(c, a, gates[i].right)
    && w.output == c.Mul(w.left, w.right)
  }

  // The assignment meets every constraint of the system.
  ghost predicate Satisfies(c: Params, gates: seq<Gate>, a: Assignment)
    requires c.Ok()
  {
    && |gates| <= |a.wires|
    && (forall i | 0 <= i < |a.inputs| :: a.inputs[i] < c.p)
    && forall i: nat {:trigger GateHolds(c, gates, a, i)} | i < |gates| :: GateHolds(c, gates, a, i)
  }

  lemma SatisfiesPrefix(c: Params, gates: seq<Gate>, gates': seq<Gate>, a: Assignment)
    requires c.Ok() && gates <= gates' && Satisfies(c, gates', a)
    ensures Satisfies(c, gates, a)
  {
    forall i: nat | i < |gates| ensures GateHolds(c, gates, a, i) {
      assert GateHolds(c, gates', a, i);
    }
  }

  lemma EvalSingle(c: Params, a: Assignment, v: Variable, k: nat)
    requires c.Ok()
    ensures Eval(c, a, [Term(v, k)]) == c.Mul(k, Value(a, v))
  {
    var l := [Term(v, k)];
    assert l[..|l| - 1] == [];
    Units(c, c.Mul(k, Value(a, v)));
  }

  lemma EvalConstant(c: Params, a: Assignment, k: nat)
    requires c.Ok() && k < c.p
    ensures Eval(c, a, ConstantLC(k)) == k
  {
    EvalSingle(c, a, One, k);
    Units(c, k);
  }

  lemma {:induction false} EvalSum(c: Params, a: Assignment, l: LC, m: LC)
    requires c.Ok()
    ensures Eval(c, a, l + m) == c.Add(Eval(c, a, l), Eval(c, a, m))
  {
    if m == [] {
      assert l + m == l;
      Units(c, Eval(c, a, l));
    } else {
      var rest, t := m[..|m| - 1], m[|m| - 1];
      assert (l + m)[..|l + m| - 1] == l + rest;
      EvalSum(c, a, l, rest);
      AddAssoc(c, Eval(c, a, l), Eval(c, a, rest), c.Mul(t.coeff, Value(a, t.variable)));
    }
  }

  lemma {:induction false} EvalScale(c: Params, a: Assignment, l: LC, k: nat)
    requires c.Ok() && k < c.p
    ensures Eval(c, a, Scale(c, l, k)) == c.Mul(k, Eval(c, a, l))
  {
    if l == [] {
      Units(c, k);
    } else {
      var rest, t := l[..|l| - 1], l[|l| - 1];
      var v := Value(a, t.variable);
      assert Scale(c, l, k)[..|l| - 1] == Scale(c, rest, k);
      EvalScale(c, a, rest, k);
      ScaledTerm(c, t.coeff, k, v);
      Distribute(c, k, Eval(c, a, rest), c.Mul(t.coeff, v));
    }
  }

  lemma ScaledTerm(c: Params, coeff: nat, k: nat, v: nat)
    requires c.p > 0
    ensures c.Mul(c.Mul(coeff, k), v) == c.Mul(k, c.Mul(coeff, v))
  {
    MulCommutes(c, coeff, k);
    MulAssoc(c, k, coeff, v);
  }

  /* ---------- honest assignments ---------- */

  predicate InScope(l: LC, n: nat) {
    forall t | t in l :: match t.variable
      case LeftOf(g) => g < n
      case RightOf(g) => g < n
      case OutputOf(g) => g < n
      case _ => true
  }

  // Every gate refers to inputs and earlier gates only.
  ghost predicate Acyclic(gates: seq<Gate>) {
    forall i | 0 <= i < |gates| :: InScope(gates[i].left, i) && InScope(gates[i].right, i)
  }

  // Compute the wires gate by gate from the inputs.
  function Solve(c: Params, inputs: seq<nat>, gates: seq<Gate>): (wires: seq<Wire>)
    requires c.Ok()
    ensures |wires| == |gates|
  {
    if gates == [] then [] else
      var a := Assignment(inputs, Solve(c, inputs, gates[..|gates| - 1]));
      var g := gates[|gates| - 1];
      var l, r := Eval(c, a, g.left), Eval(c, a, g.right);
      a.wires + [Wire(l, r, c.Mul(l, r))]
  }

  lemma {:induction false} EvalInScope(c: Params, a: Assignment, b: Assignment, l: LC, n: nat)
    requires c.Ok() && InScope(l, n) && n <= |a.wires| && n <= |b.wires|
    requires a.inputs == b.inputs && a.wires[..n] == b.wires[..n]
    ensures Eval(c, a, l) == Eval(c, b, l)
  {
    if l != [] {
      var rest, t := l[..|l| - 1], l[|l| - 1];
      EvalInScope(c, a, b, rest, n);
      assert forall g | 0 <= g < n :: a.wires[g] == a.wires[..n][g] == b.wires[..n][g] == b.wires[g];
      assert t in l;
    }
  }

  lemma {:induction false} SolvePrefix(c: Params, inputs: seq<nat>, gates: seq<Gate>, n: nat)
    requires c.Ok() && n <= |gates|
    ensures Solve(c, inputs, gates)[..n] == Solve(c, inputs, gates[..n])
    decreases |gates|
  {
    if n == |gates| {
      assert gates[..n] == gates;
      assert Solve(c, inputs, gates)[..n] == Solve(c, inputs, gates);
    } else {
      var rest := gates[..|gates| - 1];
      SolvePrefix(c, inputs, rest, n);
      assert rest[..n] == gates[..n];
      assert Solve(c, inputs, gates)[..n] == Solve(c, inputs, rest)[..n];
    }
  }

  /** An honest assignment always exists: solving the gates in order satisfies all of them. */
  lemma SolveSatisfies(c: Params, inputs: seq<nat>, gates: seq<Gate>)
    requires c.Ok() && Acyclic(gates) && forall i | 0 <= i < |inputs| :: inputs[i] < c.p
    ensures Satisfies(c, gates, Assignment(inputs, Solve(c, inputs, gates)))
  {
    hide Eval;
    var a := Assignment(inputs, Solve(c, inputs, gates));
    forall i: nat | i < |gates| ensures GateHolds(c, gates, a, i) {
      SolvePrefix(c, inputs, gates, i + 1);
      SolvePrefix(c, inputs, gates[..i + 1], i);
      assert gates[..i + 1][..i] == gates[..i];
      var before := Assignment(inputs, Solve(c, inputs, gates[..i]));
      assert a.wires[i] == a.wires[..i + 1][i];
      assert a.wires[..i] == a.wires[..i + 1][..i] == before.wires;
      EvalInScope(c, a, before, gates[i].left, i);
      EvalInScope(c, a, before, gates[i].right, i);
    }
  }

  /** No free component: the inputs determine every wire of a satisfying assignment. */
  lemma {:induction false} SatisfyingIsSolved(c: Params, gates: seq<Gate>, a: Assignment)
    requires c.Ok() && Acyclic(gates) && Satisfies(c, gates, a)
    ensures a.wires[..|gates|] == Solve(c, a.inputs, gates)
  {
    if gates != [] {
      var n := |gates| - 1;
      var rest := gates[..n];
      SatisfiesPrefix(c, rest, gates, a);
      SatisfyingIsSolved(c, rest, a);
      var before := Assignment(a.inputs, Solve(c, a.inputs, rest));
      assert GateHolds(c, gates, a, n);
      EvalInScope(c, a, before, gates[n].left, n);
      EvalInScope(c, a, before, gates[n].right, n);
      assert a.wires[..|gates|] == a.wires[..n] + [a.wires[n]];
    }
  }

  /* ---------- the gadget ---------- */

  class ConstraintSystem {
    var gates: seq<Gate>

    constructor ()
      ensures gates == []
    {
      gates := [];
    }

    // Allocate a multiplication gate.
    method Multiply(l: LC, r: LC) returns (left: Variable, right: Variable, output: Variable)
      modifies this
      ensures gates == old(gates) + [Gate(l, r)]
      ensures left == LeftOf(|old(gates)|) && right == RightOf(|old(gates)|) && output == OutputOf(|old(gates)|)
    {
      left, right, output := LeftOf(|gates|), RightOf(|gates|), OutputOf(|gates|);
      gates := gates + [Gate(l, r)];
    }
  }

  // The output of gate g is the product of its two combinations.
  lemma OutputMeans(c: Params, gates: seq<Gate>, a: Assignment, g: nat)
    requires c.Ok() && Satisfies(c, gates, a) && g < |gates|
    ensures Eval(c, a, FromVariable(OutputOf(g))) == c.Mul(Eval(c, a, gates[g].left), Eval(c, a, gates[g].right))
  {
    assert GateHolds(c, gates, a, g);
    EvalSingle(c, a, OutputOf(g), 1);
    Units(c, a.wires[g].output);
  }

  ghost function EvalState(c: Params, a: Assignment, state: seq<LC>): Poseidon.State
    requires c.Ok() && |state| == T
  {
    [Eval(c, a, state[0]), Eval(c, a, state[1]), Eval(c, a, state[2])]
  }

  // What a piece of the gadget computes, on every satisfying assignment.
  datatype Meaning = IsSbox(input: LC) | IsLane(state: seq<LC>, i: nat) | IsCopy(source: LC)

  ghost predicate Computes(c: Params, gates: seq<Gate>, m: Meaning, output: LC)
    requires c.Ok()
  {
    forall a {:trigger Satisfies(c, gates, a)} | Satisfies(c, gates, a) ::
      Eval(c, a, output) ==
      match m
      case IsSbox(l) => Sbox(c, Eval(c, a, l))
      case IsLane(state, i) => if |state| == T && i < T then Lane(c, EvalState(c, a, state), i) else 0
      case IsCopy(l) => Eval(c, a, l)
  }

  lemma ComputesGrows(c: Params, gates: seq<Gate>, gates': seq<Gate>, m: Meaning, output: LC)
    requires c.Ok() && gates <= gates' && Computes(c, gates, m, output)
    ensures Computes(c, gates', m, output)
  {
    forall a | Satisfies(c, gates', a) ensures Satisfies(c, gates, a) {
      SatisfiesPrefix(c, gates, gates', a);
    }
  }

  // Three gates: square, square again, times the input.
  lemma SboxGates(c: Params, before: seq<Gate>, gates: seq<Gate>, l: LC)
    requires c.Ok()
    requires var n := |before|;
      gates == before + [Gate(l, l)] + [Gate(FromVariable(OutputOf(n)), FromVariable(OutputOf(n)))] +
               [Gate(FromVariable(OutputOf(n + 1)), l)]
    ensures Computes(c, gates, IsSbox(l), FromVariable(OutputOf(|before| + 2)))
    ensures Acyclic(before) && InScope(l, |before|) ==>
              Acyclic(gates) && InScope(FromVariable(OutputOf(|before| + 2)), |gates|)
  {
    var n := |before|;
    forall a | Satisfies(c, gates, a)
      ensures Eval(c, a, FromVariable(OutputOf(n + 2))) == Sbox(c, Eval(c, a, l))
    {
      OutputMeans(c, gates, a, n);
      OutputMeans(c, gates, a, n + 1);
      OutputMeans(c, gates, a, n + 2);
    }
  }

  method SboxGadget(c: Params, cs: ConstraintSystem, l: LC) returns (output: LC)
    requires c.Ok()
    modifies cs
    ensures old(cs.gates) <= cs.gates && |cs.gates| == |old(cs.gates)| + 3
    ensures Computes(c, cs.gates, IsSbox(l), output)
    ensures Acyclic(old(cs.gates)) && InScope(l, |old(cs.gates)|) ==> Acyclic(cs.gates) && InScope(output, |cs.gates|)
  {
    ghost var before := cs.gates;
    var _, _, l2 := cs.Multiply(l, l);
    var _, _, l4 := cs.Multiply(FromVariable(l2), FromVariable(l2));
    var _, _, l5 := cs.Multiply(FromVariable(l4), l);
    output := FromVariable(l5);
    SboxGates(c, before, cs.gates, l);
  }

  // The combination of a mixing lane, before it is collapsed into a fresh variable.
  function LaneLC(c: Params, state: seq<LC>, i: nat): LC
    requires c.Ok() && |state| == T && i < T
  {
    [] + Scale(c, state[0], c.mds[i][0]) + Scale(c, state[1], c.mds[i][1]) + Scale(c, state[2], c.mds[i][2])
  }

  lemma EvalLane(c: Params, a: Assignment, state: seq<LC>, i: nat)
    requires c.Ok() && |state| == T && i < T
    ensures Eval(c, a, LaneLC(c, state, i)) == Lane(c, EvalState(c, a, state), i)
  {
    var m0, m1, m2 := Scale(c, state[0], c.mds[i][0]), Scale(c, state[1], c.mds[i][1]), Scale(c, state[2], c.mds[i][2]);
    EvalScale(c, a, state[0], c.mds[i][0]);
    EvalScale(c, a, state[1], c.mds[i][1]);
    EvalScale(c, a, state[2], c.mds[i][2]);
    EvalSum(c, a, [], m0);
    EvalSum(c, a, [] + m0, m1);
    EvalSum(c, a, [] + m0 + m1, m2);
  }

  lemma LaneGate(c: Params, before: seq<Gate>, state: seq<LC>, i: nat)
    requires c.Ok() && |state| == T && i < T
    ensures var gates := before + [Gate(LaneLC(c, state, i), ConstantLC(1))];
      && Computes(c, gates, IsLane(state, i), FromVariable(OutputOf(|before|)))
      && (Acyclic(before) && (forall k | 0 <= k < T :: InScope(state[k], |before|)) ==>
            Acyclic(gates) && InScope(FromVariable(OutputOf(|before|)), |gates|))
  {
    var n, lane := |before|, LaneLC(c, state, i);
    var gates := before + [Gate(lane, ConstantLC(1))];
    forall a | Satisfies(c, gates, a)
      ensures Eval(c, a, FromVariable(OutputOf(n))) == Lane(c, EvalState(c, a, state), i)
    {
      OutputMeans(c, gates, a, n);
      EvalConstant(c, a, 1);
      EvalLane(c, a, state, i);
      Units(c, Eval(c, a, lane));
    }
    if forall k | 0 <= k < T :: InScope(state[k], n) {
      forall t | t in lane ensures InScope([t], n) {
        LaneTerm(c, state, i, t, n);
      }
      assert forall t | t in lane :: t in [t];
    }
  }

  lemma LaneTerm(c: Params, state: seq<LC>, i: nat, t: Term, n: nat)
    requires c.Ok() && |state| == T && i < T && t in LaneLC(c, state, i)
    requires forall k | 0 <= k < T :: InScope(state[k], n)
    ensures InScope([t], n)
  {
    var k :| 0 <= k < T && t in Scale(c, state[k], c.mds[i][k]);
    var j :| 0 <= j < |state[k]| && Scale(c, state[k], c.mds[i][k])[j] == t;
    assert state[k][j] in state[k];
  }

  ghost predicate AllInScope(state: seq<LC>, n: nat) {
    forall k | 0 <= k < |state| :: InScope(state[k], n)
  }

  // One row of the mixing matrix, named by a variable of its own.
  method LaneGadget(c: Params, cs: ConstraintSystem, state: seq<LC>, i: nat) returns (output: LC)
    requires c.Ok() && |state| == T && i < T
    modifies cs
    ensures old(cs.gates) <= cs.gates && |cs.gates| == |old(cs.gates)| + 1
    ensures Computes(c, cs.gates, IsLane(state, i), output)
    ensures Acyclic(old(cs.gates)) && AllInScope(state, |old(cs.gates)|) ==>
              Acyclic(cs.gates) && InScope(output, |cs.gates|)
  {
    ghost var before := cs.gates;
    var acc: LC := [];
    for j := 0 to T
      invariant acc == if j == 0 then [] else if j == 1 then [] + Scale(c, state[0], c.mds[i][0])
                       else if j == 2 then [] + Scale(c, state[0], c.mds[i][0]) + Scale(c, state[1], c.mds[i][1])
                       else LaneLC(c, state, i)
    {
      acc := acc + Scale(c, state[j], c.mds[i][j]);
    }
    LaneGate(c, before, state, i);
    var _, _, v := cs.Multiply(acc, ConstantLC(1));
    output := FromVariable(v);
  }

  /* ---------- a whole round ---------- */

  function RoundGates(r: nat): nat {
    if IsFullRound(r) then 12 else 6
  }

  function WithConstants(c: Params, state: seq<LC>, r: nat): (s: seq<LC>)
    requires c.Ok() && |state| == T && r < ROUNDS
    ensures |s| == T
  {
    seq(T, i requires 0 <= i < T => state[i] + ConstantLC(c.ark[r][i]))
  }

  lemma EvalWithConstants(c: Params, a: Assignment, state: seq<LC>, r: nat)
    requires c.Ok() && |state| == T && r < ROUNDS
    ensures EvalState(c, a, WithConstants(c, state, r)) == AddConstants(c, EvalState(c, a, state), r)
  {
    forall i | 0 <= i < T
      ensures Eval(c, a, WithConstants(c, state, r)[i]) == c.Add(Eval(c, a, state[i]), c.ark[r][i])
    {
      EvalSum(c, a, state[i], ConstantLC(c.ark[r][i]));
      EvalConstant(c, a, c.ark[r][i]);
    }
  }

  function BoxMeaning(added: seq<LC>, r: nat, k: nat): Meaning
    requires |added| == T && k < T
  {
    if IsFullRound(r) || k == 0 then IsSbox(added[k]) else IsCopy(added[k])
  }

  // The S-box layer: all lanes in a full round, the first one otherwise.
  method SboxLayerGadget(c: Params, cs: ConstraintSystem, added: seq<LC>, r: nat) returns (state: seq<LC>)
    requires c.Ok() && |added| == T && r < ROUNDS
    modifies cs
    ensures |state| == T
    ensures old(cs.gates) <= cs.gates && |cs.gates| == |old(cs.gates)| + (if IsFullRound(r) then 9 else 3)
    ensures forall k | 0 <= k < T :: Computes(c, cs.gates, BoxMeaning(added, r, k), state[k])
    ensures Acyclic(old(cs.gates)) && AllInScope(added, |old(cs.gates)|) ==>
              Acyclic(cs.gates) && AllInScope(state, |cs.gates|)
  {
    state := added;
    ghost var before := cs.gates;
    ghost var scoped := Acyclic(before) && AllInScope(added, |before|);
    var boxes := if IsFullRound(r) then T else 1;
    for i := 0 to boxes
      invariant |state| == T && before <= cs.gates && |cs.gates| == |before| + 3 * i
      invariant forall k | 0 <= k < i :: Computes(c, cs.gates, IsSbox(added[k]), state[k])
      invariant forall k | i <= k < T :: state[k] == added[k]
      invariant scoped ==> Acyclic(cs.gates) && AllInScope(state, |cs.gates|)
    {
      ghost var gates := cs.gates;
      var output := SboxGadget(c, cs, state[i]);
      forall k | 0 <= k < i ensures Computes(c, cs.gates, IsSbox(added[k]), state[k]) {
        ComputesGrows(c, gates, cs.gates, IsSbox(added[k]), state[k]);
      }
      state := state[i := output];
    }
  }

  method MixGadget(c: Params, cs: ConstraintSystem, state: seq<LC>) returns (next: seq<LC>)
    requires c.Ok() && |state| == T
    modifies cs
    ensures |next| == T
    ensures old(cs.gates) <= cs.gates && |cs.gates| == |old(cs.gates)| + 3
    ensures forall k | 0 <= k < T :: Computes(c, cs.gates, IsLane(state, k), next[k])
    ensures Acyclic(old(cs.gates)) && AllInScope(state, |old(cs.gates)|) ==>
              Acyclic(cs.gates) && AllInScope(next, |cs.gates|)
  {
    next := [];
    ghost var before := cs.gates;
    ghost var scoped := Acyclic(before) && AllInScope(state, |before|);
    for i := 0 to T
      invariant |next| == i && before <= cs.gates && |cs.gates| == |before| + i
      invariant forall k | 0 <= k < i :: Computes(c, cs.gates, IsLane(state, k), next[k])
      invariant scoped ==> Acyclic(cs.gates) && AllInScope(next, |cs.gates|) && AllInScope(state, |cs.gates|)
    {
      ghost var gates := cs.gates;
      var output := LaneGadget(c, cs, state, i);
      forall k | 0 <= k < i ensures Computes(c, cs.gates, IsLane(state, k), next[k]) {
        ComputesGrows(c, gates, cs.gates, IsLane(state, k), next[k]);
      }
      next := next + [output];
    }
  }

  ghost predicate RoundMeans(c: Params, gates: seq<Gate>, state: seq<LC>, next: seq<LC>, r: nat)
    requires c.Ok() && |state| == T && |next| == T && r < ROUNDS
  {
    forall a {:trigger Satisfies(c, gates, a)} | Satisfies(c, gates, a) ::
      EvalState(c, a, next) == Round(c, EvalState(c, a, state), r)
  }

  lemma RoundIsRight(c: Params, boxGates: seq<Gate>, gates: seq<Gate>, state: seq<LC>, boxed: seq<LC>, next: seq<LC>,
                     r: nat)
    requires c.Ok() && |state| == T && |boxed| == T && |next| == T && r < ROUNDS && boxGates <= gates
    requires var added := WithConstants(c, state, r);
      forall k | 0 <= k < T :: Computes(c, boxGates, BoxMeaning(added, r, k), boxed[k])
    requires forall k | 0 <= k < T :: Computes(c, gates, IsLane(boxed, k), next[k])
    ensures RoundMeans(c, gates, state, next, r)
  {
    hide Sbox, Lane, Eval, AddConstants, WithConstants, Satisfies;
    var added := WithConstants(c, state, r);
    forall a | Satisfies(c, gates, a)
      ensures EvalState(c, a, next) == Round(c, EvalState(c, a, state), r)
    {
      SatisfiesPrefix(c, boxGates, gates, a);
      EvalWithConstants(c, a, state, r);
      var s := EvalState(c, a, added);
      assert forall k | 0 <= k < T :: Eval(c, a, boxed[k]) == SboxLayer(c, s, r)[k];
      assert EvalState(c, a, boxed) == SboxLayer(c, s, r);
      assert forall k | 0 <= k < T :: Eval(c, a, next[k]) == Lane(c, EvalState(c, a, boxed), k);
      assert EvalState(c, a, next) == MixLayer(c, SboxLayer(c, s, r));
    }
  }

  method RoundGadget(c: Params, cs: ConstraintSystem, state: seq<LC>, r: nat) returns (next: seq<LC>)
    requires c.Ok() && |state| == T && r < ROUNDS
    modifies cs
    ensures |next| == T
    ensures old(cs.gates) <= cs.gates && |cs.gates| == |old(cs.gates)| + RoundGates(r)
    ensures RoundMeans(c, cs.gates, state, next, r)
    ensures Acyclic(old(cs.gates)) && AllInScope(state, |old(cs.gates)|) ==>
              Acyclic(cs.gates) && AllInScope(next, |cs.gates|)
  {
    var added := state;
    for i := 0 to T
      invariant |added| == T
      invariant forall k | 0 <= k < T :: added[k] == if k < i then state[k] + ConstantLC(c.ark[r][k]) else state[k]
    {
      added := added[i := added[i] + ConstantLC(c.ark[r][i])];
    }
    assert added == WithConstants(c, state, r);
    var boxed := SboxLayerGadget(c, cs, added, r);
    ghost var boxGates := cs.gates;
    next := MixGadget(c, cs, boxed);
    RoundIsRight(c, boxGates, cs.gates, state, boxed, next, r);
  }

  /* ---------- the permutation and the hash ---------- */

  function GatesUpTo(r: nat): nat {
    if r == 0 then 0 else GatesUpTo(r - 1) + RoundGates(r - 1)
  }

  lemma {:induction false} GatesClosedForm(r: nat)
    requires r <= ROUNDS
    ensures GatesUpTo(r) == if r <= 4 then 12 * r else if r <= 60 then 48 + 6 * (r - 4) else 384 + 12 * (r - 60)
  {
    if r > 0 {
      GatesClosedForm(r - 1);
    }
  }

  ghost predicate RoundsMean(c: Params, gates: seq<Gate>, state: seq<LC>, next: seq<LC>, r: nat)
    requires c.Ok() && |state| == T && |next| == T && r <= ROUNDS
  {
    forall a {:trigger Satisfies(c, gates, a)} | Satisfies(c, gates, a) ::
      EvalState(c, a, next) == Rounds(c, EvalState(c, a, state), r)
  }

  lemma RoundsMeanStep(c: Params, before: seq<Gate>, gates: seq<Gate>, start: seq<LC>, state: seq<LC>, next: seq<LC>,
                       r: nat)
    requires c.Ok() && |start| == T && |state| == T && |next| == T && r < ROUNDS && before <= gates
    requires RoundsMean(c, before, start, state, r) && RoundMeans(c, gates, state, next, r)
    ensures RoundsMean(c, gates, start, next, r + 1)
  {
    forall a | Satisfies(c, gates, a)
      ensures EvalState(c, a, next) == Rounds(c, EvalState(c, a, start), r + 1)
    {
      SatisfiesPrefix(c, before, gates, a);
    }
  }

  /** The permutation gadget: 432 gates, and on every satisfying assignment the native permutation. */
  method PermuteGadget(c: Params, cs: ConstraintSystem, start: seq<LC>) returns (state: seq<LC>)
    requires c.Ok() && |start| == T
    modifies cs
    ensures |state| == T
    ensures old(cs.gates) <= cs.gates && |cs.gates| == |old(cs.gates)| + 432
    ensures RoundsMean(c, cs.gates, start, state, ROUNDS)
    ensures Acyclic(old(cs.gates)) && AllInScope(start, |old(cs.gates)|) ==>
              Acyclic(cs.gates) && AllInScope(state, |cs.gates|)
  {
    state := start;
    ghost var before := cs.gates;
    ghost var scoped := Acyclic(before) && AllInScope(start, |before|);
    for r := 0 to ROUNDS
      invariant |state| == T && before <= cs.gates && |cs.gates| == |before| + GatesUpTo(r)
      invariant RoundsMean(c, cs.gates, start, state, r)
      invariant scoped ==> Acyclic(cs.gates) && AllInScope(state, |cs.gates|)
    {
      ghost var gates, prev := cs.gates, state;
      state := RoundGadget(c, cs, state, r);
      RoundsMeanStep(c, gates, cs.gates, start, prev, state, r);
    }
    GatesClosedForm(ROUNDS);
  }

  ghost predicate HashMeans(c: Params, gates: seq<Gate>, x: LC, output: LC)
    requires c.Ok()
  {
    forall a {:trigger Satisfies(c, gates, a)} | Satisfies(c, gates, a) :: Eval(c, a, output) == Hash1(c, Eval(c, a, x))
  }

  /** The hash of one combination, as the combination on the output wire. */
  method Hash1Gadget(c: Params, cs: ConstraintSystem, x: LC) returns (output: LC)
    requires c.Ok()
    modifies cs
    ensures old(cs.gates) <= cs.gates && |cs.gates| == |old(cs.gates)| + 432
    ensures HashMeans(c, cs.gates, x, output)
    ensures Acyclic(old(cs.gates)) && InScope(x, |old(cs.gates)|) ==> Acyclic(cs.gates) && InScope(output, |cs.gates|)
  {
    var start := [x, ConstantLC(DOMAIN), ConstantLC(0)];
    var state := PermuteGadget(c, cs, start);
    output := state[0];
    forall a | Satisfies(c, cs.gates, a) ensures Eval(c, a, output) == Hash1(c, Eval(c, a, x)) {
      EvalConstant(c, a, DOMAIN);
      EvalConstant(c, a, 0);
      assert EvalState(c, a, start) == [Eval(c, a, x), DOMAIN, 0];
      assert EvalState(c, a, state)[0] == Eval(c, a, output);
    }
  }

  // Some assignment with these inputs meets the constraints and gives the output this value.
  ghost predicate Provable(c: Params, gates: seq<Gate>, inputs: seq<nat>, output: LC, nf: nat)
    requires c.Ok()
  {
    exists a: Assignment :: a.inputs == inputs && Satisfies(c, gates, a) && Eval(c, a, output) == nf
  }

  /** The gadget binds the nullifier: with given inputs, exactly one output value can be proved,
      and it is the native hash of the committed value. */
  lemma NullifierIsBound(c: Params, gates: seq<Gate>, inputs: seq<nat>, x: LC, output: LC, nf: nat)
    requires c.Ok() && Acyclic(gates) && InScope(x, |gates|) && forall i | 0 <= i < |inputs| :: inputs[i] < c.p
    requires HashMeans(c, gates, x, output)
    ensures Provable(c, gates, inputs, output, nf) <==>
            nf == Hash1(c, Eval(c, Assignment(inputs, Solve(c, inputs, gates)), x))
  {
    var honest := Assignment(inputs, Solve(c, inputs, gates));
    SolveSatisfies(c, inputs, gates);
    forall a: Assignment | a.inputs == inputs && Satisfies(c, gates, a)
      ensures Eval(c, a, x) == Eval(c, honest, x)
    {
      SatisfyingIsSolved(c, gates, a);
      assert honest.wires[..|gates|] == honest.wires;
      EvalInScope(c, a, honest, x, |gates|);
    }
  }

  /** The whole statement from an empty system: for any combination of committed inputs, 432 gates
      that let exactly one nullifier be proved, the native hash of its value. */
  method NullifierCircuit(c: Params, x: LC) returns (cs: ConstraintSystem, output: LC)
    requires c.Ok() && InScope(x, 0)
    ensures fresh(cs) && |cs.gates| == 432
    ensures forall inputs: seq<nat>, nf: nat {:trigger Provable(c, cs.gates, inputs, output, nf)} |
              forall i | 0 <= i < |inputs| :: inputs[i] < c.p ::
              Provable(c, cs.gates, inputs, output, nf) <==> nf == Hash1(c, Eval(c, Assignment(inputs, []), x))
  {
    cs := new ConstraintSystem();
    output := Hash1Gadget(c, cs, x);
    ghost var gates := cs.gates;
    forall inputs: seq<nat>, nf: nat | forall i | 0 <= i < |inputs| :: inputs[i] < c.p
      ensures Provable(c, gates, inputs, output, nf) <==> nf == Hash1(c, Eval(c, Assignment(inputs, []), x))
    {
      NullifierIsBound(c, gates, inputs, x, output, nf);
      EvalInScope(c, Assignment(inputs, Solve(c, inputs, gates)), Assignment(inputs, []), x, 0);
    }
  }

  // For one committed input the combination is that input.
  lemma OneInput(c: Params, inputs: seq<nat>, i: nat)
    requires c.Ok() && i < |inputs| && inputs[i] < c.p
    ensures InScope(FromVariable(Input(i)), 0)
    ensures Eval(c, Assignment(inputs, []), FromVariable(Input(i))) == inputs[i]
  {
    EvalSingle(c, Assignment(inputs, []), Input(i), 1);
    Units(c, inputs[i]);
  }
}
