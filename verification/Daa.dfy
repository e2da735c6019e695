/** The difficulty retarget. A block's difficulty comes from the solve times of a sliding window, the
    newest counting most; the result may move by a factor of four at a time. */
module Daa {
  import opened Common
  import opened Blocks
  import opened Chains
  import opened Arithmetic

  const CEILING: nat := 0x1_0000000000000000_0000000000000000_0000000000000000_0000000000000000
  const HALF_CEILING: nat := 0x1_0000000000000000_0000000000000000

  datatype DaaParams = DaaParams(targetSecs: nat, window: nat, minDifficultyNbits: nat)
  {
    predicate Ok() {
      targetSecs > 0 && window > 0
    }

    function TargetMs(): nat {
      targetSecs * 1_000
    }
  }

  // (timestamp, nbits), oldest first.
  type View = seq<(nat, nat)>

  function Clamp(x: nat, lo: nat, hi: nat): nat {
    if x < lo then lo else if x > hi then hi else x
  }

  // The i-th solve time, clamped to [1 ms, 6 targets]; a backwards timestamp counts as zero.
  function SolveMs(p: DaaParams, view: View, i: nat): nat
    requires 1 <= i < |view|
  {
    var elapsed := if view[i].0 < view[i - 1].0 then 0 else view[i].0 - view[i - 1].0;
    Clamp(elapsed, 1, 6 * p.TargetMs())
  }

  function Difficulty(decode: nat -> nat, view: View, i: nat): (d: nat)
    requires i < |view|
    ensures d >= 1
  {
    Max(decode(view[i].1), 1)
  }

  // Sums over intervals 1..m.
  function WeightedSum(p: DaaParams, view: View, m: nat): nat
    requires m < |view|
  {
    if m == 0 then 0 else WeightedSum(p, view, m - 1) + SolveMs(p, view, m) * m
  }

  function TargetSum(decode: nat -> nat, view: View, m: nat): nat
    requires m < |view|
  {
    if m == 0 then 0 else TargetSum(decode, view, m - 1) + Inverse(Difficulty(decode, view, m))
  }

  // The weighted sum of a window exactly on target.
  function OnTargetSum(p: DaaParams): (k: nat)
    requires p.Ok()
    ensures k > 0
  {
    HalfProduct(p.window);
    (p.window * (p.window + 1) / 2) * p.TargetMs()
  }

  lemma HalfProduct(n: nat)
    requires n > 0
    ensures n * (n + 1) / 2 > 0
  {
    assert n * (n + 1) >= 2;
  }

  // Difficulty to target and back.
  function Inverse(x: nat): nat
    requires x >= 1
  {
    CEILING / x
  }

  function NextTarget(p: DaaParams, avgTarget: nat, weighted: nat): (t: nat)
    requires p.Ok()
    ensures t >= 1
  {
    Max(avgTarget * weighted / OnTargetSum(p), 1)
  }

  // At most x4 and /4 of the previous difficulty per step, and never zero.
  function StepClamp(next: nat, prev: nat): nat
    requires prev >= 1
  {
    Clamp(next, Max(prev / 4, 1), prev * 4)
  }

  // The retarget over a full window of window + 1 headers.
  function WindowDifficulty(p: DaaParams, decode: nat -> nat, view: View): nat
    requires p.Ok() && |view| == p.window + 1
  {
    var n := p.window;
    var target := NextTarget(p, TargetSum(decode, view, n) / n, WeightedSum(p, view, n));
    StepClamp(Inverse(target), Difficulty(decode, view, n))
  }

  function NextBits(p: DaaParams, decode: nat -> nat, encode: nat -> nat, chain: View): nat
    requires p.Ok()
  {
    if |chain| < p.window + 1 then p.minDifficultyNbits
    else encode(WindowDifficulty(p, decode, chain[|chain| - (p.window + 1)..]))
  }

  /** The retarget loop. */
  method NextNbits(p: DaaParams, decode: nat -> nat, encode: nat -> nat, chain: View) returns (nbits: nat)
    requires p.Ok()
    ensures nbits == NextBits(p, decode, encode, chain)
  {
    var n := p.window;
    if |chain| < n + 1 {
      return p.minDifficultyNbits;
    }
    var view := chain[|chain| - (n + 1)..];
    var targetMs := p.TargetMs();
    var maxSolveMs := 6 * targetMs;
    var weighted, targetSum := 0, 0;
    for i := 1 to n + 1
      invariant weighted == WeightedSum(p, view, i - 1)
      invariant targetSum == TargetSum(decode, view, i - 1)
    {
      var elapsed := if view[i].0 < view[i - 1].0 then 0 else view[i].0 - view[i - 1].0;
      var solveMs := Clamp(elapsed, 1, maxSolveMs);
      weighted := weighted + solveMs * i;
      var difficulty := Max(decode(view[i].1), 1);
      targetSum := targetSum + Inverse(difficulty);
    }
    var avgTarget := targetSum / n;
    HalfProduct(n);
    var k := (n * (n + 1) / 2) * targetMs;
    var nextTarget := Max(avgTarget * weighted / k, 1);
    var nextDifficulty := Inverse(nextTarget);
    var prev := Max(decode(view[n].1), 1);
    var hi, lo := prev * 4, Max(prev / 4, 1);
    if nextDifficulty > hi {
      nextDifficulty := hi;
    } else if nextDifficulty < lo {
      nextDifficulty := lo;
    }
    return encode(nextDifficulty);
  }

  /* ---------- bounds ---------- */

  /** Every retarget is at most four times the previous difficulty, at least a quarter of it, and
      never zero, whatever the timestamps and difficulties of the window. */
  lemma RetargetIsBounded(p: DaaParams, decode: nat -> nat, view: View)
    requires p.Ok() && |view| == p.window + 1
    ensures var prev := Difficulty(decode, view, p.window);
      Max(prev / 4, 1) <= WindowDifficulty(p, decode, view) <= prev * 4
  {
  }

  /** On an accepted chain whose retarget is this one, the bits of a block encode a difficulty that is
      at most four times its parent's and at least a quarter of it. */
  lemma AcceptedDifficultyIsBounded(r: Rules, p: DaaParams, decode: nat -> nat, encode: nat -> nat,
                                    blocks: seq<Block>, b: Block)
    requires p.Ok() && blocks != [] && Accepts(r, blocks, b)
    requires r.retarget(DaaView(blocks)) == NextBits(p, decode, encode, DaaView(blocks))
    ensures |blocks| <= p.window ==> b.header.scNbits == p.minDifficultyNbits
    ensures |blocks| > p.window ==>
      exists d: nat :: b.header.scNbits == encode(d)
        && var prev := Max(decode(Last(blocks).header.scNbits), 1); Max(prev / 4, 1) <= d <= prev * 4
  {
    hide BodyVerdict, MedianTimePast, WindowDifficulty;
    if |blocks| > p.window {
      var view := DaaView(blocks)[|blocks| - (p.window + 1)..];
      RetargetIsBounded(p, decode, view);
      assert view[p.window] == DaaView(blocks)[|blocks| - 1];
    }
  }

  // Up to `top`, compact bits round down and lose at most one part in `loss`.
  ghost predicate Truncates(decode: nat -> nat, encode: nat -> nat, top: nat, loss: nat)
    requires loss > 0
  {
    forall d: nat {:trigger encode(d)} | d <= top :: decode(encode(d)) <= d <= decode(encode(d)) + d / loss
  }

  // What is kept after rounding grows with the value.
  lemma KeptIsMonotone(lo: nat, d: nat, loss: nat)
    requires loss > 0 && lo <= d
    ensures lo - lo / loss <= d - d / loss
    decreases d
  {
    if lo < d {
      KeptIsMonotone(lo, d - 1, loss);
      assert d / loss <= (d - 1) / loss + 1 by {
        QuotientStep(d, loss);
      }
    }
  }

  lemma QuotientStep(d: nat, loss: nat)
    requires loss > 0 && d > 0
    ensures d / loss <= (d - 1) / loss + 1
  {
    var q := d / loss;
    assert d == loss * q + d % loss;
    if q > 0 {
      QuotientAtLeast(d - 1, loss, q - 1);
    }
  }

  /** The same for the difficulty that the bits decode to: rounding costs at most its share of the
      lower bound and cannot exceed the upper one. */
  lemma DecodedDifficultyIsBounded(r: Rules, p: DaaParams, decode: nat -> nat, encode: nat -> nat, loss: nat,
                                   blocks: seq<Block>, b: Block)
    requires p.Ok() && |blocks| > p.window && Accepts(r, blocks, b)
    requires r.retarget(DaaView(blocks)) == NextBits(p, decode, encode, DaaView(blocks))
    requires loss > 0 && Truncates(decode, encode, Max(decode(Last(blocks).header.scNbits), 1) * 4, loss)
    ensures var prev := Max(decode(Last(blocks).header.scNbits), 1);
      var lo := Max(prev / 4, 1);
      lo - lo / loss <= decode(b.header.scNbits) <= prev * 4
  {
    hide Accepts, NextBits;
    AcceptedDifficultyIsBounded(r, p, decode, encode, blocks, b);
    var prev := Max(decode(Last(blocks).header.scNbits), 1);
    var d: nat :| b.header.scNbits == encode(d) && Max(prev / 4, 1) <= d <= prev * 4;
    KeptIsMonotone(Max(prev / 4, 1), d, loss);
  }

  /* ---------- the fixed point ---------- */

  // Every timestamp is the previous one plus the target.
  ghost predicate OnTarget(p: DaaParams, view: View) {
    forall i | 1 <= i < |view| :: view[i].0 == view[i - 1].0 + 1_000 * p.targetSecs
  }

  // All bits decode to d, or to zero where d is one.
  ghost predicate Constant(decode: nat -> nat, view: View, d: nat) {
    forall i | 0 <= i < |view| :: decode(view[i].1) == d || (d == 1 && decode(view[i].1) == 0)
  }

  lemma {:induction false} OnTargetWeights(p: DaaParams, view: View, m: nat)
    requires p.Ok() && OnTarget(p, view) && m < |view|
    ensures WeightedSum(p, view, m) == (m * (m + 1) / 2) * p.TargetMs()
  {
    if m > 0 {
      OnTargetWeights(p, view, m - 1);
      assert (m - 1) * m / 2 + m == m * (m + 1) / 2;
      assert SolveMs(p, view, m) == p.TargetMs();
      Distribute(p.TargetMs(), (m - 1) * m / 2, m);
    }
  }

  lemma Distribute(t: nat, a: nat, b: nat)
    ensures a * t + t * b == (a + b) * t
  {
  }

  lemma {:induction false} ConstantTargets(decode: nat -> nat, view: View, d: nat, m: nat)
    requires Constant(decode, view, d) && d >= 1 && m < |view|
    ensures TargetSum(decode, view, m) == Inverse(d) * m
  {
    if m > 0 {
      ConstantTargets(decode, view, d, m - 1);
      assert Difficulty(decode, view, m) == d;
    }
  }

  // Inverting twice gives back d exactly when the remainder fits under the target.
  lemma DoubleInverse(d: nat)
    requires 1 <= d <= CEILING
    ensures Inverse(d) >= 1 && Inverse(Inverse(d)) >= d
    ensures Inverse(Inverse(d)) == d <==> CEILING % d < CEILING / d
  {
    QuotientAtLeast(CEILING, d, 1);
    assert CEILING == d * (CEILING / d) + CEILING % d;
    QuotientOf(CEILING, CEILING / d, d, CEILING % d);
  }

  lemma SmallDifficulty(d: nat)
    requires 1 <= d <= HALF_CEILING
    ensures CEILING % d < CEILING / d
  {
    assert CEILING == HALF_CEILING * HALF_CEILING;
    MulMonotone(d, HALF_CEILING, HALF_CEILING);
    QuotientAtLeast(CEILING, d, HALF_CEILING);
  }

  // On target the weights cancel.
  lemma SteadyTarget(p: DaaParams, decode: nat -> nat, view: View, d: nat)
    requires p.Ok() && |view| == p.window + 1 && d >= 1
    requires OnTarget(p, view) && Constant(decode, view, d)
    ensures NextTarget(p, TargetSum(decode, view, p.window) / p.window, WeightedSum(p, view, p.window)) ==
            Max(Inverse(d), 1)
  {
    hide Inverse;
    OnTargetWeights(p, view, p.window);
    ConstantTargets(decode, view, d, p.window);
    DivMul(Inverse(d), p.window);
    DivMul(Inverse(d), OnTargetSum(p));
  }

  /** A window with every solve time on target and constant difficulty D keeps D exactly when the
      remainder of the ceiling modulo D is below the quotient; every D up to 2^128 does. */
  lemma SteadyStateIsFixed(p: DaaParams, decode: nat -> nat, view: View, d: nat)
    requires p.Ok() && |view| == p.window + 1 && d >= 1
    requires OnTarget(p, view) && Constant(decode, view, d)
    ensures WindowDifficulty(p, decode, view) == d <==> CEILING % d < CEILING / d
    ensures d <= HALF_CEILING ==> WindowDifficulty(p, decode, view) == d
  {
    hide NextTarget, WeightedSum, TargetSum;
    SteadyTarget(p, decode, view, d);
    assert Difficulty(decode, view, p.window) == d;
    if d <= CEILING {
      DoubleInverse(d);
    } else {
      assert Inverse(d) == 0 && CEILING % d == CEILING && Inverse(1) == CEILING;
    }
    if d <= HALF_CEILING {
      SmallDifficulty(d);
    }
  }

  /* ---------- monotonicity ---------- */

  lemma {:induction false} WeightsMonotone(p: DaaParams, slow: View, fast: View, m: nat)
    requires |slow| == |fast| && m < |slow|
    requires forall i | 1 <= i < |slow| :: SolveMs(p, fast, i) <= SolveMs(p, slow, i)
    ensures WeightedSum(p, fast, m) <= WeightedSum(p, slow, m)
  {
    if m > 0 {
      WeightsMonotone(p, slow, fast, m - 1);
      MulMonotone(SolveMs(p, fast, m), SolveMs(p, slow, m), m);
    }
  }

  lemma {:induction false} SameTargets(decode: nat -> nat, a: View, b: View, m: nat)
    requires |a| == |b| && m < |a| && forall i | 0 <= i < |a| :: a[i].1 == b[i].1
    ensures TargetSum(decode, a, m) == TargetSum(decode, b, m)
  {
    if m > 0 {
      SameTargets(decode, a, b, m - 1);
    }
  }

  lemma TargetMonotone(p: DaaParams, avg: nat, w: nat, w': nat)
    requires p.Ok() && w <= w'
    ensures NextTarget(p, avg, w) <= NextTarget(p, avg, w')
  {
    LargerFactor(avg, w, w');
    QuotientMonotone(avg * w, avg * w', OnTargetSum(p));
  }

  // The i-th step of the timestamps is no smaller than another one, as far as steps count: up to 1 ms
  // all are alike, and so are all from six targets on.
  ghost predicate NoFaster(p: DaaParams, slow: View, fast: View, i: nat)
    requires 1 <= i < |slow| && i < |fast|
  {
    || fast[i].0 + slow[i - 1].0 <= slow[i].0 + fast[i - 1].0
    || fast[i].0 <= fast[i - 1].0 + 1
    || slow[i].0 >= slow[i - 1].0 + 6_000 * p.targetSecs
  }

  lemma NoFasterSolve(p: DaaParams, slow: View, fast: View, i: nat)
    requires p.Ok() && 1 <= i < |slow| && i < |fast| && NoFaster(p, slow, fast, i)
    ensures SolveMs(p, fast, i) <= SolveMs(p, slow, i)
  {
  }

  /** With the same difficulties, slower blocks never raise the retarget: when no step of the timestamps,
      forwards or backwards, gets smaller as far as it counts, the next difficulty does not rise. */
  lemma SlowerNeverHarder(p: DaaParams, decode: nat -> nat, slow: View, fast: View)
    requires p.Ok() && |slow| == |fast| == p.window + 1
    requires forall i | 0 <= i < |slow| :: slow[i].1 == fast[i].1
    requires forall i: nat | 1 <= i < |slow| :: NoFaster(p, slow, fast, i)
    ensures WindowDifficulty(p, decode, slow) <= WindowDifficulty(p, decode, fast)
  {
    hide NextTarget, WeightedSum, TargetSum, SolveMs;
    forall i: nat | 1 <= i < |slow| ensures SolveMs(p, fast, i) <= SolveMs(p, slow, i) {
      NoFasterSolve(p, slow, fast, i);
    }
    var n := p.window;
    WeightsMonotone(p, slow, fast, n);
    SameTargets(decode, slow, fast, n);
    var avg := TargetSum(decode, slow, n) / n;
    TargetMonotone(p, avg, WeightedSum(p, fast, n), WeightedSum(p, slow, n));
    QuotientAntitone(CEILING, NextTarget(p, avg, WeightedSum(p, fast, n)), NextTarget(p, avg, WeightedSum(p, slow, n)));
  }

  /** A step of zero or backwards counts like one of 1 ms, and one above six targets like six targets:
      windows that differ in nothing else retarget alike. */
  lemma StepsAreClamped(p: DaaParams, decode: nat -> nat, a: View, b: View)
    requires p.Ok() && |a| == |b| == p.window + 1
    requires forall i | 0 <= i < |a| :: a[i].1 == b[i].1
    requires forall i: nat | 1 <= i < |a| ::
               || a[i].0 + b[i - 1].0 == b[i].0 + a[i - 1].0
               || (a[i].0 <= a[i - 1].0 + 1 && b[i].0 <= b[i - 1].0 + 1)
               || (a[i].0 >= a[i - 1].0 + 6_000 * p.targetSecs && b[i].0 >= b[i - 1].0 + 6_000 * p.targetSecs)
    ensures WindowDifficulty(p, decode, a) == WindowDifficulty(p, decode, b)
  {
    SlowerNeverHarder(p, decode, a, b);
    SlowerNeverHarder(p, decode, b, a);
  }

  /* ---------- the retarget in one formula ---------- */

  // What the step from one timestamp to the next counts, for a target in milliseconds.
  ghost predicate Counts(targetMs: nat, before: nat, after: nat, ms: nat) {
    && (after <= before + 1 ==> ms == 1)
    && (before + 1 <= after <= before + 6 * targetMs ==> before + ms == after)
    && (after >= before + 6 * targetMs ==> ms == 6 * targetMs)
  }

  // The share of 2^256 that a difficulty leaves, the difficulty zero counting as one.
  ghost predicate IsTarget(difficulty: nat, target: nat) {
    var d := if difficulty == 0 then 1 else difficulty;
    var top := 0x1_0000000000000000_0000000000000000_0000000000000000_0000000000000000;
    d * target <= top < d * (target + 1)
  }

  function Total(xs: seq<nat>): nat {
    if xs == [] then 0 else Total(xs[..|xs| - 1]) + xs[|xs| - 1]
  }

  // The last entry counts as often as there are entries, the first once.
  function Ramped(xs: seq<nat>): nat {
    if xs == [] then 0 else Ramped(xs[..|xs| - 1]) + |xs| * xs[|xs| - 1]
  }

  // The times and targets of the newest blocks, as many as the window is long.
  ghost predicate Read(p: DaaParams, decode: nat -> nat, chain: View, times: seq<nat>, targets: seq<nat>) {
    && |times| == |targets| == p.window < |chain|
    && var first := |chain| - 1 - p.window;
       && (forall i | 0 <= i < p.window ::
             Counts(1_000 * p.targetSecs, chain[first + i].0, chain[first + i + 1].0, times[i]))
       && (forall i | 0 <= i < p.window :: IsTarget(decode(chain[first + i + 1].1), targets[i]))
  }

  lemma {:induction false} TimesAdd(p: DaaParams, decode: nat -> nat, view: View, times: seq<nat>,
                                    targets: seq<nat>, m: nat)
    requires p.Ok() && |view| == p.window + 1 && m <= p.window && Read(p, decode, view, times, targets)
    ensures WeightedSum(p, view, m) == Ramped(times[..m]) && TargetSum(decode, view, m) == Total(targets[..m])
  {
    hide SolveMs, Difficulty, Inverse;
    if m > 0 {
      TimesAdd(p, decode, view, times, targets, m - 1);
      assert times[..m][..m - 1] == times[..m - 1] && targets[..m][..m - 1] == targets[..m - 1];
      TimeIsSolve(p, view, m, times[m - 1]);
      TargetIsInverse(decode, view, m, targets[m - 1]);
      Commute(times[m - 1], m);
    }
  }

  lemma Commute(a: nat, b: nat)
    ensures a * b == b * a
  {
  }

  lemma TimeIsSolve(p: DaaParams, view: View, i: nat, ms: nat)
    requires p.Ok() && 1 <= i < |view| && Counts(1_000 * p.targetSecs, view[i - 1].0, view[i].0, ms)
    ensures SolveMs(p, view, i) == ms
  {
  }

  lemma TargetIsInverse(decode: nat -> nat, view: View, i: nat, target: nat)
    requires i < |view| && IsTarget(decode(view[i].1), target)
    ensures Inverse(Difficulty(decode, view, i)) == target
  {
    var d := Difficulty(decode, view, i);
    Commute(d, target);
    assert d * (target + 1) == d * target + d;
    QuotientOf(CEILING, d, target, CEILING - target * d);
  }

  /** The next bits from timestamps and decoded difficulties: the targets of the window are averaged and weighed
      by its ramped solve times against those of a window on target; turned back into a difficulty, the result
      may move by a factor of four and not below one. */
  lemma RetargetFormula(p: DaaParams, decode: nat -> nat, encode: nat -> nat, chain: View, times: seq<nat>,
                        targets: seq<nat>, prev: nat, target: nat, next: nat)
    requires p.Ok() && Read(p, decode, chain, times, targets)
    requires prev == if decode(chain[|chain| - 1].1) == 0 then 1 else decode(chain[|chain| - 1].1)
    requires target == Total(targets) / p.window * Ramped(times)
                       / ((p.window * (p.window + 1) / 2) * (1_000 * p.targetSecs))
    requires IsTarget(target, next)
    ensures NextBits(p, decode, encode, chain) ==
            encode(if next > 4 * prev then 4 * prev
                   else if next < prev / 4 then prev / 4
                   else if next == 0 then 1
                   else next)
  {
    hide NextTarget, IsTarget, Total, Ramped, StepClamp, NextBits, Read;
    var avg, ramped := Total(targets) / p.window, Ramped(times);
    TargetUnfolds(p, avg, ramped, target);
    ZeroIsOne(target, next);
    ClampUnfolds(next, prev);
    WindowRetargets(p, decode, encode, chain, times, targets, avg, prev, Max(target, 1), next);
  }

  lemma ZeroIsOne(target: nat, next: nat)
    ensures IsTarget(Max(target, 1), next) <==> IsTarget(target, next)
  {
  }

  // The same with the arithmetic left alone.
  lemma WindowRetargets(p: DaaParams, decode: nat -> nat, encode: nat -> nat, chain: View, times: seq<nat>,
                        targets: seq<nat>, avg: nat, prev: nat, target: nat, next: nat)
    requires p.Ok() && Read(p, decode, chain, times, targets)
    requires avg == Total(targets) / p.window && prev == Max(decode(chain[|chain| - 1].1), 1)
    requires target == NextTarget(p, avg, Ramped(times)) && IsTarget(target, next)
    ensures NextBits(p, decode, encode, chain) == encode(StepClamp(next, prev))
  {
    hide TargetSum, WeightedSum, Total, Ramped, NextTarget, Inverse, StepClamp, IsTarget;
    var view := chain[|chain| - (p.window + 1)..];
    assert Read(p, decode, view, times, targets);
    TimesAdd(p, decode, view, times, targets, p.window);
    assert times[..p.window] == times && targets[..p.window] == targets;
    TargetIsInverse(x => x, [(0, target)], 0, next);
  }

  lemma ClampUnfolds(next: nat, prev: nat)
    requires prev >= 1
    ensures StepClamp(next, prev) ==
            if next > 4 * prev then 4 * prev
            else if next < prev / 4 then prev / 4
            else if next == 0 then 1
            else next
  {
  }

  lemma TargetUnfolds(p: DaaParams, avg: nat, ramped: nat, target: nat)
    requires p.Ok() && target == avg * ramped / ((p.window * (p.window + 1) / 2) * (1_000 * p.targetSecs))
    ensures NextTarget(p, avg, ramped) == Max(target, 1)
  {
  }
}
