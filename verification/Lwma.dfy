/** The LWMA retarget of `difficulty_lwma.py` over exact reals, for any increasing logarithm. */
module Lwma {

  /** Target block time, window, step bound, solvetime clamp and difficulty floor. */
  datatype Params = Params(target: real, window: int, maxStep: real, clamp: real, minDiff: real)

  /** The longest solvetime that counts. */
  function Ceiling(p: Params): real {
    p.clamp * p.target
  }

  predicate Sane(p: Params) {
    p.target > 0.0 && p.maxStep >= 0.0 && Ceiling(p) >= 1.0
  }

  function Times(x: real, k: nat): real {
    x * (k as real)
  }

  ghost predicate Logarithm(ln: real -> real) {
    ln(1.0) == 0.0 && forall x, y :: 0.0 < x < y ==> ln(x) < ln(y)
  }

  // ------------------------------------------------------------------ reference

  /** A solvetime held to [1, clamp * target]. */
  function Clamped(p: Params, t: real): (c: real)
    requires Sane(p)
    ensures 1.0 <= c <= Ceiling(p)
  {
    if t < 1.0 then 1.0 else if t > Ceiling(p) then Ceiling(p) else t
  }

  /** `st[-window:]`: the last `window` solvetimes; a window of zero keeps all, a negative one drops from the front. */
  function Recent(p: Params, st: seq<real>): seq<real> {
    if p.window > 0 then (if |st| <= p.window then st else st[|st| - p.window..])
    else if |st| <= -p.window then [] else st[-p.window..]
  }

  /** Weights 1, 2, ..., newest highest. */
  function Weighted(p: Params, st: seq<real>): real
    requires Sane(p)
  {
    if st == [] then 0.0 else Weighted(p, st[..|st| - 1]) + Times(Clamped(p, st[|st| - 1]), |st|)
  }

  function Weights(n: nat): (w: real)
    ensures n > 0 ==> w > 0.0
    ensures w >= 0.0
  {
    if n == 0 then 0.0 else Weights(n - 1) + (n as real)
  }

  function Average(p: Params, st: seq<real>): real
    requires Sane(p) && st != []
  {
    Weighted(p, st) / Weights(|st|)
  }

  function Clip(x: real, bound: real): real {
    if x > bound then bound else if x < -bound then -bound else x
  }

  /** The nudge toward the target for an average solvetime. */
  function Nudge(p: Params, ln: real -> real, average: real): real
    requires average > 0.0 && ln(2.0) != 0.0
  {
    Clip(2.0 * (ln(p.target / average) / ln(2.0)), p.maxStep)
  }

  function Floored(p: Params, d: real): real {
    if d > p.minDiff then d else p.minDiff
  }

  function Next(p: Params, ln: real -> real, st: seq<real>, prev: real): real
    requires Sane(p) && Logarithm(ln)
  {
    var r := Recent(p, st);
    if r == [] then prev else
      AverageBounds(p, r);
      Ln2Positive(ln);
      Floored(p, prev + Nudge(p, ln, Average(p, r)))
  }

  // ------------------------------------------------------------------ arithmetic

  lemma {:induction false} Ln2Positive(ln: real -> real)
    requires Logarithm(ln)
    ensures ln(2.0) > 0.0
  {
  }

  lemma {:induction false} QuotientOrder(a: real, b: real, d: real)
    requires a <= b && d > 0.0
    ensures a / d <= b / d
  {
    assert b / d - a / d == (b - a) / d;
    assert (b - a) / d >= 0.0;
  }

  lemma {:induction false} QuotientFlips(t: real, a: real, b: real)
    requires t > 0.0 && 0.0 < a <= b
    ensures 0.0 < t / b <= t / a
  {
    var x, y := t / a, t / b;
    assert x * a == t && y * b == t;
    ProductOrder(a, b, y);
    assert (x - y) * a >= 0.0;
  }

  lemma {:induction false} ProductOrder(a: real, b: real, k: real)
    requires a <= b && k >= 0.0
    ensures a * k <= b * k
  {
    assert (b - a) * k >= 0.0;
  }

  lemma {:induction false} TimesOrder(x: real, y: real, k: nat)
    requires x <= y
    ensures Times(x, k) <= Times(y, k)
  {
    ProductOrder(x, y, k as real);
  }

  lemma {:induction false} WeightsAre(n: nat)
    ensures Weights(n) * 2.0 == (n as real) * ((n + 1) as real)
  {
    if n > 0 {
      WeightsAre(n - 1);
    }
  }

  lemma {:induction false} WeightedBounds(p: Params, st: seq<real>)
    requires Sane(p)
    ensures Weights(|st|) <= Weighted(p, st)
  {
    if st != [] {
      var n := |st| - 1;
      WeightedBounds(p, st[..n]);
      TimesOrder(1.0, Clamped(p, st[n]), |st|);
    }
  }

  lemma {:induction false} AverageBounds(p: Params, st: seq<real>)
    requires Sane(p) && st != []
    ensures Average(p, st) >= 1.0
  {
    WeightedBounds(p, st);
    var w := Weights(|st|);
    QuotientOrder(w, Weighted(p, st), w);
    Cancel(1.0, w);
  }

  // ------------------------------------------------------------------ the loop

  /** `lwma_next_difficulty` */
  method NextDifficulty(p: Params, ln: real -> real, solvetimes: seq<real>, prev: real) returns (d: real)
    requires Sane(p) && Logarithm(ln)
    ensures d == Next(p, ln, solvetimes, prev)
  {
    var st := Recent(p, solvetimes);
    if st == [] {
      return prev;
    }
    hide Ceiling, Logarithm;
    var hi := Ceiling(p);
    var num, den, i := 0.0, 0.0, 0;
    while i < |st|
      invariant 0 <= i <= |st| && num == Weighted(p, st[..i]) && den == Weights(i)
    {
      var td := st[i];
      if td < 1.0 {
        td := 1.0;
      } else if td > hi {
        td := hi;
      }
      var wi := (i + 1) as real;
      assert st[..i + 1][..i] == st[..i];
      num := num + Times(td, i + 1);
      den := den + wi;
      i := i + 1;
    }
    assert st[..|st|] == st;
    var average := num / den;
    AverageBounds(p, st);
    Ln2Positive(ln);
    var adjustment := 2.0 * (ln(p.target / average) / ln(2.0));
    if adjustment > p.maxStep {
      adjustment := p.maxStep;
    } else if adjustment < -p.maxStep {
      adjustment := -p.maxStep;
    }
    var result := prev + adjustment;
    d := if result > p.minDiff then result else p.minDiff;
  }

  // ------------------------------------------------------------------ properties

  ghost predicate Slower(st: seq<real>, st': seq<real>) {
    |st| == |st'| && forall i :: 0 <= i < |st| ==> st[i] <= st'[i]
  }

  lemma {:induction false} WeightedMonotone(p: Params, st: seq<real>, st': seq<real>)
    requires Sane(p) && Slower(st, st')
    ensures Weighted(p, st) <= Weighted(p, st')
  {
    if st != [] {
      var n := |st| - 1;
      hide Times, Ceiling;
      WeightedMonotone(p, st[..n], st'[..n]);
      TimesOrder(Clamped(p, st[n]), Clamped(p, st'[n]), |st|);
    }
  }

  lemma {:induction false} LnMonotone(ln: real -> real, x: real, y: real)
    requires Logarithm(ln) && 0.0 < x <= y
    ensures ln(x) <= ln(y)
  {
  }

  lemma {:induction false} NudgeMonotone(p: Params, ln: real -> real, a: real, b: real)
    requires Sane(p) && Logarithm(ln) && 0.0 < a <= b && ln(2.0) != 0.0
    ensures Nudge(p, ln, b) <= Nudge(p, ln, a)
  {
    Ln2Positive(ln);
    QuotientFlips(p.target, a, b);
    LnMonotone(ln, p.target / b, p.target / a);
    QuotientOrder(ln(p.target / b), ln(p.target / a), ln(2.0));
  }

  /** Raising any solvetimes never raises the next difficulty. */
  lemma {:induction false} SlowerNeverHarder(p: Params, ln: real -> real, st: seq<real>, st': seq<real>, prev: real)
    requires Sane(p) && Logarithm(ln) && Slower(st, st')
    ensures Next(p, ln, st', prev) <= Next(p, ln, st, prev)
  {
    var r, r' := Recent(p, st), Recent(p, st');
    if r != [] {
      hide Nudge, Logarithm;
      assert Slower(r, r');
      AverageBounds(p, r);
      WeightedMonotone(p, r, r');
      QuotientOrder(Weighted(p, r), Weighted(p, r'), Weights(|r|));
      Ln2Positive(ln);
      NudgeMonotone(p, ln, Average(p, r), Average(p, r'));
    }
  }

  lemma {:induction false} WeightedConstant(p: Params, st: seq<real>, t: real)
    requires Sane(p) && forall i :: 0 <= i < |st| ==> Clamped(p, st[i]) == t
    ensures Weighted(p, st) == t * Weights(|st|)
  {
    if st != [] {
      hide Clamped;
      var n := |st| - 1;
      WeightedConstant(p, st[..n], t);
      assert t * (Weights(n) + (|st| as real)) == t * Weights(n) + t * (|st| as real);
    }
  }

  lemma {:induction false} AverageConstant(p: Params, st: seq<real>, t: real)
    requires Sane(p) && st != [] && 1.0 <= t <= Ceiling(p) && forall i :: 0 <= i < |st| ==> st[i] == t
    ensures Average(p, st) == t
  {
    WeightedConstant(p, st, t);
    hide Weighted, Weights, Clamped;
    Cancel(t, Weights(|st|));
  }

  /** Solvetimes all on target leave the difficulty unchanged, up to the floor. */
  lemma {:induction false} OnTargetFixed(p: Params, ln: real -> real, st: seq<real>, prev: real)
    requires Sane(p) && Logarithm(ln) && p.target >= 1.0 && p.clamp >= 1.0
    requires forall i :: 0 <= i < |st| ==> st[i] == p.target
    ensures Next(p, ln, st, prev) == if Recent(p, st) == [] then prev else Floored(p, prev)
  {
    var r := Recent(p, st);
    if r != [] {
      ProductOrder(1.0, p.clamp, p.target);
      AverageConstant(p, r, p.target);
      hide Average, Ceiling;
      Cancel(1.0, p.target);
      Ln2Positive(ln);
      assert ln(p.target / p.target) == 0.0;
      assert 0.0 / ln(2.0) == 0.0;
    }
  }

  lemma {:induction false} Cancel(t: real, w: real)
    requires w > 0.0
    ensures t * w / w == t
  {
  }

  /** One step moves at most `maxStep`, except where the floor lifts it. */
  lemma {:induction false} StepBounded(p: Params, ln: real -> real, st: seq<real>, prev: real)
    requires Sane(p) && Logarithm(ln)
    ensures Next(p, ln, st, prev) >= prev - p.maxStep
    ensures Next(p, ln, st, prev) <= prev + p.maxStep || Next(p, ln, st, prev) == p.minDiff
  {
    var r := Recent(p, st);
    if r != [] {
      AverageBounds(p, r);
      Ln2Positive(ln);
    }
  }

  /** Changing one solvetime moves the weighted sum by at most its weight times the clamp range. */
  lemma {:induction false} OneChanged(p: Params, st: seq<real>, k: nat, t: real)
    requires Sane(p) && k < |st|
    ensures var w := Times(Ceiling(p) - 1.0, k + 1);
      -w <= Weighted(p, st[k := t]) - Weighted(p, st) <= w
    decreases |st|
  {
    hide Times, Ceiling;
    var n := |st| - 1;
    assert st[k := t][..n] == if k < n then st[..n][k := t] else st[..n];
    if k < n {
      OneChanged(p, st[..n], k, t);
    } else {
      TimesApart(Clamped(p, st[k]), Clamped(p, t), Ceiling(p) - 1.0, k + 1);
    }
  }

  lemma {:induction false} TimesApart(a: real, b: real, range: real, k: nat)
    requires -range <= b - a <= range
    ensures -Times(range, k) <= Times(b, k) - Times(a, k) <= Times(range, k)
  {
    var w := k as real;
    ProductOrder(b - a, range, w);
    ProductOrder(-range, b - a, w);
    assert (b - a) * w == b * w - a * w;
    assert -range * w == -(range * w);
  }

  /** So one solvetime shifts the average by at most 2 (clamp * target - 1) / (n + 1). */
  lemma {:induction false} OneSolvetime(p: Params, st: seq<real>, k: nat, t: real)
    requires Sane(p) && k < |st|
    ensures var bound := 2.0 * (Ceiling(p) - 1.0) / ((|st| + 1) as real);
      -bound <= Average(p, st[k := t]) - Average(p, st) <= bound
  {
    hide Weighted, Weights, Ceiling, Times;
    OneChanged(p, st, k, t);
    TimesGrow(Ceiling(p) - 1.0, k + 1, |st|);
    WeightsAre(|st|);
    ShiftBound(Weighted(p, st[k := t]), Weighted(p, st), |st|, Ceiling(p) - 1.0, Weights(|st|));
  }

  lemma {:induction false} WeightedChanged(p: Params, st: seq<real>, k: nat, t: real)
    requires Sane(p) && k < |st|
    ensures Weighted(p, st[k := t]) - Weighted(p, st) == Times(Clamped(p, t) - Clamped(p, st[k]), k + 1)
    decreases |st|
  {
    hide Clamped;
    var n := |st| - 1;
    assert st[k := t][..n] == if k < n then st[..n][k := t] else st[..n];
    if k < n {
      WeightedChanged(p, st[..n], k, t);
    }
  }

  /** How much one solvetime counts: its place from the oldest, counted from one, out of 1 + 2 + ... + n. */
  lemma {:induction false} SolvetimeWeight(p: Params, st: seq<real>, k: nat, t: real)
    requires Sane(p) && k < |st|
    ensures var n, w := |st| as real, (k + 1) as real;
      Average(p, st[k := t]) - Average(p, st) ==
        (w * (Clamped(p, t) - Clamped(p, st[k]))) / (n * (n + 1.0) / 2.0)
  {
    hide Weighted, Weights, Clamped;
    WeightedChanged(p, st, k, t);
    WeightsAre(|st|);
    QuotientMinus(Weighted(p, st[k := t]), Weighted(p, st), Weights(|st|));
    HalfOf(Weights(|st|), |st| as real);
  }

  lemma {:induction false} HalfOf(w: real, n: real)
    requires w * 2.0 == n * (n + 1.0)
    ensures w == n * (n + 1.0) / 2.0
  {
  }

  lemma {:induction false} TimesGrow(range: real, j: nat, k: nat)
    requires range >= 0.0 && j <= k
    ensures Times(range, j) <= Times(range, k)
  {
    ProductOrder(j as real, k as real, range);
  }

  lemma {:induction false} ShiftBound(x: real, y: real, k: nat, range: real, w: real)
    requires k >= 1 && w > 0.0 && w * 2.0 == (k as real) * ((k + 1) as real)
    requires -Times(range, k) <= x - y <= Times(range, k)
    ensures var bound := 2.0 * range / ((k + 1) as real);
      -bound <= x / w - y / w <= bound
  {
    var n := k as real;
    var bound := 2.0 * range / (n + 1.0);
    HalfProduct(bound, range, n, w);
    Within(x - y, range * n, bound, w);
    QuotientMinus(x, y, w);
  }

  lemma {:induction false} Within(d: real, limit: real, bound: real, w: real)
    requires w > 0.0 && bound * w == limit && -bound * w == -limit && -limit <= d <= limit
    ensures -bound <= d / w <= bound
  {
    QuotientOrder(d, bound * w, w);
    QuotientOrder(-bound * w, d, w);
    Cancel(bound, w);
    Cancel(-bound, w);
  }

  lemma {:induction false} HalfProduct(bound: real, range: real, n: real, w: real)
    requires n >= 1.0 && w * 2.0 == n * (n + 1.0) && bound == 2.0 * range / (n + 1.0)
    ensures bound * w == range * n && -bound * w == -(range * n)
  {
    assert bound * (n + 1.0) == 2.0 * range;
    assert bound * (w * 2.0) == bound * (n + 1.0) * n;
    assert 2.0 * (bound * w) == 2.0 * range * n;
  }

  lemma {:induction false} QuotientMinus(x: real, y: real, w: real)
    requires w > 0.0
    ensures (x - y) / w == x / w - y / w
  {
  }

  // ------------------------------------------------------------------ which way, and how far

  /** At a steady pace the step is twice the binary logarithm of target over pace, within the bound. */
  lemma {:induction false} SteadyPace(p: Params, ln: real -> real, st: seq<real>, prev: real, t: real)
    requires Sane(p) && Logarithm(ln) && ln(2.0) != 0.0 && Recent(p, st) != []
    requires 1.0 <= t <= Ceiling(p) && forall i :: 0 <= i < |st| ==> st[i] == t
    ensures var step := 2.0 * (ln(p.target / t) / ln(2.0));
      var moved := if step > p.maxStep then prev + p.maxStep
        else if step < -p.maxStep then prev - p.maxStep else prev + step;
      Next(p, ln, st, prev) == if moved > p.minDiff then moved else p.minDiff
  {
    AverageConstant(p, Recent(p, st), t);
    hide Average, Ceiling, Logarithm;
  }

  lemma {:induction false} Halves(t: real)
    requires t > 0.0
    ensures t / (t / 2.0) == 2.0 && t / (2.0 * t) == 0.5
  {
    Cancel(2.0, t / 2.0);
    Cancel(0.5, 2.0 * t);
    assert 2.0 * (t / 2.0) == t && 0.5 * (2.0 * t) == t;
  }

  /** Blocks twice as fast as the target raise the difficulty by two. */
  lemma {:induction false} TwiceAsFast(p: Params, ln: real -> real, st: seq<real>, prev: real)
    requires Sane(p) && Logarithm(ln) && p.target >= 2.0 && p.clamp >= 1.0 && p.maxStep >= 2.0 && Recent(p, st) != []
    requires forall i :: 0 <= i < |st| ==> st[i] == p.target / 2.0
    ensures Next(p, ln, st, prev) == if prev + 2.0 > p.minDiff then prev + 2.0 else p.minDiff
  {
    hide Next, Logarithm;
    Ln2Positive(ln);
    Halves(p.target);
    ProductOrder(1.0, p.clamp, p.target);
    SteadyPace(p, ln, st, prev, p.target / 2.0);
    Cancel(1.0, ln(2.0));
  }

  /** Blocks at half the target's pace lower it by two, for a logarithm that takes a half to minus ln 2. */
  lemma {:induction false} HalfAsFast(p: Params, ln: real -> real, st: seq<real>, prev: real)
    requires Sane(p) && Logarithm(ln) && p.target >= 1.0 && p.clamp >= 2.0 && p.maxStep >= 2.0 && Recent(p, st) != []
    requires ln(0.5) == -ln(2.0) && forall i :: 0 <= i < |st| ==> st[i] == 2.0 * p.target
    ensures Next(p, ln, st, prev) == if prev - 2.0 > p.minDiff then prev - 2.0 else p.minDiff
  {
    hide Next, Logarithm;
    Ln2Positive(ln);
    Halves(p.target);
    ProductOrder(2.0, p.clamp, p.target);
    SteadyPace(p, ln, st, prev, 2.0 * p.target);
    Cancel(-1.0, ln(2.0));
  }

  lemma {:induction false} SumBelow(a: real, c: real, t: real, v: real, w: real)
    requires a <= t * v && c < t && w > 0.0
    ensures a + c * w < t * (v + w)
  {
    assert (t - c) * w > 0.0;
    assert t * (v + w) == t * v + t * w;
  }

  lemma {:induction false} WeightedBelow(p: Params, st: seq<real>, t: real)
    requires Sane(p) && st != [] && forall i :: 0 <= i < |st| ==> Clamped(p, st[i]) < t
    ensures Weighted(p, st) < t * Weights(|st|)
  {
    hide Clamped;
    var n := |st| - 1;
    if n > 0 {
      WeightedBelow(p, st[..n], t);
    } else {
      assert st[..0] == [];
      assert t * Weights(0) == 0.0;
    }
    SumBelow(Weighted(p, st[..n]), Clamped(p, st[n]), t, Weights(n), |st| as real);
  }

  lemma {:induction false} WeightedAbove(p: Params, st: seq<real>, t: real)
    requires Sane(p) && st != [] && forall i :: 0 <= i < |st| ==> Clamped(p, st[i]) > t
    ensures Weighted(p, st) > t * Weights(|st|)
  {
    hide Clamped;
    var n := |st| - 1;
    if n > 0 {
      WeightedAbove(p, st[..n], t);
    } else {
      assert st[..0] == [];
      assert t * Weights(0) == 0.0;
    }
    SumAbove(Weighted(p, st[..n]), Clamped(p, st[n]), t, Weights(n), |st| as real);
  }

  lemma {:induction false} SumAbove(a: real, c: real, t: real, v: real, w: real)
    requires a >= t * v && c > t && w > 0.0
    ensures a + c * w > t * (v + w)
  {
    assert (c - t) * w > 0.0;
    assert t * (v + w) == t * v + t * w;
  }

  lemma {:induction false} QuotientStrict(a: real, b: real, d: real)
    requires a < b && d > 0.0
    ensures a / d < b / d
  {
    assert b / d - a / d == (b - a) / d;
    assert (b - a) / d > 0.0;
  }

  /** The sign of the nudge is that of target less average. */
  lemma {:induction false} NudgeSign(p: Params, ln: real -> real, average: real)
    requires Sane(p) && Logarithm(ln) && p.maxStep > 0.0 && average > 0.0 && ln(2.0) > 0.0
    ensures average < p.target ==> Nudge(p, ln, average) > 0.0
    ensures average > p.target ==> Nudge(p, ln, average) < 0.0
  {
    var x := p.target / average;
    Cancel(1.0, average);
    if average < p.target {
      QuotientStrict(average, p.target, average);
      assert ln(x) > 0.0;
      QuotientStrict(0.0, ln(x), ln(2.0));
    } else if average > p.target {
      QuotientStrict(p.target, average, average);
      QuotientStrict(0.0, p.target, average);
      assert ln(x) < 0.0;
      QuotientStrict(ln(x), 0.0, ln(2.0));
    }
  }

  lemma {:induction false} AverageBelow(p: Params, st: seq<real>, t: real)
    requires Sane(p) && st != [] && forall i :: 0 <= i < |st| ==> Clamped(p, st[i]) < t
    ensures Average(p, st) < t
  {
    var w := Weights(|st|);
    WeightedBelow(p, st, t);
    hide Weighted, Weights, Clamped;
    Cancel(t, w);
    QuotientStrict(Weighted(p, st), t * w, w);
  }

  lemma {:induction false} AverageAbove(p: Params, st: seq<real>, t: real)
    requires Sane(p) && st != [] && forall i :: 0 <= i < |st| ==> Clamped(p, st[i]) > t
    ensures Average(p, st) > t
  {
    var w := Weights(|st|);
    WeightedAbove(p, st, t);
    hide Weighted, Weights, Clamped;
    Cancel(t, w);
    QuotientStrict(t * w, Weighted(p, st), w);
  }

  lemma {:induction false} RecentFrom(p: Params, st: seq<real>, i: nat)
    requires i < |Recent(p, st)|
    ensures exists j :: 0 <= j < |st| && Recent(p, st)[i] == st[j]
  {
    var k := |st| - |Recent(p, st)|;
    assert Recent(p, st)[i] == st[k + i];
  }

  /** Solvetimes that all stay below the target raise the difficulty. */
  lemma {:induction false} FasterIsHarder(p: Params, ln: real -> real, st: seq<real>, prev: real)
    requires Sane(p) && Logarithm(ln) && p.maxStep > 0.0 && p.target > 1.0 && Recent(p, st) != []
    requires forall i :: 0 <= i < |st| ==> st[i] < p.target
    ensures Next(p, ln, st, prev) > prev
  {
    hide Average, Nudge, Logarithm, Ceiling, Recent;
    var r := Recent(p, st);
    forall i | 0 <= i < |r| ensures Clamped(p, r[i]) < p.target {
      RecentFrom(p, st, i);
    }
    AverageBelow(p, r, p.target);
    AverageBounds(p, r);
    Ln2Positive(ln);
    NudgeSign(p, ln, Average(p, r));
  }

  /** Solvetimes that all exceed the target lower it, unless the floor holds it. */
  lemma {:induction false} SlowerIsEasier(p: Params, ln: real -> real, st: seq<real>, prev: real)
    requires Sane(p) && Logarithm(ln) && p.maxStep > 0.0 && p.clamp > 1.0 && Recent(p, st) != []
    requires forall i :: 0 <= i < |st| ==> st[i] > p.target
    ensures Next(p, ln, st, prev) < prev || Next(p, ln, st, prev) == p.minDiff
  {
    CeilingAbove(p);
    hide Average, Nudge, Logarithm, Ceiling, Recent;
    var r := Recent(p, st);
    forall i | 0 <= i < |r| ensures Clamped(p, r[i]) > p.target {
      RecentFrom(p, st, i);
    }
    AverageAbove(p, r, p.target);
    AverageBounds(p, r);
    Ln2Positive(ln);
    NudgeSign(p, ln, Average(p, r));
  }

  lemma {:induction false} CeilingAbove(p: Params)
    requires Sane(p) && p.clamp > 1.0
    ensures Ceiling(p) > p.target
  {
    assert (p.clamp - 1.0) * p.target > 0.0;
  }

  // ------------------------------------------------------------------ the window

  /** Solvetimes before the window do not count. */
  lemma {:induction false} OlderIgnored(p: Params, ln: real -> real, older: seq<real>, st: seq<real>, prev: real)
    requires Sane(p) && Logarithm(ln) && 0 < p.window <= |st|
    ensures Next(p, ln, older + st, prev) == Next(p, ln, st, prev)
  {
    hide Average, Logarithm;
    assert Recent(p, older + st) == Recent(p, st);
  }

  /** Up to a window of them, all do: the step is that of their average. */
  lemma {:induction false} WindowCounts(p: Params, ln: real -> real, st: seq<real>, prev: real)
    requires Sane(p) && Logarithm(ln) && 0 < |st| <= p.window && ln(2.0) != 0.0 && Average(p, st) > 0.0
    ensures var step := 2.0 * (ln(p.target / Average(p, st)) / ln(2.0));
      var moved := if step > p.maxStep then prev + p.maxStep
        else if step < -p.maxStep then prev - p.maxStep else prev + step;
      Next(p, ln, st, prev) == if moved > p.minDiff then moved else p.minDiff
  {
    hide Average, Logarithm;
  }
}
