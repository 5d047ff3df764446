/** The smooth linear ramp: steps that grow from zero to `dy` over `curved` points, stay at
    `dy` for `linear` points, and shrink again. Setpoints are exact numbers here; rounding of
    the two step constants is an explicit error. */
module SmoothRamp {
  /** The constants of a ramp: `dy`, and the step `dyPerPt` by which a curved step grows. */
  datatype Ramp = Ramp(linear: nat, curved: nat, dy: real, dyPerPt: real)

  function Total(r: Ramp): nat {
    r.linear + 2 * r.curved
  }

  /** The step that point `i` takes. */
  function Step(r: Ramp, i: nat): real
    requires i < Total(r)
  {
    if i < r.curved then r.dyPerPt * i as real
    else if i < r.linear + r.curved then r.dy
    else r.dyPerPt * (r.linear + 2 * r.curved - i) as real
  }

  /** The setpoint before point `n`, that is, after `n` steps. */
  function Position(r: Ramp, cur: real, n: nat): real
    requires n <= Total(r)
  {
    if n == 0 then cur else Position(r, cur, n - 1) + Step(r, n - 1)
  }

  function AbsReal(x: real): real {
    if x < 0.0 then -x else x
  }

  /** The ramp loop: fills `y` with the setpoints. */
  method RunRamp(r: Ramp, cur: real) returns (y: array<real>, sp0: real)
    ensures fresh(y) && y.Length == Total(r)
    ensures forall i :: 0 <= i < y.Length ==> y[i] == Position(r, cur, i + 1)
    ensures sp0 == Position(r, cur, Total(r))
  {
    y := new real[r.linear + 2 * r.curved];
    sp0 := cur;
    var sp1 := 0.0;
    var i := 0;
    while i < y.Length
      invariant 0 <= i <= y.Length
      invariant sp0 == Position(r, cur, i)
      invariant forall j :: 0 <= j < i ==> y[j] == Position(r, cur, j + 1)
    {
      if i < r.curved {
        sp1 := sp0 + r.dyPerPt * i as real;
      } else if i < r.linear + r.curved {
        sp1 := sp0 + r.dy;
      } else {
        sp1 := sp0 + r.dyPerPt * (r.linear + 2 * r.curved - i) as real;
      }
      assert sp1 == sp0 + Step(r, i) == Position(r, cur, i + 1);
      sp0 := sp1;
      y[i] := sp1;
      i := i + 1;
    }
  }

  // ----- the closed form -----

  /** How many times step `i` takes `dyPerPt`, and how many times `dy`. */
  function Curve(r: Ramp, i: nat): nat
    requires i < Total(r)
  {
    if i < r.curved then i else if i < r.linear + r.curved then 0 else Total(r) - i
  }

  function Line(r: Ramp, i: nat): nat {
    if r.curved <= i < r.linear + r.curved then 1 else 0
  }

  /** The same for the first `n` steps together. */
  function CurveSum(r: Ramp, n: nat): nat
    requires n <= Total(r)
  {
    if n == 0 then 0 else CurveSum(r, n - 1) + Curve(r, n - 1)
  }

  function LineSum(r: Ramp, n: nat): nat {
    if n < r.curved then 0 else if n < r.linear + r.curved then n - r.curved else r.linear
  }

  /** `a` added `n` times. */
  function Times(a: real, n: nat): real {
    if n == 0 then 0.0 else Times(a, n - 1) + a
  }

  lemma {:induction false} TimesIs(a: real, n: nat)
    ensures Times(a, n) == a * n as real
  {
    if n > 0 {
      TimesIs(a, n - 1);
      assert n as real == (n - 1) as real + 1.0;
    } else {
      assert a * 0.0 == 0.0;
    }
  }

  lemma {:induction false} TimesPlus(a: real, n: nat, k: nat)
    ensures Times(a, n + k) == Times(a, n) + Times(a, k)
  {
    if k > 0 {
      TimesPlus(a, n, k - 1);
    }
  }

  lemma {:induction false} TimesSum(a: real, b: real, n: nat)
    ensures Times(a + b, n) == Times(a, n) + Times(b, n)
  {
    if n > 0 {
      TimesSum(a, b, n - 1);
    }
  }

  lemma StepWeights(r: Ramp, i: nat)
    requires i < Total(r)
    ensures Step(r, i) == Times(r.dyPerPt, Curve(r, i)) + Times(r.dy, Line(r, i))
  {
    TimesIs(r.dyPerPt, Curve(r, i));
    assert Line(r, i) == 1 ==> Times(r.dy, 1) == Times(r.dy, 0) + r.dy;
  }

  /** A start and so many steps of either kind. */
  function Reach(r: Ramp, cur: real, curve: nat, line: nat): real {
    cur + Times(r.dyPerPt, curve) + Times(r.dy, line)
  }

  lemma {:induction false} ClosedForm(r: Ramp, cur: real, n: nat)
    requires n <= Total(r)
    ensures Position(r, cur, n) == Reach(r, cur, CurveSum(r, n), LineSum(r, n))
  {
    if n > 0 {
      ClosedForm(r, cur, n - 1);
      StepWeights(r, n - 1);
      TimesPlus(r.dyPerPt, CurveSum(r, n - 1), Curve(r, n - 1));
      TimesPlus(r.dy, LineSum(r, n - 1), Line(r, n - 1));
    }
  }

  lemma {:induction false} Rising(r: Ramp, n: nat)
    requires n <= r.curved
    ensures 2 * CurveSum(r, n) == n * (n - 1)
  {
    if n > 0 {
      Rising(r, n - 1);
    }
  }

  lemma {:induction false} Level(r: Ramp, n: nat)
    requires r.curved <= n <= r.linear + r.curved
    ensures CurveSum(r, n) == CurveSum(r, r.curved)
  {
    if n > r.curved {
      Level(r, n - 1);
    }
  }

  function Triangle(k: nat): nat {
    if k == 0 then 0 else Triangle(k - 1) + k
  }

  lemma {:induction false} TriangleTwice(k: nat)
    ensures 2 * Triangle(k) == k * k + k
  {
    if k > 0 {
      TriangleTwice(k - 1);
    }
  }

  lemma {:induction false} Falling(r: Ramp, k: nat)
    requires k <= r.curved
    ensures CurveSum(r, Total(r) - k) == r.curved * r.curved - Triangle(k)
    decreases r.curved - k
  {
    if k == r.curved {
      Rising(r, k);
      Level(r, r.linear + k);
      TriangleTwice(k);
      assert k * (k - 1) == k * k - k;
    } else {
      Falling(r, k + 1);
      assert Curve(r, Total(r) - (k + 1)) == k + 1;
    }
  }

  /** The two curves together make a square. */
  lemma Squares(r: Ramp)
    ensures CurveSum(r, Total(r)) == r.curved * r.curved
    ensures LineSum(r, Total(r)) == r.linear
  {
    Falling(r, 0);
  }

  /** Where any pair of constants ends. */
  lemma EndPoint(r: Ramp, cur: real)
    ensures Position(r, cur, Total(r)) == Reach(r, cur, r.curved * r.curved, r.linear)
  {
    ClosedForm(r, cur, Total(r));
    Squares(r);
  }

  // ----- landing -----

  /** The constants for a change of `d`: `dy` is `d` over the points of the line and one curve,
      and `dyPerPt` is `dy` over the points of a curve. What the divisions by zero yield when
      there are no points is left open. */
  ghost predicate Planned(r: Ramp, d: real) {
    && (r.linear + r.curved > 0 ==> r.dy == d / (r.linear + r.curved) as real)
    && (r.curved > 0 ==> r.dyPerPt == r.dy / r.curved as real)
  }

  lemma PlannedSum(r: Ramp, d: real)
    requires Planned(r, d) && r.linear + r.curved > 0
    ensures Times(r.dyPerPt, r.curved * r.curved) == Times(r.dy, r.curved)
    ensures Times(r.dy, r.curved) + Times(r.dy, r.linear) == d
  {
    TimesPlus(r.dy, r.curved, r.linear);
    TimesIs(r.dy, r.curved + r.linear);
    if r.curved > 0 {
      TimesIs(r.dy, r.curved);
      TimesIs(r.dyPerPt, r.curved * r.curved);
      var m := r.curved as real;
      assert (r.curved * r.curved) as real == m * m;
      assert r.dyPerPt * (m * m) == (r.dyPerPt * m) * m;
    }
  }

  /** The exact ramp lands exactly, from any start to any end, with any number of points. */
  lemma LandsExactly(r: Ramp, cur: real, target: real)
    requires Planned(r, target - cur) && r.linear + r.curved > 0
    ensures Position(r, cur, Total(r)) == target
  {
    EndPoint(r, cur);
    PlannedSum(r, target - cur);
  }

  // ----- rounded constants -----

  /** The constants with errors `a` on `dy` and `b` on `dyPerPt`. */
  function Rounded(r: Ramp, a: real, b: real): Ramp {
    r.(dy := r.dy + a, dyPerPt := r.dyPerPt + b)
  }

  lemma RoundedSums(r: Ramp, a: real, b: real, n: nat)
    requires n <= Total(r)
    ensures CurveSum(Rounded(r, a, b), n) == CurveSum(r, n) && LineSum(Rounded(r, a, b), n) == LineSum(r, n)
  {
    if n > 0 {
      RoundedSums(r, a, b, n - 1);
    }
  }

  /** What rounding does to every setpoint of the ramp, exactly. */
  lemma RoundedPosition(r: Ramp, a: real, b: real, cur: real, n: nat)
    requires n <= Total(r)
    ensures Position(Rounded(r, a, b), cur, n)
            == Position(r, cur, n) + Times(b, CurveSum(r, n)) + Times(a, LineSum(r, n))
  {
    ClosedForm(r, cur, n);
    ClosedForm(Rounded(r, a, b), cur, n);
    RoundedSums(r, a, b, n);
    TimesSum(r.dyPerPt, b, CurveSum(r, n));
    TimesSum(r.dy, a, LineSum(r, n));
  }

  lemma {:induction false} TimesBound(x: real, e: real, n: nat)
    requires AbsReal(x) <= e
    ensures AbsReal(Times(x, n)) <= Times(e, n)
  {
    if n > 0 {
      TimesBound(x, e, n - 1);
    }
  }

  /** An absolute error of at most `e` on each constant moves the end by at most `e` taken
      linear + curved * curved times, and errors of exactly `e` do so. */
  lemma AbsoluteError(r: Ramp, a: real, b: real, e: real, cur: real)
    requires AbsReal(a) <= e && AbsReal(b) <= e
    ensures var moved := Position(Rounded(r, a, b), cur, Total(r)) - Position(r, cur, Total(r));
            var bound := Times(e, r.linear + r.curved * r.curved);
            AbsReal(moved) <= bound && (a == b == e ==> moved == bound)
  {
    var m := r.curved * r.curved;
    RoundedPosition(r, a, b, cur, Total(r));
    Squares(r);
    TimesBound(a, e, r.linear);
    TimesBound(b, e, m);
    TimesPlus(e, r.linear, m);
  }

  /** The error that a relative error `e` makes of a constant. */
  predicate Relative(x: real, a: real, e: real) {
    AbsReal(a) <= e * AbsReal(x)
  }

  lemma {:induction false} RelativeTimes(x: real, a: real, e: real, n: nat)
    requires Relative(x, a, e)
    ensures Relative(Times(x, n), Times(a, n), e)
    ensures x >= 0.0 ==> Times(x, n) >= 0.0
    ensures x <= 0.0 ==> Times(x, n) <= 0.0
  {
    if n > 0 {
      var k := n - 1;
      RelativeTimes(x, a, e, k);
      assert AbsReal(Times(x, n)) == AbsReal(Times(x, k)) + AbsReal(x);
      assert e * AbsReal(Times(x, n)) == e * AbsReal(Times(x, k)) + e * AbsReal(x);
    }
  }

  lemma SameSide(x: real, y: real, u: real, v: real, e: real)
    requires (x >= 0.0 && y >= 0.0) || (x <= 0.0 && y <= 0.0)
    requires Relative(x, u, e) && Relative(y, v, e)
    ensures Relative(x + y, u + v, e)
  {
    assert AbsReal(x + y) == AbsReal(x) + AbsReal(y);
    assert e * AbsReal(x + y) == e * AbsReal(x) + e * AbsReal(y);
  }

  /** A relative error of at most `e` on each constant moves the end by at most e times the
      whole change. */
  lemma RelativeError(r: Ramp, a: real, b: real, e: real, cur: real, target: real)
    requires Planned(r, target - cur) && r.linear + r.curved > 0
    requires Relative(r.dy, a, e) && Relative(r.dyPerPt, b, e)
    ensures Relative(target - cur, Position(Rounded(r, a, b), cur, Total(r)) - target, e)
  {
    RoundedPosition(r, a, b, cur, Total(r));
    Squares(r);
    LandsExactly(r, cur, target);
    var m := r.curved * r.curved;
    RelativeTimes(r.dy, a, e, r.linear);
    RelativeTimes(r.dy, a, e, r.curved);
    RelativeTimes(r.dyPerPt, b, e, m);
    PlannedSum(r, target - cur);
    SameSide(Times(r.dyPerPt, m), Times(r.dy, r.linear), Times(b, m), Times(a, r.linear), e);
  }

  // ----- the register output -----

  const ONE_Q48 := 281474976710656.0

  /** The logic accumulates in units of 2 to the minus 48, and puts out whole codes. */
  function Output(setpoint: real): int {
    (setpoint / ONE_Q48).Floor
  }

  lemma OutputNear(end: real, target: int)
    requires AbsReal(end - target as real * ONE_Q48) < ONE_Q48
    ensures Output(end) == if end >= target as real * ONE_Q48 then target else target - 1
  {
  }

  /** Where the errors of the constants leave the end. */
  lemma RoundedEnd(r: Ramp, a: real, b: real, cur: real, target: real)
    requires Planned(r, target - cur) && r.linear + r.curved > 0
    ensures Position(Rounded(r, a, b), cur, Total(r)) == target + (Times(b, r.curved * r.curved) + Times(a, r.linear))
  {
    RoundedPosition(r, a, b, cur, Total(r));
    Squares(r);
    LandsExactly(r, cur, target);
  }

  lemma RelativeNear(r: Ramp, a: real, b: real, e: real, cur: real, target: real, unit: real)
    requires Planned(r, target - cur) && r.linear + r.curved > 0
    requires Relative(r.dy, a, e) && Relative(r.dyPerPt, b, e) && e * AbsReal(target - cur) < unit
    ensures AbsReal(Position(Rounded(r, a, b), cur, Total(r)) - target) < unit
  {
    RelativeError(r, a, b, e, cur, target);
  }

  /** The ramp is planned for a change of whole codes, with a relative error that makes less than
      one code of it. */
  ghost predicate PlannedCodes(r: Ramp, a: real, b: real, e: real, cur: int, target: int) {
    var from, to := cur as real * ONE_Q48, target as real * ONE_Q48;
    && Planned(r, to - from) && r.linear + r.curved > 0
    && Relative(r.dy, a, e) && Relative(r.dyPerPt, b, e)
    && e * AbsReal(to - from) < ONE_Q48
  }

  lemma CodesNear(r: Ramp, a: real, b: real, e: real, cur: int, target: int)
    requires PlannedCodes(r, a, b, e, cur, target)
    ensures var end := Position(Rounded(r, a, b), cur as real * ONE_Q48, Total(r));
            && AbsReal(end - target as real * ONE_Q48) < ONE_Q48
            && end == target as real * ONE_Q48 + (Times(b, r.curved * r.curved) + Times(a, r.linear))
  {
    var from, to := cur as real * ONE_Q48, target as real * ONE_Q48;
    RelativeNear(r, a, b, e, from, to, ONE_Q48);
    RoundedEnd(r, a, b, from, to);
  }

  /** Then the output ends on the target or one code below; on the target exactly when the errors
      of the constants, each as often as its constant is taken, do not add up to a shortfall. */
  lemma OutputLands(r: Ramp, a: real, b: real, e: real, cur: int, target: int)
    requires PlannedCodes(r, a, b, e, cur, target)
    ensures Output(Position(Rounded(r, a, b), cur as real * ONE_Q48, Total(r)))
            == if Times(b, r.curved * r.curved) + Times(a, r.linear) >= 0.0 then target else target - 1
  {
    CodesNear(r, a, b, e, cur, target);
    OutputNear(Position(Rounded(r, a, b), cur as real * ONE_Q48, Total(r)), target);
  }

  /** A ramp that ends a code low: from 0 to 1 in 24 points of a line and one of each curve. Both
      constants are 2^48 / 25, and the nearest number with a 24-bit mantissa is below it. */
  lemma OneCodeLow()
    ensures var register := 10737418.0 * 1048576.0;
            && Planned(Ramp(24, 1, ONE_Q48 / 25.0, ONE_Q48 / 25.0), ONE_Q48)
            && AbsReal(register - ONE_Q48 / 25.0) <= 1048576.0 / 2.0
            && Output(Position(Ramp(24, 1, register, register), 0.0, 26)) == 0
  {
    var r := Ramp(24, 1, 11258998816768.0, 11258998816768.0);
    EndPoint(r, 0.0);
    TimesIs(r.dyPerPt, 1);
    TimesIs(r.dy, 24);
  }

  // ----- the guard on large steps -----

  /** A constant over 511 becomes zero. The comparison is on whole numbers, so that 511.9 stays. */
  function Guarded(x: real): real {
    if AbsReal(x).Floor > 511 then 0.0 else x
  }

  function GuardedRamp(r: Ramp): Ramp {
    r.(dy := Guarded(r.dy), dyPerPt := Guarded(r.dyPerPt))
  }

  lemma {:induction false} TimesSign(x: real, n: nat)
    ensures Times(0.0, n) == 0.0
    ensures x > 0.0 && n > 0 ==> Times(x, n) > 0.0
    ensures x < 0.0 && n > 0 ==> Times(x, n) < 0.0
    ensures x == 0.0 ==> Times(x, n) == 0.0
  {
    if n > 0 {
      TimesSign(x, n - 1);
    }
  }

  lemma PerPtSmaller(r: Ramp, d: real)
    requires Planned(r, d) && r.curved > 0
    ensures AbsReal(r.dyPerPt) <= AbsReal(r.dy)
    ensures r.dy >= 0.0 ==> r.dyPerPt >= 0.0
    ensures r.dy <= 0.0 ==> r.dyPerPt <= 0.0
    ensures Times(r.dyPerPt, r.curved) == r.dy
  {
    TimesIs(r.dyPerPt, r.curved);
    TimesSign(r.dyPerPt, r.curved);
    TimesSign(r.dyPerPt, r.curved - 1);
  }

  /** Exactly when the guarded ramp still lands: there is nothing to do, or `dy` is below 512,
      or there is no line and the curves stay below it. */
  lemma GuardedLands(r: Ramp, cur: real, target: real)
    requires Planned(r, target - cur)
    ensures Position(GuardedRamp(r), cur, Total(r)) == target <==>
              || cur == target
              || (r.linear + r.curved > 0
                  && (AbsReal(r.dy) < 512.0 || (r.linear == 0 && AbsReal(r.dyPerPt) < 512.0)))
  {
    var g, m := GuardedRamp(r), r.curved * r.curved;
    EndPoint(g, cur);
    TimesSign(0.0, r.linear);
    TimesSign(0.0, m);
    if r.linear + r.curved > 0 {
      PlannedSum(r, target - cur);
      TimesSign(r.dy, r.linear);
      TimesSign(r.dy, r.curved);
      if r.curved > 0 {
        PerPtSmaller(r, target - cur);
      }
    }
  }

  /** A change that the guard spoils: 2400 codes over two points of a line and two of each
      curve. The steps of the line are 600 codes and become zero, those of the curves stay, and
      the ramp ends half way. */
  lemma GuardSpoils()
    ensures var r := Ramp(2, 2, 600.0, 300.0);
            Planned(r, 2400.0) && Position(GuardedRamp(r), 0.0, Total(r)) == 1200.0
  {
    var g := GuardedRamp(Ramp(2, 2, 600.0, 300.0));
    EndPoint(g, 0.0);
    TimesIs(300.0, 4);
    TimesSign(0.0, 2);
  }

  // ----- the shape -----

  predicate Between(a: real, x: real, b: real) {
    a <= x <= b || b <= x <= a
  }

  /** Every step goes the way of the ramp and is at most `dy`; and from one step to the next
      the change is at most `dy` over the points of a curve, across both joins. */
  lemma StepShape(r: Ramp, d: real, i: nat)
    requires Planned(r, d) && i < Total(r)
    ensures Between(0.0, Step(r, i), r.dy)
    ensures i + 1 < Total(r) && r.curved > 0 ==>
              AbsReal(Step(r, i + 1) - Step(r, i)) <= AbsReal(r.dy) / r.curved as real
    ensures i + 1 < Total(r) && r.curved == 0 ==> Step(r, i + 1) == Step(r, i)
  {
    if r.curved > 0 {
      WeightedStep(r, d, i);
      if i + 1 < Total(r) {
        WeightedStep(r, d, i + 1);
        var w, w' := Weight(r, i), Weight(r, i + 1);
        PerPtShare(r, d);
        if w < w' {
          TimesPlus(r.dyPerPt, w, 1);
        } else if w' < w {
          TimesPlus(r.dyPerPt, w', 1);
        }
        assert Times(r.dyPerPt, 1) == Times(r.dyPerPt, 0) + r.dyPerPt;
      }
    }
  }

  lemma PerPtShare(r: Ramp, d: real)
    requires Planned(r, d) && r.curved > 0
    ensures AbsReal(r.dyPerPt) == AbsReal(r.dy) / r.curved as real
  {
    PerPtSmaller(r, d);
  }

  /** A step in units of `dyPerPt`. */
  function Weight(r: Ramp, i: nat): nat
    requires i < Total(r)
  {
    if i < r.curved then i else if i < r.linear + r.curved then r.curved else Total(r) - i
  }

  lemma WeightedStep(r: Ramp, d: real, i: nat)
    requires Planned(r, d) && r.curved > 0 && i < Total(r)
    ensures Step(r, i) == Times(r.dyPerPt, Weight(r, i))
    ensures Between(0.0, Step(r, i), r.dy)
  {
    var w := Weight(r, i);
    PerPtSmaller(r, d);
    TimesIs(r.dyPerPt, w);
    TimesPlus(r.dyPerPt, w, r.curved - w);
    RelativeTimes(r.dyPerPt, 0.0, 0.0, w);
    RelativeTimes(r.dyPerPt, 0.0, 0.0, r.curved - w);
  }

  lemma {:induction false} Monotone(r: Ramp, d: real, cur: real, n: nat, m: nat)
    requires Planned(r, d) && n <= m <= Total(r)
    ensures r.dy >= 0.0 ==> Position(r, cur, n) <= Position(r, cur, m)
    ensures r.dy <= 0.0 ==> Position(r, cur, n) >= Position(r, cur, m)
    decreases m
  {
    if n < m {
      Monotone(r, d, cur, n, m - 1);
      StepShape(r, d, m - 1);
    }
  }

  /** Every setpoint lies between the ones before it and the target, so the ramp is monotone
      and never overshoots. */
  lemma SetpointsBetween(r: Ramp, cur: real, target: real, n: nat, m: nat)
    requires Planned(r, target - cur) && r.linear + r.curved > 0 && n <= m <= Total(r)
    ensures Between(Position(r, cur, n), Position(r, cur, m), target)
    ensures Between(cur, Position(r, cur, m), target)
  {
    LandsExactly(r, cur, target);
    Monotone(r, target - cur, cur, 0, m);
    Monotone(r, target - cur, cur, n, m);
    Monotone(r, target - cur, cur, m, Total(r));
  }

  // ----- the older form -----

  /** The older reference. */
  datatype OldRamp = OldRamp(linear: nat, curved: nat, dy: real)

  /** Its constants for a change of `d`: `curved` is the whole part of `a` times `linear`, but
      `dy` divides by `linear` times 1 + a. */
  function OldRampFor(linear: nat, a: real, d: real): OldRamp
    requires linear > 0 && a >= 0.0
  {
    assert a * linear as real >= 0.0;
    OldRamp(linear, (a * linear as real).Floor, d / linear as real / (1.0 + a))
  }

  function OldStep(o: OldRamp, i: nat): real
    requires i < o.linear + 2 * o.curved
  {
    if i < o.curved then o.dy * (i as real / o.curved as real)
    else if i < o.linear + o.curved then o.dy
    else o.dy * ((o.linear + o.curved + o.curved - i) as real / o.curved as real)
  }

  function OldPosition(o: OldRamp, cur: real, n: nat): real
    requires n <= o.linear + 2 * o.curved
  {
    if n == 0 then cur else OldPosition(o, cur, n - 1) + OldStep(o, n - 1)
  }

  /** The older loop. */
  method RunOldRamp(o: OldRamp, cur: real) returns (y: array<real>, sp0: real)
    ensures fresh(y) && y.Length == o.linear + 2 * o.curved
    ensures forall i :: 0 <= i < y.Length ==> y[i] == OldPosition(o, cur, i + 1)
    ensures sp0 == OldPosition(o, cur, o.linear + 2 * o.curved)
  {
    y := new real[o.linear + 2 * o.curved];
    sp0 := cur;
    var i := 0;
    while i < y.Length
      invariant 0 <= i <= y.Length
      invariant sp0 == OldPosition(o, cur, i)
      invariant forall j :: 0 <= j < i ==> y[j] == OldPosition(o, cur, j + 1)
    {
      ghost var step := OldStep(o, i);
      var sp1 := sp0;
      if i < o.curved {
        sp1 := sp0 + o.dy * (i as real / o.curved as real);
      }
      if i >= o.curved && i < o.linear + o.curved {
        sp1 := sp0 + o.dy;
      }
      if i >= o.linear + o.curved {
        sp1 := sp0 + o.dy * ((o.linear + o.curved + o.curved - i) as real / o.curved as real);
      }
      assert sp1 == sp0 + step;
      assert OldPosition(o, cur, i + 1) == sp0 + step;
      sp0 := sp1;
      y[i] := sp1;
      i := i + 1;
    }
  }

  /** The older form takes the steps of the current one, with its own `dy`. */
  function AsRamp(o: OldRamp): Ramp {
    Ramp(o.linear, o.curved, o.dy, if o.curved == 0 then 0.0 else o.dy / o.curved as real)
  }

  lemma Reassociate(x: real, y: real, m: real)
    requires m != 0.0
    ensures x * (y / m) == (x / m) * y
  {
    var q := 1.0 / m;
    assert y / m == y * q && x / m == x * q;
  }

  lemma OldStepIs(o: OldRamp, i: nat)
    requires i < o.linear + 2 * o.curved
    ensures OldStep(o, i) == Step(AsRamp(o), i)
  {
    if o.curved > 0 {
      Reassociate(o.dy, i as real, o.curved as real);
      Reassociate(o.dy, (o.linear + 2 * o.curved - i) as real, o.curved as real);
    }
  }

  lemma {:induction false} OldPositionIs(o: OldRamp, cur: real, n: nat)
    requires n <= o.linear + 2 * o.curved
    ensures OldPosition(o, cur, n) == Position(AsRamp(o), cur, n)
  {
    if n > 0 {
      OldPositionIs(o, cur, n - 1);
      OldStepIs(o, n - 1);
    }
  }

  lemma OldEnds(o: OldRamp, cur: real)
    requires o.linear > 0
    ensures OldPosition(o, cur, o.linear + 2 * o.curved) == cur + Times(o.dy, o.linear + o.curved)
  {
    OldPositionIs(o, cur, o.linear + 2 * o.curved);
    EndPoint(AsRamp(o), cur);
    TimesPlus(o.dy, o.curved, o.linear);
    if o.curved > 0 {
      TimesIs(o.dy, o.curved);
      TimesIs(o.dy / o.curved as real, o.curved * o.curved);
      SquareShare(o.dy, o.curved);
    }
  }

  lemma SquareShare(x: real, m: nat)
    requires m > 0
    ensures x / m as real * (m * m) as real == x * m as real
  {
    var k := m as real;
    assert (m * m) as real == k * k;
    assert x / k * (k * k) == (x / k * k) * k;
  }

  lemma OldPlan(linear: nat, a: real, d: real)
    requires linear > 0 && a >= 0.0
    ensures var o := OldRampFor(linear, a, d);
            && d == o.dy * (linear as real + a * linear as real)
            && (d > 0.0 ==> o.dy > 0.0) && (d < 0.0 ==> o.dy < 0.0)
            && 0.0 <= a * linear as real - o.curved as real < 1.0
  {
    var o := OldRampFor(linear, a, d);
    var l := linear as real;
    var q := d / l;
    assert o.dy * (1.0 + a) == q && q * l == d;
    assert l + a * l == (1.0 + a) * l;
    assert o.dy * ((1.0 + a) * l) == (o.dy * (1.0 + a)) * l;
    assert d > 0.0 ==> q > 0.0;
    assert d < 0.0 ==> q < 0.0;
  }

  /** `part` of a step is missing at the end. */
  predicate ShortBy(d: real, dy: real, part: real, short: real) {
    && 0.0 <= part < 1.0 && short == dy * part
    && (d > 0.0 ==> 0.0 <= short < dy)
    && (d < 0.0 ==> dy < short <= 0.0)
    && (d != 0.0 ==> (short == 0.0 <==> part == 0.0))
  }

  lemma Positive(x: real, y: real)
    requires x > 0.0 && y > 0.0
    ensures x * y > 0.0
  {
  }

  lemma PartOf(d: real, dy: real, part: real, short: real)
    requires 0.0 <= part < 1.0 && (d > 0.0 ==> dy > 0.0) && (d < 0.0 ==> dy < 0.0)
    requires short == dy * part
    ensures ShortBy(d, dy, part, short)
  {
    if part == 0.0 {
      assert short == 0.0;
    } else if dy > 0.0 {
      Positive(dy, part);
      Positive(dy, 1.0 - part);
      Spread(dy, 1.0, part);
    } else if dy < 0.0 {
      Positive(-dy, part);
      Positive(-dy, 1.0 - part);
      Spread(-dy, 1.0, part);
    }
  }

  lemma Spread(x: real, y: real, z: real)
    ensures x * (y - z) == x * y - x * z
  {
  }

  /** What `linear` and `curved` steps leave of the whole. */
  lemma Remains(d: real, dy: real, l: nat, al: real, m: nat)
    requires d == dy * (l as real + al)
    ensures d - Times(dy, l + m) == dy * (al - m as real)
  {
    TimesIs(dy, l + m);
    var x, y, rest := l as real + al, (l + m) as real, al - m as real;
    Spread(dy, x, y);
    assert x - y == rest;
    assert dy * (x - y) == dy * rest;
  }

  lemma OldShort(linear: nat, a: real, d: real)
    requires linear > 0 && a >= 0.0
    ensures var o := OldRampFor(linear, a, d);
            ShortBy(d, o.dy, a * linear as real - o.curved as real, d - Times(o.dy, o.linear + o.curved))
  {
    var o, al := OldRampFor(linear, a, d), a * linear as real;
    OldPlan(linear, a, d);
    Remains(d, o.dy, linear, al, o.curved);
    PartOf(d, o.dy, al - o.curved as real, d - Times(o.dy, linear + o.curved));
  }

  /** The older ramp ends short of its target by the part of a step that was cut off `curved`:
      less than one full step, and nothing exactly when `a` times `linear` is whole. */
  lemma OldFallsShort(linear: nat, a: real, cur: real, d: real)
    requires linear > 0 && a >= 0.0
    ensures var o := OldRampFor(linear, a, d);
            ShortBy(d, o.dy, a * linear as real - o.curved as real,
                    cur + d - OldPosition(o, cur, o.linear + 2 * o.curved))
  {
    OldEnds(OldRampFor(linear, a, d), cur);
    OldShort(linear, a, d);
  }
}
