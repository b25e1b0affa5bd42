/**
 The common quantity step of several venues, computed two ways, and the least quantity both venues accept.
 Quantities are exact positive rationals.
 */
module QuantitySteps {
  import opened Rationals
  import opened Wrappers

  type Fraction = r: Ratio | r.Lowest() witness Ratio(1, 1)

  // ----- Numerators over denominators -----

  /** The least common multiple of the numerators over the greatest common divisor of the denominators. */
  function FractionLcm(left: Fraction, right: Fraction): Ratio {
    Lowest(Lcm(left.n, right.n), Gcd(left.d, right.d))
  }

  /** In lowest terms, a multiple is one whose numerator is a multiple and whose denominator is a divisor. */
  lemma MultipleIff(y: Ratio, x: Ratio)
    requires y.Lowest() && x.Lowest()
    ensures IsMultiple(y, x) <==> Divides(x.n, y.n) && Divides(y.d, x.d)
  {
    hide Divides, Gcd;
    Product(x.n, y.d);
    if Divides(x.n, y.n) && Divides(y.d, x.d) {
      Whole(x.n, y.n);
      Whole(y.d, x.d);
      var s, t := y.n / x.n, x.d / y.d;
      DividesBy(x.n * y.d, s * t);
      assert y.n * x.d == (x.n * y.d) * (s * t) by { Regroup(x.n, s, y.d, t); }
    }
    if IsMultiple(y, x) {
      Whole(x.n * y.d, y.n * x.d);
      var k := (y.n * x.d) / (x.n * y.d);
      DividesBy(x.n, y.d * k);
      DividesBy(y.d, x.n * k);
      Associate(x.n, y.d, k);
      Euclid(x.n, x.d, y.n);
      GcdCommutes(y.n, y.d);
      Euclid(y.d, y.n, x.d);
    }
  }

  lemma Regroup(a: int, s: int, b: int, t: int)
    ensures (a * s) * (b * t) == (a * b) * (s * t)
  {
    assert (a * s) * (b * t) == a * (s * b) * t;
  }

  lemma Associate(a: int, b: int, k: int)
    ensures (a * b) * k == a * (b * k) == b * (a * k)
  {
  }

  /** A divisor of both denominators shares nothing with the common numerator. */
  lemma LcmIsLowest(left: Fraction, right: Fraction)
    ensures FractionLcm(left, right) == Ratio(Lcm(left.n, right.n), Gcd(left.d, right.d)) && FractionLcm(left, right).Lowest()
  {
    hide Divides, Gcd, Lcm;
    var p, q := Lcm(left.n, right.n), Gcd(left.d, right.d);
    var g := Gcd(p, q);
    GcdDivides(p, q);
    GcdDivides(left.d, right.d);
    DividesTransitive(g, q, left.d);
    DividesTransitive(g, q, right.d);
    Product(left.n, right.n);
    DividesBy(left.n, right.n);
    DividesBy(right.n, left.n);
    LcmLeast(left.n, right.n, left.n * right.n);
    DividesTransitive(g, p, left.n * right.n);
    Shares(g, left);
    Euclid(g, left.n, right.n);
    GcdGreatest(g, right.n, right.d);
    One(g);
    ReduceOne(p, q);
    LowestIsLowest(p, q);
  }

  lemma One(g: Pos)
    requires Divides(g, 1)
    ensures g == 1
  {
    Whole(g, 1);
    Scale(g, 1 / g);
  }

  lemma ReduceOne(p: Pos, q: Pos)
    requires Gcd(p, q) == 1
    ensures Lowest(p, q) == Ratio(p, q)
  {
  }

  lemma Shares(g: Pos, x: Fraction)
    requires Divides(g, x.d)
    ensures Gcd(g, x.n) == 1
  {
    hide Divides, Gcd;
    var h := Gcd(g, x.n);
    GcdDivides(g, x.n);
    DividesTransitive(h, g, x.d);
    GcdGreatest(h, x.n, x.d);
    One(h);
  }

  /** Being a multiple of the pair's common step is being a multiple of both. */
  lemma PairLcm(z: Fraction, left: Fraction, right: Fraction)
    ensures FractionLcm(left, right).Lowest()
    ensures IsMultiple(z, FractionLcm(left, right)) <==> IsMultiple(z, left) && IsMultiple(z, right)
  {
    hide Divides, Gcd, Lcm, IsMultiple;
    LcmIsLowest(left, right);
    var f := FractionLcm(left, right);
    MultipleIff(z, f);
    MultipleIff(z, left);
    MultipleIff(z, right);
    LcmDivides(left.n, right.n);
    GcdDivides(left.d, right.d);
    if IsMultiple(z, f) {
      DividesTransitive(left.n, f.n, z.n);
      DividesTransitive(right.n, f.n, z.n);
      DividesTransitive(z.d, f.d, left.d);
      DividesTransitive(z.d, f.d, right.d);
    }
    if IsMultiple(z, left) && IsMultiple(z, right) {
      LcmLeast(left.n, right.n, z.n);
      GcdGreatest(z.d, left.d, right.d);
    }
  }

  /** reduce over a non-empty list of steps. */
  function ReducedLcm(steps: seq<Fraction>): Ratio
    requires steps != []
    ensures ReducedLcm(steps).Lowest()
  {
    if |steps| == 1 then steps[0]
    else
      var before := ReducedLcm(steps[..|steps| - 1]);
      LcmIsLowest(before, steps[|steps| - 1]);
      FractionLcm(before, steps[|steps| - 1])
  }

  function CommonStep(steps: seq<(Fraction, Fraction)>): Result<Ratio, string> {
    if steps == [] then Err("AT_LEAST_ONE_STEP_REQUIRED") else Ok(ReducedLcm(CanonicalSteps(steps)))
  }

  /** A raw step times its base multiplier, as it is before it is put in lowest terms. */
  function CanonicalStep(step: (Fraction, Fraction)): Ratio {
    Product(step.0.n, step.1.n);
    Product(step.0.d, step.1.d);
    Ratio(step.0.n * step.1.n, step.0.d * step.1.d)
  }

  function CanonicalSteps(steps: seq<(Fraction, Fraction)>): (canonical: seq<Fraction>)
    ensures |canonical| == |steps|
  {
    if steps == [] then []
    else
      var step := CanonicalStep(steps[0]);
      LowestIsLowest(step.n, step.d);
      [Lowest(step.n, step.d)] + CanonicalSteps(steps[1..])
  }

  ghost predicate CommonMultiple(z: Ratio, steps: seq<Fraction>) {
    forall step <- steps :: IsMultiple(z, step)
  }

  /** A common multiple of which every common multiple is a multiple. */
  ghost predicate Least(y: Ratio, steps: seq<Fraction>) {
    CommonMultiple(y, steps) && forall z: Fraction | CommonMultiple(z, steps) :: IsMultiple(z, y) && y.AtMost(z)
  }

  lemma MultipleIsLarger(z: Ratio, y: Ratio)
    requires IsMultiple(z, y)
    ensures y.AtMost(z)
  {
    Product(y.n, z.d);
    Product(z.n, y.d);
    Whole(y.n * z.d, z.n * y.d);
    Scale(y.n * z.d, (z.n * y.d) / (y.n * z.d));
  }

  lemma {:induction false} MultipleOfAll(z: Fraction, steps: seq<Fraction>)
    requires steps != []
    ensures IsMultiple(z, ReducedLcm(steps)) <==> CommonMultiple(z, steps)
  {
    hide IsMultiple, FractionLcm;
    var n := |steps| - 1;
    assert steps == steps[..n] + [steps[n]];
    if n > 0 {
      MultipleOfAll(z, steps[..n]);
      PairLcm(z, ReducedLcm(steps[..n]), steps[n]);
    }
  }

  /** The reduced pair is the least positive common multiple of the steps. */
  lemma ReducedIsLeast(steps: seq<Fraction>)
    requires steps != []
    ensures Least(ReducedLcm(steps), steps)
  {
    hide IsMultiple, ReducedLcm;
    var y := ReducedLcm(steps);
    assert IsMultiple(y, y) by { SelfMultiple(y); }
    MultipleOfAll(y, steps);
    forall z: Fraction | CommonMultiple(z, steps) ensures IsMultiple(z, y) && y.AtMost(z) {
      MultipleOfAll(z, steps);
      MultipleIsLarger(z, y);
    }
  }

  ghost predicate SuitsAll(z: Ratio, steps: seq<(Fraction, Fraction)>) {
    forall step <- steps :: IsMultiple(z, CanonicalStep(step))
  }

  /** Lowest terms do not change what is a multiple. */
  lemma MultipleOfLowest(z: Ratio, n: Pos, d: Pos)
    ensures IsMultiple(z, Lowest(n, d)) <==> IsMultiple(z, Ratio(n, d))
  {
    hide Divides, Gcd;
    var g, x := Gcd(n, d), Lowest(n, d);
    GcdDivides(n, d);
    Whole(g, n);
    Whole(g, d);
    Product(x.n, z.d);
    Product(n, z.d);
    Product(g, x.n * z.d);
    assert n * z.d == g * (x.n * z.d) && z.n * d == g * (z.n * x.d);
    if Divides(x.n * z.d, z.n * x.d) {
      CommonFactor(g, x.n * z.d, z.n * x.d);
    }
    if Divides(g * (x.n * z.d), g * (z.n * x.d)) {
      var k := (g * (z.n * x.d)) / (g * (x.n * z.d));
      Whole(g * (x.n * z.d), g * (z.n * x.d));
      assert g * (z.n * x.d) == g * ((x.n * z.d) * k);
      Cancel(g, z.n * x.d, (x.n * z.d) * k);
      DividesBy(x.n * z.d, k);
    }
  }

  lemma {:induction false} CanonicalSuits(z: Ratio, steps: seq<(Fraction, Fraction)>)
    ensures CommonMultiple(z, CanonicalSteps(steps)) <==> SuitsAll(z, steps)
  {
    hide IsMultiple, Lowest, CanonicalStep;
    if steps != [] {
      var first, rest := CanonicalStep(steps[0]), steps[1..];
      LowestIsLowest(first.n, first.d);
      MultipleOfLowest(z, first.n, first.d);
      CanonicalSuits(z, rest);
      assert CommonMultiple(z, CanonicalSteps(steps)) <==> IsMultiple(z, Lowest(first.n, first.d)) && CommonMultiple(z, CanonicalSteps(rest)) by {
        assert CanonicalSteps(steps) == [CanonicalSteps(steps)[0]] + CanonicalSteps(rest);
      }
      assert SuitsAll(z, steps) <==> IsMultiple(z, first) && SuitsAll(z, rest) by {
        assert steps == [steps[0]] + rest;
      }
    }
  }

  /** The common step exists for every non-empty list; it suits every venue, and whatever else suits them all is a multiple of it. */
  lemma CommonStepIsLeast(steps: seq<(Fraction, Fraction)>)
    ensures CommonStep(steps).Err? <==> steps == []
    ensures steps != [] ==> var y := CommonStep(steps).value;
      && y.Lowest() && SuitsAll(y, steps)
      && forall z: Fraction | SuitsAll(z, steps) :: IsMultiple(z, y) && y.AtMost(z)
  {
    hide IsMultiple, ReducedLcm, CanonicalSteps, Ratio.AtMost;
    if steps != [] {
      var y := CommonStep(steps).value;
      ReducedIsLeast(CanonicalSteps(steps));
      CanonicalSuits(y, steps);
      forall z: Fraction | SuitsAll(z, steps) ensures IsMultiple(z, y) && y.AtMost(z) {
        CanonicalSuits(z, steps);
      }
    }
  }

  lemma SelfMultiple(y: Ratio)
    ensures IsMultiple(y, y)
  {
    Product(y.n, y.d);
    DividesBy(y.n * y.d, 1);
  }

  // ----- Common denominator -----

  function LcmAll(units: seq<Pos>): Pos {
    if units == [] then 1 else Lcm(LcmAll(units[..|units| - 1]), units[|units| - 1])
  }

  lemma {:induction false} LcmAllDivides(units: seq<Pos>)
    ensures forall unit <- units :: Divides(unit, LcmAll(units))
  {
    hide Divides, Lcm;
    if units != [] {
      var n := |units| - 1;
      assert units == units[..n] + [units[n]];
      LcmAllDivides(units[..n]);
      LcmDivides(LcmAll(units[..n]), units[n]);
      forall unit <- units ensures Divides(unit, LcmAll(units)) {
        if unit in units[..n] {
          DividesTransitive(unit, LcmAll(units[..n]), LcmAll(units));
        }
      }
    }
  }

  lemma {:induction false} LcmAllLeast(units: seq<Pos>, m: int)
    requires forall unit <- units :: Divides(unit, m)
    ensures Divides(LcmAll(units), m)
  {
    hide Divides, Lcm;
    if units == [] {
      DividesBy(1, m);
    } else {
      var n := |units| - 1;
      assert units == units[..n] + [units[n]];
      LcmAllLeast(units[..n], m);
      LcmLeast(LcmAll(units[..n]), units[n], m);
    }
  }

  /** The steps as whole counts of one common denominator. */
  ghost predicate Units(units: seq<Pos>, steps: seq<Fraction>, denominator: Pos) {
    && |units| == |steps|
    && forall i | 0 <= i < |steps| ::
      Divides(steps[i].d, denominator) && units[i] == steps[i].n * (denominator / steps[i].d)
  }

  lemma ScaledUnit(step: Fraction, denominator: Pos)
    requires Divides(step.d, denominator)
    ensures denominator / step.d > 0 && step.n * (denominator / step.d) > 0
  {
    Whole(step.d, denominator);
    Product(step.n, denominator / step.d);
  }

  /** N/D is a common multiple, so its reduced form is a multiple of the reduced pair. */
  lemma ScaledIsCommon(steps: seq<Fraction>, units: seq<Pos>, denominator: Pos, i: nat)
    requires Units(units, steps, denominator) && i < |steps|
    ensures IsMultiple(Lowest(LcmAll(units), denominator), steps[i])
  {
    hide Divides, Gcd, LcmAll, Lowest;
    var n, x := LcmAll(units), steps[i];
    var r := Lowest(n, denominator);
    LowestIsLowest(n, denominator);
    LcmAllDivides(units);
    Whole(x.d, denominator);
    Whole(units[i], n);
    var e, k := denominator / x.d, n / units[i];
    Product(x.n, r.d);
    ScaledAlgebra(r.n, r.d, x.n, x.d, e, k, n, denominator);
    Cancel(e, r.n * x.d, (x.n * r.d) * k);
    DividesBy(x.n * r.d, k);
  }

  lemma ScaledAlgebra(rn: int, rd: int, a: int, b: int, e: int, k: int, n: int, d: int)
    requires rn * d == n * rd && d == b * e && n == (a * e) * k
    ensures e * (rn * b) == e * ((a * rd) * k)
  {
    assert e * (rn * b) == rn * (b * e);
    assert n * rd == e * ((a * rd) * k);
  }

  /** Every unit divides P * (D / Q), where P/Q is the reduced pair. */
  lemma UnitsDivide(steps: seq<Fraction>, units: seq<Pos>, denominator: Pos, y: Ratio, i: nat)
    requires Units(units, steps, denominator) && i < |steps| && y.Lowest() && IsMultiple(y, steps[i])
    ensures Divides(y.d, denominator) && Divides(units[i], y.n * (denominator / y.d))
  {
    hide Divides, Gcd, IsMultiple;
    var x := steps[i];
    MultipleIff(y, x);
    Whole(x.n, y.n);
    Whole(y.d, x.d);
    Whole(x.d, denominator);
    var s, t, e := y.n / x.n, x.d / y.d, denominator / x.d;
    DividesTransitive(y.d, x.d, denominator);
    Whole(y.d, denominator);
    assert y.d * (denominator / y.d) == y.d * (t * e) by { Associate(y.d, t, e); }
    Cancel(y.d, denominator / y.d, t * e);
    DividesBy(units[i], s * t);
    assert y.n * (t * e) == units[i] * (s * t) by { UnitAlgebra(x.n, s, t, e); }
  }

  lemma UnitAlgebra(a: int, s: int, t: int, e: int)
    ensures (a * s) * (t * e) == (a * e) * (s * t)
  {
    assert (a * s) * (t * e) == a * (s * t) * e;
  }

  /** The two algorithms agree. */
  lemma AlgorithmsAgree(steps: seq<Fraction>, units: seq<Pos>, denominator: Pos)
    requires steps != [] && Units(units, steps, denominator)
    ensures Lowest(LcmAll(units), denominator) == ReducedLcm(steps)
  {
    hide Divides, Gcd, IsMultiple, LcmAll, Lowest, ReducedLcm;
    var n, y := LcmAll(units), ReducedLcm(steps);
    var r := Lowest(n, denominator);
    LowestIsLowest(n, denominator);
    forall i | 0 <= i < |steps| ensures IsMultiple(r, steps[i]) {
      ScaledIsCommon(steps, units, denominator, i);
    }
    MultipleOfAll(r, steps);
    ReducedIsLeast(steps);
    var m := y.n * (denominator / y.d);
    forall i | 0 <= i < |steps| ensures Divides(y.d, denominator) && Divides(units[i], m) {
      assert steps[i] in steps;
      UnitsDivide(steps, units, denominator, y, i);
    }
    assert Divides(y.d, denominator) by { assert steps[0] in steps; UnitsDivide(steps, units, denominator, y, 0); }
    LcmAllLeast(units, m);
    ValuesMeet(n, denominator, r, y);
    LowestUnique(r, y);
  }

  /** n/d is a multiple of y, and n divides y.n * (d / y.d): they are one value. */
  lemma ValuesMeet(n: Pos, d: Pos, r: Ratio, y: Ratio)
    requires SameValue(r, Ratio(n, d)) && r.Lowest() && y.Lowest() && IsMultiple(r, y)
    requires Divides(y.d, d) && Divides(n, y.n * (d / y.d))
    ensures SameValue(r, y)
  {
    hide Divides, Gcd, IsMultiple;
    MultipleIff(r, y);
    Whole(y.n, r.n);
    Whole(r.d, y.d);
    Whole(y.d, d);
    var s: Pos, t: Pos, c: Pos := r.n / y.n, y.d / r.d, d / y.d;
    Product(y.n, c);
    Product(s, t);
    var m: Pos := y.n * c;
    MeetAlgebra(n, r.n, r.d, y.n, s, t, c);
    Cancel(r.d, n, m * (s * t));
    DividesBy(m, s * t);
    DividesBoth(n, m);
    assert m * (s * t) == m * 1;
    Cancel(m, s * t, 1);
    Scale(s, t);
    Scale(t, s);
    assert s == 1 && t == 1;
  }

  lemma MeetAlgebra(n: int, rn: int, rd: int, yn: int, s: int, t: int, c: int)
    requires rn * ((rd * t) * c) == n * rd && rn == yn * s
    ensures rd * n == rd * ((yn * c) * (s * t))
  {
    assert rn * ((rd * t) * c) == rd * ((yn * c) * (s * t));
  }

  method RationalLcm(steps: seq<Fraction>) returns (common: Ratio)
    ensures common.Lowest()
    ensures steps == [] ==> common == Ratio(1, 1)
    ensures steps != [] ==> Least(common, steps) && common == ReducedLcm(steps)
  {
    hide Divides, Gcd, Lcm, IsMultiple, Lowest, ReducedLcm;
    var denominator: Pos := 1;
    for k := 0 to |steps|
      invariant forall i | 0 <= i < k :: Divides(steps[i].d, denominator)
      invariant k == 0 ==> denominator == 1
    {
      ghost var before := denominator;
      denominator := Lcm(denominator, steps[k].d);
      LcmDivides(before, steps[k].d);
      forall i | 0 <= i < k ensures Divides(steps[i].d, denominator) {
        DividesTransitive(steps[i].d, before, denominator);
      }
    }
    var units: seq<Pos> := [];
    for k := 0 to |steps|
      invariant |units| == k && forall i | 0 <= i < k :: units[i] == steps[i].n * (denominator / steps[i].d)
    {
      ScaledUnit(steps[k], denominator);
      units := units + [steps[k].n * (denominator / steps[k].d)];
    }
    var numerator: Pos := 1;
    for k := 0 to |units|
      invariant numerator == LcmAll(units[..k])
    {
      assert units[..k + 1] == units[..k] + [units[k]];
      numerator := Lcm(numerator, units[k]);
    }
    assert units[..|units|] == units;
    common := Lowest(numerator, denominator);
    LowestIsLowest(numerator, denominator);
    if steps == [] {
      LowestUnique(common, Ratio(1, 1)) by { UnitIsLowest(); }
    } else {
      AlgorithmsAgree(steps, units, denominator);
      ReducedIsLeast(steps);
    }
  }

  lemma UnitIsLowest()
    ensures Ratio(1, 1).Lowest()
  {
    assert Gcd(1, 0) == 1;
  }

  // ----- The common quantity -----

  function CeilFraction(n: nat, d: Pos): nat {
    if n % d == 0 then n / d else n / d + 1
  }

  function Larger(x: Ratio, y: Ratio): Ratio {
    if x.AtMost(y) then y else x
  }

  /** The step times the least count that covers the larger minimum. */
  function CommonQuantity(step: Ratio, minimum: Ratio): Ratio {
    Product(minimum.n, step.d);
    Product(step.n, minimum.d);
    var multiplier := CeilFraction(minimum.n * step.d, step.n * minimum.d);
    CeilCovers(minimum.n * step.d, step.n * minimum.d);
    Product(step.n, multiplier);
    Lowest(step.n * multiplier, step.d)
  }

  /** The least count whose product with d reaches n. */
  lemma CeilCovers(n: Pos, d: Pos)
    ensures var c := CeilFraction(n, d); c > 0 && (c - 1) * d < n <= c * d
  {
    var q, r := n / d, n % d;
    assert n == q * d + r;
    if r == 0 {
      assert (q - 1) * d == q * d - d;
      Scale(d, q);
    } else {
      assert (q + 1) * d == q * d + d;
    }
  }

  /** A multiple of the step that reaches the minimum counts at least as many steps. */
  lemma CountCovers(step: Ratio, minimum: Ratio, z: Ratio, multiplier: int, k: int)
    requires z.n * step.d == (step.n * z.d) * k && minimum.AtMost(z)
    requires (multiplier - 1) * (step.n * minimum.d) < minimum.n * step.d
    ensures multiplier <= k && (step.n * multiplier) * z.d <= z.n * step.d
  {
    Product(step.n, minimum.d);
    var x: Pos := step.n * minimum.d;
    assert (minimum.n * step.d) * z.d == (minimum.n * z.d) * step.d <= (z.n * minimum.d) * step.d by {
      ScaleLe(step.d, minimum.n * z.d, z.n * minimum.d);
    }
    assert (z.n * minimum.d) * step.d == (z.n * step.d) * minimum.d == (x * k) * z.d by { Gather(step.n, z.d, k, minimum.d); }
    CancelLe(z.d, minimum.n * step.d, x * k);
    CancelLt(x, multiplier - 1, k);
    ScaleLe(step.n * z.d, multiplier, k) by { Product(step.n, z.d); }
    assert (step.n * multiplier) * z.d == (step.n * z.d) * multiplier;
  }

  lemma Gather(a: int, b: int, k: int, d: int)
    ensures ((a * b) * k) * d == ((a * d) * k) * b
  {
  }

  lemma ScaleLe(a: Pos, x: int, y: int)
    requires x <= y
    ensures x * a <= y * a && a * x <= a * y
  {
  }

  lemma CancelLe(a: Pos, x: int, y: int)
    requires x * a <= y * a
    ensures x <= y
  {
    Scale(a, x - y);
    assert a * (x - y) == x * a - y * a;
  }

  lemma CancelLt(a: Pos, x: int, y: int)
    requires x * a < a * y
    ensures x < y
  {
    Scale(a, y - x);
    assert a * (y - x) == a * y - x * a;
  }

  /** The common quantity is a multiple of both steps, at least both minima, and no smaller quantity is. */
  lemma CommonQuantityIsLeast(first: Fraction, second: Fraction, firstMinimum: Ratio, secondMinimum: Ratio)
    ensures var step := ReducedLcm([first, second]);
      var quantity := CommonQuantity(step, Larger(firstMinimum, secondMinimum));
      && quantity.Lowest() && IsMultiple(quantity, first) && IsMultiple(quantity, second)
      && firstMinimum.AtMost(quantity) && secondMinimum.AtMost(quantity)
      && forall z: Fraction | IsMultiple(z, first) && IsMultiple(z, second) && firstMinimum.AtMost(z) && secondMinimum.AtMost(z) ::
           quantity.AtMost(z)
  {
    hide IsMultiple, ReducedLcm, CommonQuantity, Lowest, Gcd, Ratio.AtMost;
    var steps := [first, second];
    var step := ReducedLcm(steps);
    var minimum := Larger(firstMinimum, secondMinimum);
    var quantity := CommonQuantity(step, minimum);
    QuantityCovers(step, minimum);
    MultipleOfAll(quantity, steps);
    assert first in steps && second in steps;
    LargerCovers(firstMinimum, secondMinimum, quantity);
    forall z: Fraction | IsMultiple(z, first) && IsMultiple(z, second) && firstMinimum.AtMost(z) && secondMinimum.AtMost(z)
      ensures quantity.AtMost(z)
    {
      assert CommonMultiple(z, steps);
      MultipleOfAll(z, steps);
      QuantityLeast(step, minimum, z);
    }
  }

  lemma LargerCovers(x: Ratio, y: Ratio, z: Ratio)
    ensures Larger(x, y).AtMost(z) <==> x.AtMost(z) && y.AtMost(z)
  {
    if Larger(x, y).AtMost(z) {
      if x.AtMost(y) {
        AtMostTransitive(x, y, z);
      } else {
        AtMostTransitive(y, x, z);
      }
    }
  }

  lemma AtMostTransitive(x: Ratio, y: Ratio, z: Ratio)
    requires x.AtMost(y) && y.AtMost(z)
    ensures x.AtMost(z)
  {
    ScaleLe(z.d, x.n * y.d, y.n * x.d);
    ScaleLe(x.d, y.n * z.d, z.n * y.d);
    assert (x.n * z.d) * y.d <= (z.n * x.d) * y.d by {
      assert (x.n * y.d) * z.d == (x.n * z.d) * y.d;
      assert (y.n * x.d) * z.d == (y.n * z.d) * x.d;
      assert (z.n * y.d) * x.d == (z.n * x.d) * y.d;
    }
    CancelLe(y.d, x.n * z.d, z.n * x.d);
  }

  lemma QuantityCovers(step: Ratio, minimum: Ratio)
    ensures var quantity := CommonQuantity(step, minimum);
      quantity.Lowest() && IsMultiple(quantity, step) && minimum.AtMost(quantity)
  {
    hide Gcd, Divides, Lowest, CeilFraction;
    Product(minimum.n, step.d);
    Product(step.n, minimum.d);
    CeilCovers(minimum.n * step.d, step.n * minimum.d);
    var c: Pos := CeilFraction(minimum.n * step.d, step.n * minimum.d);
    Product(step.n, c);
    LowestIsLowest(step.n * c, step.d);
    var q := CommonQuantity(step, minimum);
    CountedMultiple(step, q, c);
    CountedCovers(step, minimum, q, c);
  }

  lemma CountedMultiple(step: Ratio, q: Ratio, c: Pos)
    requires q.n * step.d == (step.n * c) * q.d
    ensures IsMultiple(q, step)
  {
    hide Divides;
    Product(step.n, q.d);
    DividesBy(step.n * q.d, c);
    assert (step.n * q.d) * c == q.n * step.d;
  }

  lemma CountedCovers(step: Ratio, minimum: Ratio, q: Ratio, c: Pos)
    requires q.n * step.d == (step.n * c) * q.d && minimum.n * step.d <= c * (step.n * minimum.d)
    ensures minimum.AtMost(q)
  {
    ScaleLe(q.d, minimum.n * step.d, c * (step.n * minimum.d));
    assert (minimum.n * q.d) * step.d == (minimum.n * step.d) * q.d;
    assert (c * (step.n * minimum.d)) * q.d == ((step.n * c) * q.d) * minimum.d == (q.n * minimum.d) * step.d;
    CancelLe(step.d, minimum.n * q.d, q.n * minimum.d);
  }

  lemma QuantityLeast(step: Ratio, minimum: Ratio, z: Ratio)
    requires IsMultiple(z, step) && minimum.AtMost(z)
    ensures CommonQuantity(step, minimum).AtMost(z)
  {
    hide Gcd, Divides, Lowest, CeilFraction;
    Product(minimum.n, step.d);
    Product(step.n, minimum.d);
    Product(step.n, z.d);
    CeilCovers(minimum.n * step.d, step.n * minimum.d);
    var c: Pos := CeilFraction(minimum.n * step.d, step.n * minimum.d);
    Product(step.n, c);
    LowestIsLowest(step.n * c, step.d);
    Whole(step.n * z.d, z.n * step.d);
    CountCovers(step, minimum, z, c, (z.n * step.d) / (step.n * z.d));
    var q := CommonQuantity(step, minimum);
    LeastAlgebra(q.n, q.d, step.n * c, step.d, z.n, z.d);
  }

  lemma LeastAlgebra(qn: Pos, qd: Pos, n: Pos, d: Pos, zn: Pos, zd: Pos)
    requires qn * d == n * qd && n * zd <= zn * d
    ensures qn * zd <= zn * qd
  {
    ScaleLe(qd, n * zd, zn * d);
    assert (qn * zd) * d == (n * zd) * qd;
    assert (zn * d) * qd == (zn * qd) * d;
    CancelLe(d, qn * zd, zn * qd);
  }
}
