/**
 Divisibility and positive rationals in lowest terms: the facts the two step algorithms rest on.
 */
module Rationals {

  type Pos = n: int | n > 0 witness 1

  predicate Divides(a: Pos, b: int) {
    b % a == 0
  }

  lemma DividesBy(a: Pos, k: int)
    ensures Divides(a, a * k)
  {
    var q, r := (a * k) / a, (a * k) % a;
    assert r == a * (k - q);
    Scale(a, k - q);
  }

  lemma Scale(a: Pos, k: int)
    ensures k >= 1 ==> a * k >= a
    ensures k <= 0 ==> a * k <= 0
    ensures k <= -1 ==> a * k <= 0 - a
  {
    if k >= 1 {
      assert a * (k - 1) >= 0;
    } else if k <= -1 {
      assert a * (k + 1) <= 0;
    }
  }

  lemma Whole(a: Pos, b: int)
    requires Divides(a, b)
    ensures b == a * (b / a) && (b > 0 ==> b / a > 0)
  {
    Scale(a, b / a);
  }

  lemma DividesProduct(a: Pos, b: int, c: int)
    requires Divides(a, b)
    ensures Divides(a, b * c) && Divides(a, c * b)
  {
    var k := b / a;
    Whole(a, b);
    DividesBy(a, k * c);
    assert a * (k * c) == b * c == c * b;
  }

  lemma DividesSum(a: Pos, b: int, c: int)
    requires Divides(a, b) && Divides(a, c)
    ensures Divides(a, b + c)
  {
    var k, m := b / a, c / a;
    Whole(a, b);
    Whole(a, c);
    DividesBy(a, k + m);
    assert a * (k + m) == b + c;
  }

  lemma DividesTransitive(a: Pos, b: Pos, c: int)
    requires Divides(a, b) && Divides(b, c)
    ensures Divides(a, c)
  {
    var k := c / b;
    Whole(b, c);
    DividesProduct(a, b, k);
  }

  lemma DividesBoth(a: Pos, b: Pos)
    requires Divides(a, b) && Divides(b, a)
    ensures a == b
  {
    var k, m := b / a, a / b;
    Whole(a, b);
    Whole(b, a);
    Scale(a, k);
    Scale(b, m);
  }

  // ----- Greatest common divisor, least common multiple -----

  function Gcd(a: Pos, b: nat): Pos
    decreases b
  {
    if b == 0 then a else Gcd(b, a % b)
  }

  /** The greatest common divisor is a combination of the two numbers. */
  lemma {:induction false} Bezout(a: Pos, b: nat) returns (x: int, y: int)
    ensures x * a + y * b == Gcd(a, b)
    decreases b
  {
    if b == 0 {
      x, y := 1, 0;
    } else {
      var u, v := Bezout(b, a % b);
      x, y := v, u - v * (a / b);
      var q := a / b;
      assert a % b == a - b * q;
      assert v * (a - b * q) == v * a - v * q * b;
    }
  }

  lemma {:induction false} GcdDivides(a: Pos, b: nat)
    ensures Divides(Gcd(a, b), a) && Divides(Gcd(a, b), b)
    decreases b
  {
    hide Divides;
    if b == 0 {
      DividesBy(a, 1);
      DividesBy(a, 0);
    } else {
      var g := Gcd(a, b);
      GcdDivides(b, a % b);
      DividesProduct(g, b, a / b);
      DividesSum(g, b * (a / b), a % b);
    }
  }

  lemma GcdGreatest(d: Pos, a: Pos, b: nat)
    requires Divides(d, a) && Divides(d, b)
    ensures Divides(d, Gcd(a, b))
  {
    var x, y := Bezout(a, b);
    DividesProduct(d, a, x);
    DividesProduct(d, b, y);
    DividesSum(d, x * a, y * b);
  }

  /** A divisor of a product that shares nothing with one factor divides the other. */
  lemma Euclid(a: Pos, b: Pos, c: int)
    requires Gcd(a, b) == 1 && Divides(a, b * c)
    ensures Divides(a, c)
  {
    var x, y := Bezout(a, b);
    DividesBy(a, x * c);
    DividesProduct(a, b * c, y);
    DividesSum(a, a * (x * c), y * (b * c));
    assert a * (x * c) + y * (b * c) == (x * a + y * b) * c;
  }

  lemma GcdCommutes(a: Pos, b: Pos)
    ensures Gcd(a, b) == Gcd(b, a)
  {
    GcdDivides(a, b);
    GcdDivides(b, a);
    GcdGreatest(Gcd(a, b), b, a);
    GcdGreatest(Gcd(b, a), a, b);
    DividesBoth(Gcd(a, b), Gcd(b, a));
  }

  function Lcm(a: Pos, b: Pos): Pos {
    GcdDivides(a, b);
    Whole(Gcd(a, b), a);
    Product(a / Gcd(a, b), b);
    a / Gcd(a, b) * b
  }

  lemma Product(a: Pos, b: Pos)
    ensures a * b > 0
  {
  }

  /** The least common multiple is a multiple of both numbers and divides every common multiple. */
  lemma LcmDivides(a: Pos, b: Pos)
    ensures Divides(a, Lcm(a, b)) && Divides(b, Lcm(a, b))
  {
    var g := Gcd(a, b);
    GcdDivides(a, b);
    Whole(g, a);
    Whole(g, b);
    var s, t := a / g, b / g;
    assert Lcm(a, b) == s * b == a * t by {
      assert s * (g * t) == (g * s) * t;
    }
    DividesBy(b, s);
    DividesBy(a, t);
  }

  lemma LcmLeast(a: Pos, b: Pos, m: int)
    requires Divides(a, m) && Divides(b, m)
    ensures Divides(Lcm(a, b), m)
  {
    hide Divides, Gcd;
    var g, l := Gcd(a, b), Lcm(a, b);
    GcdDivides(a, b);
    Whole(g, a);
    Whole(a, m);
    Whole(b, m);
    var x, y := Bezout(a, b);
    var s, t := m / a, m / b;
    LcmAlgebra(a, b, m, g, a / g, x, y, s, t);
    Cancel(g, m, l * (t * x + s * y));
    DividesBy(l, t * x + s * y);
  }

  lemma LcmAlgebra(a: int, b: int, m: int, g: int, h: int, x: int, y: int, s: int, t: int)
    requires m == a * s && m == b * t && x * a + y * b == g && a == g * h
    ensures g * m == g * ((h * b) * (t * x + s * y))
  {
    assert m * (x * a) == (b * t) * (x * a) == (a * b) * (t * x);
    assert m * (y * b) == (a * s) * (y * b) == (a * b) * (s * y);
    assert g * m == m * (x * a) + m * (y * b) == (a * b) * (t * x + s * y);
    assert a * b == g * (h * b);
  }

  lemma Cancel(g: Pos, a: int, b: int)
    requires g * a == g * b
    ensures a == b
  {
    assert g * (a - b) == 0;
    Scale(g, a - b);
  }

  // ----- Positive rationals -----

  datatype Ratio = Ratio(n: Pos, d: Pos) {
    predicate Lowest() {
      Gcd(n, d) == 1
    }

    predicate AtMost(other: Ratio) {
      n * other.d <= other.n * d
    }
  }

  /** y is a whole multiple of x. */
  predicate IsMultiple(y: Ratio, x: Ratio) {
    Product(x.n, y.d);
    Divides(x.n * y.d, y.n * x.d)
  }

  predicate SameValue(x: Ratio, y: Ratio) {
    x.n * y.d == y.n * x.d
  }

  /** In lowest terms, as a Fraction or as_integer_ratio gives it. */
  function Lowest(n: Pos, d: Pos): Ratio {
    GcdDivides(n, d);
    Whole(Gcd(n, d), n);
    Whole(Gcd(n, d), d);
    Ratio(n / Gcd(n, d), d / Gcd(n, d))
  }

  lemma CofactorsCoprime(g: Pos, a: Pos, b: Pos)
    requires g * a > 0 && g * b > 0 && g == Gcd(g * a, g * b)
    ensures Gcd(a, b) == 1
  {
    hide Gcd, Divides;
    var h := Gcd(a, b);
    GcdDivides(a, b);
    Product(g, h);
    CommonFactor(g, h, a);
    CommonFactor(g, h, b);
    GcdGreatest(g * h, g * a, g * b);
    Whole(g * h, g);
    var q := g / (g * h);
    assert g * 1 == g * (h * q);
    Cancel(g, 1, h * q);
    Scale(h, q);
  }

  lemma CommonFactor(g: Pos, h: Pos, a: Pos)
    requires Divides(h, a) && g * h > 0
    ensures Divides(g * h, g * a)
  {
    Whole(h, a);
    DividesBy(g * h, a / h);
    assert (g * h) * (a / h) == g * (h * (a / h));
  }

  lemma LowestIsLowest(n: Pos, d: Pos)
    ensures Lowest(n, d).Lowest() && SameValue(Lowest(n, d), Ratio(n, d))
  {
    hide Gcd, Divides;
    var g := Gcd(n, d);
    GcdDivides(n, d);
    Whole(g, n);
    Whole(g, d);
    var a: Pos, b: Pos := n / g, d / g;
    CofactorsCoprime(g, a, b);
    assert a * d == n * b by { assert a * (g * b) == (g * a) * b; }
  }

  /** Two fractions in lowest terms with one value are one fraction. */
  lemma LowestUnique(x: Ratio, y: Ratio)
    requires x.Lowest() && y.Lowest() && SameValue(x, y)
    ensures x == y
  {
    Coprime(x, y);
    Coprime(y, x);
    DividesBoth(x.n, y.n);
    DividesBoth(x.d, y.d);
  }

  lemma Coprime(x: Ratio, y: Ratio)
    requires x.Lowest() && SameValue(x, y)
    ensures Divides(x.n, y.n) && Divides(x.d, y.d)
  {
    DividesBy(x.n, y.d);
    Euclid(x.n, x.d, y.n);
    DividesBy(x.d, y.n);
    GcdCommutes(x.n, x.d);
    Euclid(x.d, x.n, y.d);
  }
}
