/**
 * Generator polynomials over GF(256). A monic polynomial of degree n whose coefficients follow the
 * recurrence g_j (2^j + 1) = g_(j-1) (2^n + 2^(j-1)) vanishes at 2^i for every i below n, and with
 * it every multiple, so that codewords have zero syndromes.
 */
module Generators {
  import opened Galois
  import opened ReedSolomon

  // ---------------------------------------------------------- the field, once more

  lemma MulUnitLeft(m: nat)
    requires m < 256
    ensures Mul(1, m) == m
    decreases m
  {
    if m != 0 {
      MulUnitLeft(m / 2);
      MulTimes2Left(1, m / 2);
      MulStep(1, m);
      Recompose(m);
      XorComm(m % 2, 2 * (m / 2));
    }
  }

  /** The product does not depend on the order of its factors. */
  lemma {:induction false} MulComm(a: nat, b: nat)
    requires a < 256 && b < 256
    ensures Mul(a, b) == Mul(b, a)
    decreases a
  {
    if a == 0 {
      MulZero(b);
    } else {
      MulComm(a / 2, b);
      MulHalves(a, b);
      MulTimes2Left(b, a / 2);
      MulStep(b, a);
      MulUnitLeft(b);
      MulZero(b);
      XorComm(Times2(Mul(b, a / 2)), Mul(a % 2, b));
    }
  }

  lemma {:induction false} MulAssoc(a: nat, b: nat, c: nat)
    requires a < 256 && b < 256
    ensures Mul(Mul(a, b), c) == Mul(a, Mul(b, c))
    decreases c
  {
    if c != 0 {
      Times2Byte(b);
      MulByte(a, b);
      MulTimes2(a, b);
      MulAssoc(a, Times2(b), c / 2);
      MulXorRight(a, if c % 2 == 1 then b else 0, Mul(Times2(b), c / 2));
    }
  }

  /** Two products of two factors each, with the inner factors exchanged. */
  lemma MulSwap(a: nat, b: nat, c: nat, d: nat)
    requires a < 256 && b < 256 && c < 256 && d < 256
    ensures Mul(Mul(a, b), Mul(c, d)) == Mul(Mul(a, c), Mul(b, d))
  {
    MulByte(b, d);
    MulAssoc(a, b, Mul(c, d));
    MulAssoc(b, c, d);
    MulComm(b, c);
    MulAssoc(c, b, d);
    MulAssoc(a, c, Mul(b, d));
  }

  // ------------------------------------------------------------------ evaluation

  /** The value of a polynomial at a point, by Horner's rule. */
  function Eval(p: seq<nat>, a: nat): (v: nat) {
    if p == [] then 0 else Xor(Mul(Eval(p[..|p| - 1], a), a), p[|p| - 1])
  }

  lemma {:induction false} EvalByte(p: seq<nat>, a: nat)
    requires Bytes(p) && a < 256
    ensures Eval(p, a) < 256
    decreases |p|
  {
    if p != [] {
      EvalByte(p[..|p| - 1], a);
      MulByte(Eval(p[..|p| - 1], a), a);
      XorByte(Mul(Eval(p[..|p| - 1], a), a), p[|p| - 1]);
    }
  }

  /** The first coefficients of a product, as many as are asked for. */
  function Coefficients(q: seq<nat>, g: seq<nat>, n: nat): (c: seq<nat>)
    ensures |c| == n && forall t :: 0 <= t < n ==> c[t] == Product(q, g, t)
  {
    seq(n, t => Product(q, g, t))
  }

  lemma {:induction false} ProductByte(q: seq<nat>, g: seq<nat>, t: int)
    requires Bytes(q) && Bytes(g)
    ensures Product(q, g, t) < 256
    decreases |q|
  {
    if q != [] {
      var d := t - (|q| - 1);
      ProductByte(q[..|q| - 1], g, t);
      if 0 <= d < |g| {
        MulByte(q[|q| - 1], g[d]);
      }
      XorByte(Product(q[..|q| - 1], g, t), Term(q[|q| - 1], g, d));
    }
  }

  /**
   * One more coefficient of the quotient adds a multiple of the generator to the shifted product;
   * here for the first n coefficients, of which the last k meet the generator.
   */
  lemma {:induction false} EvalOneMore(q: seq<nat>, x: nat, g: seq<nat>, a: nat, k: nat)
    requires Bytes(q) && Bytes(g) && x < 256 && a < 256 && k <= |g|
    ensures Eval(Coefficients(q + [x], g, |q| + k), a) == Xor(Eval(Coefficients(q, g, |q| + k), a), Mul(x, Eval(g[..k], a)))
    decreases k
  {
    if k == 0 {
      SamePrefix(q, x, g, |q|);
      assert g[..0] == [];
      XorComm(Eval(Coefficients(q, g, |q|), a), 0);
    } else {
      var n := |q| + k - 1;
      EvalOneMore(q, x, g, a, k - 1);
      EvalCoefficients(q + [x], g, a, n);
      EvalCoefficients(q, g, a, n);
      EvalPrefix(g, a, k);
      ProductSnoc(q, x, g, n);
      CoefficientsAreBytes(q, g, n);
      EvalByte(Coefficients(q, g, n), a);
      EvalByte(g[..k - 1], a);
      HornerStep(Eval(Coefficients(q, g, n), a), Eval(g[..k - 1], a), x, a, Product(q, g, n), g[k - 1]);
    }
  }

  lemma EvalCoefficients(q: seq<nat>, g: seq<nat>, a: nat, n: nat)
    ensures Eval(Coefficients(q, g, n + 1), a) == Xor(Mul(Eval(Coefficients(q, g, n), a), a), Product(q, g, n))
  {
    var c := Coefficients(q, g, n + 1);
    assert c[..n] == Coefficients(q, g, n);
  }

  lemma EvalPrefix(g: seq<nat>, a: nat, k: nat)
    requires 0 < k <= |g|
    ensures Eval(g[..k], a) == Xor(Mul(Eval(g[..k - 1], a), a), g[k - 1])
  {
    assert g[..k][..k - 1] == g[..k - 1];
  }

  lemma SamePrefix(q: seq<nat>, x: nat, g: seq<nat>, n: nat)
    requires n <= |q|
    ensures Coefficients(q + [x], g, n) == Coefficients(q, g, n)
  {
    forall t | 0 <= t < n
      ensures Product(q + [x], g, t) == Product(q, g, t)
    {
      ProductSnoc(q, x, g, t);
      XorComm(Product(q, g, t), 0);
    }
  }

  /** Horner's rule on a sum with a multiple: the multiple comes out. */
  lemma HornerStep(u: nat, v: nat, x: nat, a: nat, p: nat, y: nat)
    requires u < 256 && v < 256 && x < 256
    ensures Xor(Mul(Xor(u, Mul(x, v)), a), Xor(p, Mul(x, y))) == Xor(Xor(Mul(u, a), p), Mul(x, Xor(Mul(v, a), y)))
  {
    MulByte(x, v);
    MulXorLeft(u, Mul(x, v), a);
    MulAssoc(x, v, a);
    MulXorRight(x, Mul(v, a), y);
    XorSwap(Mul(u, a), Mul(x, Mul(v, a)), p, Mul(x, y));
  }

  lemma CoefficientsAreBytes(q: seq<nat>, g: seq<nat>, n: nat)
    requires Bytes(q) && Bytes(g)
    ensures Bytes(Coefficients(q, g, n))
  {
    forall t | 0 <= t < n
      ensures Product(q, g, t) < 256
    {
      ProductByte(q, g, t);
    }
  }

  lemma {:induction false} ProductOutside(q: seq<nat>, g: seq<nat>, t: int)
    requires t >= |q| + |g| - 1 && |g| > 0
    ensures Product(q, g, t) == 0
    decreases |q|
  {
    if q != [] {
      ProductOutside(q[..|q| - 1], g, t);
    }
  }

  lemma {:induction false} ZeroEval(p: seq<nat>, a: nat)
    requires forall t :: 0 <= t < |p| ==> p[t] == 0
    ensures Eval(p, a) == 0
    decreases |p|
  {
    if p != [] {
      ZeroEval(p[..|p| - 1], a);
      MulZero(a);
    }
  }

  /** What vanishes at a point vanishes there after multiplication by anything. */
  lemma {:induction false} MultipleVanishes(q: seq<nat>, g: seq<nat>, a: nat)
    requires Bytes(q) && Bytes(g) && |g| > 0 && a < 256 && Eval(g, a) == 0
    ensures Eval(Coefficients(q, g, |q| + |g| - 1), a) == 0
    decreases |q|
  {
    if q == [] {
      ZeroEval(Coefficients(q, g, |g| - 1), a);
    } else {
      var init := q[..|q| - 1];
      MultipleVanishes(init, g, a);
      VanishesOnceMore(init, q[|q| - 1], g, a);
      assert q == init + [q[|q| - 1]];
    }
  }

  lemma VanishesOnceMore(q: seq<nat>, x: nat, g: seq<nat>, a: nat)
    requires Bytes(q) && Bytes(g) && x < 256 && |g| > 0 && a < 256 && Eval(g, a) == 0
    requires Eval(Coefficients(q, g, |q| + |g| - 1), a) == 0
    ensures Eval(Coefficients(q + [x], g, |q| + |g|), a) == 0
  {
    assert g[..|g|] == g;
    EvalOneMore(q, x, g, a, |g|);
    EvalCoefficients(q, g, a, |q| + |g| - 1);
    ProductOutside(q, g, |q| + |g| - 1);
    MulZero(a);
  }

  /** A codeword vanishes wherever its generator does. */
  lemma CodewordVanishes(c: seq<nat>, q: seq<nat>, g: seq<nat>, a: nat)
    requires IsProduct(c, q, g) && Bytes(q) && Bytes(g) && a < 256 && Eval(g, a) == 0
    ensures Eval(c, a) == 0
  {
    assert c == Coefficients(q, g, |q| + |g| - 1);
    MultipleVanishes(q, g, a);
  }

  // ------------------------------------------------------------- powers of two

  /** Tables of powers that repeat after one period. */
  ghost predicate Cyclic(exp: seq<nat>, log: seq<nat>) {
    GoodTables(exp, log) && forall i :: 0 <= i < 255 ==> Repeats(exp, i)
  }

  predicate Repeats(exp: seq<nat>, i: nat)
    requires i + 255 < |exp|
  {
    exp[i + 255] == exp[i]
  }

  /** The power of x with this exponent, whatever its size. */
  function P(exp: seq<nat>, i: nat): nat
    requires |exp| == 510
  {
    exp[i % 255]
  }

  lemma PowerMul(exp: seq<nat>, log: seq<nat>, i: nat, j: nat)
    requires Cyclic(exp, log)
    ensures Mul(P(exp, i), P(exp, j)) == P(exp, i + j) && P(exp, i) < 256
  {
    PowersMultiply(exp, log, i % 255, j % 255);
    var k := i % 255 + j % 255;
    SumOfRemainders(i, j);
    if k >= 255 {
      assert Repeats(exp, k - 255);
    }
  }

  lemma SumOfRemainders(i: nat, j: nat)
    ensures var k := i % 255 + j % 255; (i + j) % 255 == if k < 255 then k else k - 255
  {
  }

  lemma TimesNext(p: nat, q: nat)
    ensures Mul(p, Xor(q, 1)) == Xor(Mul(p, q), p)
  {
    MulXorRight(p, q, 1);
    MulUnit(p);
  }

  lemma SmallPower(exp: seq<nat>, d: nat)
    requires |exp| == 510 && d < 255
    ensures P(exp, d) == exp[d]
  {
  }

  /** Every unit is a power, so it can be divided out. */
  lemma NoZeroDivisors(exp: seq<nat>, log: seq<nat>, x: nat, y: nat)
    requires Cyclic(exp, log) && 0 < x < 256 && y < 256 && Mul(x, y) == 0
    ensures y == 0
  {
    var l := log[x];
    SmallPower(exp, l);
    assert P(exp, l) == x;
    var z := Inverse(exp, log, l);
    MulAssoc(z, x, y);
    MulUnitLeft(y);
  }

  lemma Inverse(exp: seq<nat>, log: seq<nat>, l: nat) returns (z: nat)
    requires Cyclic(exp, log) && l < 255
    ensures z < 256 && Mul(z, P(exp, l)) == 1
  {
    z := P(exp, 255 - l);
    PowerMul(exp, log, 255 - l, l);
    assert 255 - l + l == 255;
  }

  lemma PowerIsUnit(exp: seq<nat>, log: seq<nat>, i: nat)
    requires Cyclic(exp, log)
    ensures 0 < P(exp, i) < 256
  {
    var z := Inverse(exp, log, i % 255);
    MulZero(z);
    PowerMul(exp, log, i, 0);
  }

  /** The table gives the logarithm of 2^d + 1, and 2^d is not 1. */
  ghost predicate Succeeds(exp: seq<nat>, succ: seq<nat>, d: nat)
    requires |exp| == 510 && |succ| == 31 && d < 31
  {
    succ[d] < 255 && Xor(exp[d], 1) == exp[succ[d]] && exp[d] != 1
  }

  ghost predicate Successors(exp: seq<nat>, succ: seq<nat>) {
    |exp| == 510 && |succ| == 31 && forall d :: 0 < d < 31 ==> Succeeds(exp, succ, d)
  }

  /** The sum of two powers not too far apart. */
  lemma SumOfPowers(exp: seq<nat>, log: seq<nat>, succ: seq<nat>, n: nat, i: nat)
    requires Cyclic(exp, log) && Successors(exp, succ) && i < n <= i + 30
    ensures Xor(P(exp, n), P(exp, i)) == P(exp, i + succ[n - i])
  {
    var d := n - i;
    SmallSum(exp, succ, d);
    PowerMul(exp, log, i, d);
    assert i + d == n;
    PowerMul(exp, log, i, succ[d]);
    TimesNext(P(exp, i), P(exp, d));
  }

  lemma SmallSum(exp: seq<nat>, succ: seq<nat>, d: nat)
    requires Successors(exp, succ) && 0 < d < 31
    ensures Xor(P(exp, d), 1) == P(exp, succ[d])
  {
    assert Succeeds(exp, succ, d);
    SmallPower(exp, d);
    SmallPower(exp, succ[d]);
  }

  // ---------------------------------------------------- rows that follow the recurrence

  /** The logarithm of coefficient j of a generator, the leading one included. */
  function LogOf(row: seq<nat>, j: nat): nat
    requires j <= |row|
  {
    if j == 0 then 0 else row[j - 1]
  }

  /** Equal up to one or two periods. */
  predicate Same(a: int, b: int) {
    a == b || a == b + 255 || b == a + 255 || a == b + 510 || b == a + 510
  }

  /** The recurrence of the coefficients, in logarithms. */
  predicate Grows(row: seq<nat>, succ: seq<nat>, j: int) {
    1 <= j <= |row| <= 30 && |succ| == 31 && LogOf(row, j) < 255 &&
    Same(LogOf(row, j) + succ[j], LogOf(row, j - 1) + (j - 1) + succ[|row| - j + 1])
  }

  /** A row of the table: logarithms of the coefficients, which follow the recurrence. */
  ghost predicate GoodRow(row: seq<nat>, succ: seq<nat>) {
    0 < |row| <= 30 && forall j :: 1 <= j <= |row| ==> Grows(row, succ, j)
  }

  lemma GoodRowIsLogarithms(row: seq<nat>, succ: seq<nat>)
    requires GoodRow(row, succ)
    ensures Logarithms(row)
  {
    forall m | 0 <= m < |row|
      ensures row[m] < 255
    {
      assert Grows(row, succ, m + 1);
    }
  }

  lemma SamePower(exp: seq<nat>, a: nat, b: nat)
    requires |exp| == 510 && Same(a, b)
    ensures P(exp, a) == P(exp, b)
  {
  }

  lemma XorMove(a: nat, b: nat, c: nat, d: nat)
    requires Xor(a, b) == Xor(c, d)
    ensures Xor(a, d) == Xor(b, c)
  {
    XorSwap(a, d, b, c);
    XorComm(d, c);
    XorSelf(Xor(c, d));
    XorZero(Xor(a, d), Xor(b, c));
  }

  /** The coefficients of a generator satisfy g_j 2^j + g_(j-1) 2^(j-1) = g_j + g_(j-1) 2^n. */
  lemma Recurrence(exp: seq<nat>, log: seq<nat>, succ: seq<nat>, row: seq<nat>, j: nat)
    requires Cyclic(exp, log) && Successors(exp, succ) && GoodRow(row, succ) && Logarithms(row) && 1 <= j <= |row|
    ensures var x, y, n := P(exp, LogOf(row, j)), P(exp, LogOf(row, j - 1)), |row|;
            Xor(Mul(x, P(exp, j)), Mul(y, P(exp, j - 1))) == Xor(x, Mul(y, P(exp, n)))
  {
    var n := |row|;
    var l, k := LogOf(row, j), LogOf(row, j - 1);
    var x, y := P(exp, l), P(exp, k);
    assert Mul(x, Xor(P(exp, j), 1)) == Mul(y, Xor(P(exp, n), P(exp, j - 1))) by {
      BothSides(exp, log, succ, row, j);
    }
    TimesNext(x, P(exp, j));
    MulXorRight(y, P(exp, n), P(exp, j - 1));
    XorMove(Mul(x, P(exp, j)), x, Mul(y, P(exp, n)), Mul(y, P(exp, j - 1)));
  }

  /** The recurrence as it stands in logarithms: g_j (2^j + 1) = g_(j-1) (2^n + 2^(j-1)). */
  lemma BothSides(exp: seq<nat>, log: seq<nat>, succ: seq<nat>, row: seq<nat>, j: nat)
    requires Cyclic(exp, log) && Successors(exp, succ) && GoodRow(row, succ) && Logarithms(row) && 1 <= j <= |row|
    ensures Mul(P(exp, LogOf(row, j)), Xor(P(exp, j), 1)) == Mul(P(exp, LogOf(row, j - 1)), Xor(P(exp, |row|), P(exp, j - 1)))
  {
    var n := |row|;
    var l, k := LogOf(row, j), LogOf(row, j - 1);
    assert Grows(row, succ, j) && Succeeds(exp, succ, j);
    SmallPower(exp, j);
    SmallPower(exp, succ[j]);
    SumOfPowers(exp, log, succ, n, j - 1);
    PowerMul(exp, log, l, succ[j]);
    PowerMul(exp, log, k, j - 1 + succ[n - j + 1]);
    SamePower(exp, l + succ[j], k + (j - 1) + succ[n - j + 1]);
  }

  /** The generator with coefficient j multiplied by 2^j. */
  function Tilted(exp: seq<nat>, g: seq<nat>): (h: seq<nat>)
    requires |exp| == 510
    ensures |h| == |g| && forall j :: 0 <= j < |g| ==> h[j] == Mul(g[j], P(exp, j))
  {
    seq(|g|, j requires 0 <= j < |g| => Mul(g[j], P(exp, j)))
  }

  /** What the recurrence says of a polynomial and its tilted form. */
  ghost predicate Recurs(g: seq<nat>, h: seq<nat>, r: nat) {
    && |g| == |h| > 0 && Bytes(g) && Bytes(h) && r < 256 && h[0] == g[0]
    && (forall j {:trigger h[j]} :: 1 <= j < |g| ==> Xor(h[j], h[j - 1]) == Xor(g[j], Mul(g[j - 1], r)))
    && h[|g| - 1] == Mul(g[|g| - 1], r)
  }

  lemma HornerPair(u: nat, u': nat, v: nat, v': nat, a: nat, r: nat, x: nat, x': nat, y: nat, y': nat)
    requires u < 256 && u' < 256 && v < 256 && v' < 256 && r < 256 && a < 256
    requires Xor(u, u') == Xor(v, Mul(v', r)) && Xor(x, x') == Xor(y, Mul(y', r)) && y' < 256
    ensures Xor(Xor(Mul(u, a), x), Xor(Mul(u', a), x')) == Xor(Xor(Mul(v, a), y), Mul(Xor(Mul(v', a), y'), r))
  {
    XorSwap(Mul(u, a), x, Mul(u', a), x');
    MulXorLeft(u, u', a);
    MulByte(v', r);
    MulXorLeft(v, Mul(v', r), a);
    MulAssoc(v', r, a);
    MulComm(r, a);
    MulAssoc(v', a, r);
    MulByte(v', a);
    MulXorLeft(Mul(v', a), y', r);
    XorSwap(Mul(v, a), y, Mul(Mul(v', a), r), Mul(y', r));
  }

  /** The recurrence carries over to the values of the first coefficients at any point. */
  lemma {:induction false} PrefixRecurs(g: seq<nat>, h: seq<nat>, r: nat, a: nat, m: nat)
    requires Recurs(g, h, r) && a < 256 && 1 <= m <= |g|
    ensures Xor(Eval(h[..m], a), Eval(h[..m - 1], a)) == Xor(Eval(g[..m], a), Mul(Eval(g[..m - 1], a), r))
    decreases m
  {
    EvalPrefix(g, a, m);
    EvalPrefix(h, a, m);
    if m == 1 {
      assert g[..0] == [] && h[..0] == [];
      MulZero(a);
      MulZero(r);
    } else {
      PrefixRecurs(g, h, r, a, m - 1);
      EvalPrefix(g, a, m - 1);
      EvalPrefix(h, a, m - 1);
      EvalByte(g[..m - 1], a);
      EvalByte(g[..m - 2], a);
      EvalByte(h[..m - 1], a);
      EvalByte(h[..m - 2], a);
      HornerPair(Eval(h[..m - 1], a), Eval(h[..m - 2], a), Eval(g[..m - 1], a), Eval(g[..m - 2], a), a, r,
                 h[m - 1], h[m - 2], g[m - 1], g[m - 2]);
    }
  }

  /** (x + 1) times the tilted polynomial is (x + r) times the polynomial. */
  lemma TiltedTimes(g: seq<nat>, h: seq<nat>, r: nat, a: nat)
    requires Recurs(g, h, r) && a < 256
    ensures Xor(Mul(Eval(h, a), a), Eval(h, a)) == Mul(Eval(g, a), Xor(a, r))
  {
    var n := |g|;
    assert g[..n] == g && h[..n] == h;
    PrefixRecurs(g, h, r, a, n);
    EvalPrefix(g, a, n);
    EvalPrefix(h, a, n);
    EvalByte(g, a);
    EvalByte(h, a);
    EvalByte(g[..n - 1], a);
    EvalByte(h[..n - 1], a);
    LastPair(Eval(h, a), Eval(h[..n - 1], a), Eval(g, a), Eval(g[..n - 1], a), a, r, g[n - 1]);
  }

  lemma LastPair(u: nat, u': nat, v: nat, v': nat, a: nat, r: nat, y: nat)
    requires u < 256 && u' < 256 && v < 256 && v' < 256 && r < 256 && a < 256 && y < 256
    requires Xor(u, u') == Xor(v, Mul(v', r)) && u == Xor(Mul(u', a), Mul(y, r)) && v == Xor(Mul(v', a), y)
    ensures Xor(Mul(u, a), u) == Mul(v, Xor(a, r))
  {
    HornerPair(u, u', v, v', a, r, 0, Mul(y, r), 0, y);
    XorComm(Mul(u, a), 0);
    XorComm(Mul(v, a), 0);
    MulXorRight(v, a, r);
  }

  lemma GeneratorIsPowers(exp: seq<nat>, log: seq<nat>, row: seq<nat>, j: nat)
    requires Cyclic(exp, log) && Logarithms(row) && j <= |row|
    ensures Generator(exp, row)[j] == P(exp, LogOf(row, j)) < 256
  {
    PowerMul(exp, log, LogOf(row, j), 0);
  }

  lemma GeneratorBytes(exp: seq<nat>, log: seq<nat>, row: seq<nat>)
    requires Cyclic(exp, log) && Logarithms(row)
    ensures Bytes(Generator(exp, row)) && Bytes(Tilted(exp, Generator(exp, row)))
  {
    var g := Generator(exp, row);
    forall j | 0 <= j < |g|
      ensures g[j] < 256 && Mul(g[j], P(exp, j)) < 256
    {
      GeneratorIsPowers(exp, log, row, j);
      MulByte(g[j], P(exp, j));
    }
  }

  lemma TiltedAtFirst(exp: seq<nat>, log: seq<nat>, g: seq<nat>)
    requires Cyclic(exp, log) && |g| > 0
    ensures Tilted(exp, g)[0] == g[0]
  {
    MulUnit(g[0]);
  }

  lemma TiltedRecurrence(exp: seq<nat>, log: seq<nat>, succ: seq<nat>, row: seq<nat>, j: nat)
    requires Cyclic(exp, log) && Successors(exp, succ) && GoodRow(row, succ) && Logarithms(row) && 1 <= j <= |row|
    ensures var g := Generator(exp, row);
            var h := Tilted(exp, g);
            Xor(h[j], h[j - 1]) == Xor(g[j], Mul(g[j - 1], P(exp, |row|)))
  {
    GeneratorIsPowers(exp, log, row, j);
    GeneratorIsPowers(exp, log, row, j - 1);
    Recurrence(exp, log, succ, row, j);
  }

  lemma TiltedRecurs(exp: seq<nat>, log: seq<nat>, succ: seq<nat>, row: seq<nat>)
    requires Cyclic(exp, log) && Successors(exp, succ) && GoodRow(row, succ) && Logarithms(row)
    ensures var g := Generator(exp, row); Recurs(g, Tilted(exp, g), P(exp, |row|))
  {
    var g := Generator(exp, row);
    var h := Tilted(exp, g);
    GeneratorBytes(exp, log, row);
    TiltedAtFirst(exp, log, g);
    PowerMul(exp, log, |row|, 0);
    forall j | 1 <= j < |g|
      ensures Xor(h[j], h[j - 1]) == Xor(g[j], Mul(g[j - 1], P(exp, |row|)))
    {
      TiltedRecurrence(exp, log, succ, row, j);
    }
  }

  lemma TiltStep(p: nat, one: nat, v: nat, b: nat, y: nat, p': nat)
    requires p < 256 && one < 256 && v < 256 && b < 256 && y < 256 && p' == Mul(p, one)
    ensures Xor(Mul(Mul(p, v), Mul(one, b)), Mul(y, p')) == Mul(p', Xor(Mul(v, b), y))
  {
    MulSwap(p, v, one, b);
    MulByte(p, one);
    MulComm(y, p');
    MulXorRight(p', Mul(v, b), y);
  }

  /** The tilted polynomial at one power is a multiple of the polynomial at the power before. */
  lemma {:induction false} TiltedAt(exp: seq<nat>, log: seq<nat>, g: seq<nat>, i: nat, m: nat)
    requires Cyclic(exp, log) && Bytes(g) && i >= 1 && 1 <= m <= |g|
    ensures Eval(Tilted(exp, g)[..m], P(exp, i)) == Mul(P(exp, m - 1), Eval(g[..m], P(exp, i - 1)))
    decreases m
  {
    var h, a, b := Tilted(exp, g), P(exp, i), P(exp, i - 1);
    EvalPrefix(h, a, m);
    EvalPrefix(g, b, m);
    if m == 1 {
      assert g[..0] == [] && h[..0] == [];
      MulZero(a);
      MulZero(b);
      MulUnit(g[0]);
      MulUnitLeft(g[0]);
    } else {
      TiltedAt(exp, log, g, i, m - 1);
      PowerMul(exp, log, 1, i - 1);
      PowerMul(exp, log, i - 1, 1);
      PowerMul(exp, log, m - 2, 1);
      EvalByte(g[..m - 1], b);
      TiltStep(P(exp, m - 2), P(exp, 1), Eval(g[..m - 1], b), b, g[m - 1], P(exp, m - 1));
    }
  }

  lemma DividedOut(exp: seq<nat>, log: seq<nat>, succ: seq<nat>, n: nat, i: nat, v: nat)
    requires Cyclic(exp, log) && Successors(exp, succ) && i < n <= 30 && v < 256
    requires Mul(v, Xor(P(exp, i), P(exp, n))) == 0
    ensures v == 0
  {
    XorComm(P(exp, i), P(exp, n));
    SumOfPowers(exp, log, succ, n, i);
    PowerIsUnit(exp, log, i + succ[n - i]);
    MulComm(v, P(exp, i + succ[n - i]));
    NoZeroDivisors(exp, log, P(exp, i + succ[n - i]), v);
  }

  /** A root of the tilted polynomial, or the point 1, is a root of the polynomial. */
  lemma RootFromTilted(exp: seq<nat>, log: seq<nat>, succ: seq<nat>, g: seq<nat>, h: seq<nat>, n: nat, i: nat)
    requires Cyclic(exp, log) && Successors(exp, succ) && i < n <= 30 && Recurs(g, h, P(exp, n))
    requires i == 0 || Eval(h, P(exp, i)) == 0
    ensures Eval(g, P(exp, i)) == 0
  {
    var a := P(exp, i);
    PowerMul(exp, log, i, 0);
    TiltedTimes(g, h, P(exp, n), a);
    EvalByte(g, a);
    Cancels(Eval(h, a), a);
    DividedOut(exp, log, succ, n, i, Eval(g, a));
  }

  lemma Cancels(u: nat, a: nat)
    ensures u == 0 || a == 1 ==> Xor(Mul(u, a), u) == 0
  {
    MulUnit(u);
    XorSelf(u);
    MulZero(a);
  }

  lemma TiltedRoot(exp: seq<nat>, log: seq<nat>, g: seq<nat>, i: nat)
    requires Cyclic(exp, log) && Bytes(g) && |g| > 0 && i >= 1 && Eval(g, P(exp, i - 1)) == 0
    ensures Eval(Tilted(exp, g), P(exp, i)) == 0
  {
    TiltedAt(exp, log, g, i, |g|);
    assert Tilted(exp, g)[..|g|] == Tilted(exp, g) && g[..|g|] == g;
  }

  /** Roots follow one another: from 1 on, each power below 2^n. */
  lemma {:induction false} RootsFollow(exp: seq<nat>, log: seq<nat>, succ: seq<nat>, g: seq<nat>, n: nat, i: nat)
    requires Cyclic(exp, log) && Successors(exp, succ) && Recurs(g, Tilted(exp, g), P(exp, n)) && i < n <= 30
    ensures Eval(g, P(exp, i)) == 0
    decreases i
  {
    if i > 0 {
      RootsFollow(exp, log, succ, g, n, i - 1);
      TiltedRoot(exp, log, g, i);
    }
    RootFromTilted(exp, log, succ, g, Tilted(exp, g), n, i);
  }

  /** A generator whose row follows the recurrence vanishes at every power of 2 below its length. */
  lemma GeneratorVanishes(exp: seq<nat>, log: seq<nat>, succ: seq<nat>, row: seq<nat>, i: nat)
    requires Cyclic(exp, log) && Successors(exp, succ) && GoodRow(row, succ) && Logarithms(row) && i < |row|
    ensures Eval(Generator(exp, row), P(exp, i)) == 0
  {
    TiltedRecurs(exp, log, succ, row);
    RootsFollow(exp, log, succ, Generator(exp, row), |row|, i);
  }
}
