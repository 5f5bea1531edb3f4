// Amplitudes: complex numbers with exact real parts.

module Complexes {
  datatype Complex = Complex(re: real, im: real)

  const ZERO := Complex(0.0, 0.0)
  const ONE := Complex(1.0, 0.0)

  function Plus(a: Complex, b: Complex): Complex { Complex(a.re + b.re, a.im + b.im) }

  function Mul(a: Complex, b: Complex): Complex {
    Complex(a.re * b.re - a.im * b.im, a.re * b.im + a.im * b.re)
  }

  lemma MulUnits(a: Complex)
    ensures Mul(a, ZERO) == ZERO == Mul(ZERO, a) && Mul(a, ONE) == a == Mul(ONE, a)
  {
  }

  lemma MulAssociates(a: Complex, b: Complex, c: Complex)
    ensures Mul(a, Mul(b, c)) == Mul(Mul(a, b), c)
  {
  }

  lemma MulCommutes(a: Complex, b: Complex)
    ensures Mul(a, b) == Mul(b, a)
  {
  }

  lemma MulDistributes(a: Complex, b: Complex, c: Complex)
    ensures Mul(a, Plus(b, c)) == Plus(Mul(a, b), Mul(a, c)) && Mul(Plus(b, c), a) == Plus(Mul(b, a), Mul(c, a))
  {
  }

  // A factor that does not change a nonzero number is 1.
  lemma OnlyOneFixes(f: Complex, a: Complex)
    requires a != ZERO && Mul(f, a) == a
    ensures f == ONE
  {
    var g, norm := f.re - 1.0, a.re * a.re + a.im * a.im;
    assert g * a.re == f.im * a.im && g * a.im == -(f.im * a.re);
    assert g * norm == 0.0 by {
      assert g * norm == (g * a.re) * a.re + (g * a.im) * a.im;
      assert (f.im * a.im) * a.re == (f.im * a.re) * a.im;
    }
    assert f.im * norm == 0.0 by {
      assert f.im * norm == (f.im * a.re) * a.re + (f.im * a.im) * a.im;
      assert (g * a.re) * a.im == (g * a.im) * a.re;
    }
    PositiveNorm(a, norm);
    NoZeroDivisor(g, norm);
    NoZeroDivisor(f.im, norm);
  }

  lemma NonzeroProduct(a: Complex, b: Complex)
    requires a != ZERO && b != ZERO
    ensures Mul(a, b) != ZERO
  {
    var conj, norm := Complex(a.re, -a.im), a.re * a.re + a.im * a.im;
    PositiveNorm(a, norm);
    if Mul(a, b) == ZERO {
      MulAssociates(conj, a, b);
      MulUnits(conj);
      assert Mul(conj, a) == Complex(norm, 0.0);
      NoZeroDivisor(b.re, norm);
      NoZeroDivisor(b.im, norm);
    }
  }

  lemma PositiveNorm(a: Complex, norm: real)
    requires a != ZERO && norm == a.re * a.re + a.im * a.im
    ensures norm > 0.0
  {
    Square(a.re, a.re * a.re);
    Square(a.im, a.im * a.im);
  }

  lemma Square(x: real, s: real)
    requires s == x * x
    ensures s >= 0.0 && (x != 0.0 ==> s > 0.0)
  {
    if x < 0.0 {
      assert s == (-x) * (-x);
      PositiveProduct(-x, -x, s);
    } else if x > 0.0 {
      PositiveProduct(x, x, s);
    }
  }

  lemma PositiveProduct(x: real, y: real, p: real)
    requires x > 0.0 && y > 0.0 && p == x * y
    ensures p > 0.0
  {
  }

  lemma NoZeroDivisor(x: real, y: real)
    requires x * y == 0.0 && y > 0.0
    ensures x == 0.0
  {
  }

  // ----- sums -------------------------------------------------------------

  ghost function Sum(f: nat -> Complex, n: nat): Complex {
    if n == 0 then ZERO else Plus(Sum(f, n - 1), f(n - 1))
  }

  lemma {:induction false} SumSame(f: nat -> Complex, g: nat -> Complex, n: nat)
    requires forall i: nat :: i < n ==> f(i) == g(i)
    ensures Sum(f, n) == Sum(g, n)
  {
    if n > 0 { SumSame(f, g, n - 1); }
  }

  lemma {:induction false} SumOfZeros(f: nat -> Complex, n: nat)
    requires forall i: nat :: i < n ==> f(i) == ZERO
    ensures Sum(f, n) == ZERO
  {
    if n > 0 { SumOfZeros(f, n - 1); }
  }

  lemma {:induction false} SumOfOne(f: nat -> Complex, n: nat, k: nat)
    requires k < n && forall i: nat :: i < n && i != k ==> f(i) == ZERO
    ensures Sum(f, n) == f(k)
  {
    if k == n - 1 {
      SumOfZeros(f, n - 1);
    } else {
      SumOfOne(f, n - 1, k);
    }
  }

  // Leading zeros can be skipped.
  lemma {:induction false} SumSkips(f: nat -> Complex, g: nat -> Complex, n: nat, m: nat)
    requires forall i: nat :: i < n ==> f(i) == ZERO
    requires forall i: nat :: i < m ==> g(i) == f(n + i)
    ensures Sum(f, n + m) == Sum(g, m)
  {
    if m == 0 {
      SumOfZeros(f, n);
    } else {
      SumSkips(f, g, n, m - 1);
    }
  }

  lemma {:induction false} SumPlus(f: nat -> Complex, g: nat -> Complex, h: nat -> Complex, n: nat)
    requires forall i: nat :: i < n ==> h(i) == Plus(f(i), g(i))
    ensures Sum(h, n) == Plus(Sum(f, n), Sum(g, n))
  {
    if n > 0 { SumPlus(f, g, h, n - 1); }
  }

  lemma {:induction false} SumScaled(c: Complex, f: nat -> Complex, g: nat -> Complex, n: nat)
    requires forall i: nat :: i < n ==> g(i) == Mul(c, f(i))
    ensures Sum(g, n) == Mul(c, Sum(f, n))
  {
    if n == 0 {
      MulUnits(c);
    } else {
      SumScaled(c, f, g, n - 1);
      MulDistributes(c, Sum(f, n - 1), f(n - 1));
    }
  }

  // Rows first or columns first: f(i)(j) summed over both.
  ghost function Row(f: (nat, nat) -> Complex, i: nat): nat -> Complex { (j: nat) => f(i, j) }
  ghost function Column(f: (nat, nat) -> Complex, j: nat): nat -> Complex { (i: nat) => f(i, j) }
  ghost function RowSums(f: (nat, nat) -> Complex, m: nat): nat -> Complex { (i: nat) => Sum(Row(f, i), m) }
  ghost function ColumnSums(f: (nat, nat) -> Complex, n: nat): nat -> Complex { (j: nat) => Sum(Column(f, j), n) }

  lemma {:induction false} SumsExchange(f: (nat, nat) -> Complex, n: nat, m: nat)
    ensures Sum(RowSums(f, m), n) == Sum(ColumnSums(f, n), m)
  {
    if n == 0 {
      SumOfZeros(ColumnSums(f, 0), m);
    } else {
      SumsExchange(f, n - 1, m);
      SumPlus(ColumnSums(f, n - 1), Row(f, n - 1), ColumnSums(f, n), m);
    }
  }
}
