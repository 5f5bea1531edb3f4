// The gate kernels act on signed rows as conjugation acts on operators: they
// keep products, so what stabilizes the state is conjugated along with it.

module GateAction {
  import opened Symplectic
  import opened PauliPhase
  import opened GateCache
  import opened Tableau
  import opened StabilizerGroup
  import opened StabilizerState

  // ----- one and two qubits -----------------------------------------------

  lemma HAt(xh: bool, zh: bool, xi: bool, zi: bool)
    ensures (Exponent(zh, xh, zi, xi) + Twice(xh && zh) + Twice(xi && zi)) % 4
            == (Exponent(xh, zh, xi, zi) + Twice((xh != xi) && (zh != zi))) % 4
  {
  }

  lemma SAt(xh: bool, zh: bool, xi: bool, zi: bool)
    ensures (Exponent(xh, xh != zh, xi, xi != zi) + Twice(xh && zh) + Twice(xi && zi)) % 4
            == (Exponent(xh, zh, xi, zi) + Twice((xh != xi) && (zh != zi))) % 4
  {
  }

  predicate CXFlips(xc: bool, zc: bool, xt: bool, zt: bool) { xc && zt && xt == zc }

  lemma CXAt(xc: bool, zc: bool, xt: bool, zt: bool, uc: bool, wc: bool, ut: bool, wt: bool)
    ensures (Exponent(xc, zc != zt, uc, wc != wt) + Exponent(xt != xc, zt, ut != uc, wt)
             + Twice(CXFlips(xc, zc, xt, zt)) + Twice(CXFlips(uc, wc, ut, wt))) % 4
            == (Exponent(xc, zc, uc, wc) + Exponent(xt, zt, ut, wt)
                + Twice(CXFlips(xc != uc, zc != wc, xt != ut, zt != wt))) % 4
  {
  }

  // ----- whole rows -------------------------------------------------------

  lemma {:induction false} ChangeOne(f: nat -> int, g: nat -> int, n: nat, q: nat)
    requires q < n && forall j: nat :: j < n && j != q ==> f(j) == g(j)
    ensures Sum(g, n) - g(q) == Sum(f, n) - f(q)
  {
    if q == n - 1 {
      SumSame(f, g, n - 1);
    } else {
      ChangeOne(f, g, n - 1, q);
    }
  }

  lemma {:induction false} ChangeTwo(f: nat -> int, g: nat -> int, n: nat, c: nat, t: nat)
    requires c < n && t < n && c != t && forall j: nat :: j < n && j != c && j != t ==> f(j) == g(j)
    ensures Sum(g, n) - g(c) - g(t) == Sum(f, n) - f(c) - f(t)
  {
    if c == n - 1 {
      ChangeOne(f, g, n - 1, t);
    } else if t == n - 1 {
      ChangeOne(f, g, n - 1, c);
    } else {
      ChangeTwo(f, g, n - 1, c, t);
    }
  }

  lemma Shift(sum: int, sum': int, e: int, e': int, flips: int, flips': int)
    requires sum' - e' == sum - e && (e' + flips) % 4 == (e + flips') % 4
    ensures (sum' + flips) % 4 == (sum + flips') % 4
  {
    AddMod4(e' + flips, e + flips', sum - e, sum - e);
  }

  // The phase of a product of conjugated rows, up to the signs they got.
  lemma ConjugatedPhase(n: nat, g: Gate, h: Row, i: Row)
    requires g.Ok(n) && IsRow(h, n) && IsRow(i, n)
    ensures (ExactSum(GateRow(g, h), GateRow(g, i), n) + Twice(FlipsSign(g, h)) + Twice(FlipsSign(g, i))) % 4
            == (ExactSum(h, i, n) + Twice(FlipsSign(g, Add(h, i)))) % 4
  {
    if g.CX? {
      CXPhase(n, g.control, g.target, h, i);
    } else {
      OneQubitPhase(n, g, h, i);
    }
  }

  lemma OneQubitPhase(n: nat, g: Gate, h: Row, i: Row)
    requires !g.CX? && g.Ok(n) && IsRow(h, n) && IsRow(i, n)
    ensures (ExactSum(GateRow(g, h), GateRow(g, i), n) + Twice(FlipsSign(g, h)) + Twice(FlipsSign(g, i))) % 4
            == (ExactSum(h, i, n) + Twice(FlipsSign(g, Add(h, i)))) % 4
  {
    var f, f' := Exponents(h, i), Exponents(GateRow(g, h), GateRow(g, i));
    ChangeOne(f, f', n, g.q);
    HAt(h.x[g.q], h.z[g.q], i.x[g.q], i.z[g.q]);
    SAt(h.x[g.q], h.z[g.q], i.x[g.q], i.z[g.q]);
    Shift(Sum(f, n), Sum(f', n), f(g.q), f'(g.q), Twice(FlipsSign(g, h)) + Twice(FlipsSign(g, i)), Twice(FlipsSign(g, Add(h, i))));
  }

  lemma CXPhase(n: nat, c: nat, t: nat, h: Row, i: Row)
    requires CX(c, t).Ok(n) && IsRow(h, n) && IsRow(i, n)
    ensures var g := CX(c, t);
            (ExactSum(GateRow(g, h), GateRow(g, i), n) + Twice(FlipsSign(g, h)) + Twice(FlipsSign(g, i))) % 4
            == (ExactSum(h, i, n) + Twice(FlipsSign(g, Add(h, i)))) % 4
  {
    var g := CX(c, t);
    var f, f' := Exponents(h, i), Exponents(GateRow(g, h), GateRow(g, i));
    CXExponents(n, c, t, h, i);
    ChangeTwo(f, f', n, c, t);
    CXExponentsAgree(n, c, t, h, i, f(c) + f(t), f'(c) + f'(t));
    Shift(Sum(f, n), Sum(f', n), f(c) + f(t), f'(c) + f'(t),
          Twice(FlipsSign(g, h)) + Twice(FlipsSign(g, i)), Twice(FlipsSign(g, Add(h, i))));
  }

  lemma CXExponentsAgree(n: nat, c: nat, t: nat, h: Row, i: Row, e: int, e': int)
    requires CX(c, t).Ok(n) && IsRow(h, n) && IsRow(i, n)
    requires e == Exponent(h.x[c], h.z[c], i.x[c], i.z[c]) + Exponent(h.x[t], h.z[t], i.x[t], i.z[t])
    requires e' == Exponent(h.x[c], h.z[c] != h.z[t], i.x[c], i.z[c] != i.z[t])
                   + Exponent(h.x[t] != h.x[c], h.z[t], i.x[t] != i.x[c], i.z[t])
    ensures var g := CX(c, t);
            (e' + Twice(FlipsSign(g, h)) + Twice(FlipsSign(g, i))) % 4 == (e + Twice(FlipsSign(g, Add(h, i)))) % 4
  {
    CXAt(h.x[c], h.z[c], h.x[t], h.z[t], i.x[c], i.z[c], i.x[t], i.z[t]);
  }

  lemma CXExponents(n: nat, c: nat, t: nat, h: Row, i: Row)
    requires CX(c, t).Ok(n) && IsRow(h, n) && IsRow(i, n)
    ensures var f, f' := Exponents(h, i), Exponents(GateRow(CX(c, t), h), GateRow(CX(c, t), i));
            && (forall j: nat :: j < n && j != c && j != t ==> f(j) == f'(j))
            && f(c) == Exponent(h.x[c], h.z[c], i.x[c], i.z[c]) && f(t) == Exponent(h.x[t], h.z[t], i.x[t], i.z[t])
            && f'(c) == Exponent(h.x[c], h.z[c] != h.z[t], i.x[c], i.z[c] != i.z[t])
            && f'(t) == Exponent(h.x[t] != h.x[c], h.z[t], i.x[t] != i.x[c], i.z[t])
  {
    var f, f' := Exponents(h, i), Exponents(GateRow(CX(c, t), h), GateRow(CX(c, t), i));
    CXBits(n, c, t, h);
    CXBits(n, c, t, i);
    forall j: nat | j < n && j != c && j != t ensures f(j) == f'(j) {
    }
  }

  lemma CXBits(n: nat, c: nat, t: nat, a: Row)
    requires CX(c, t).Ok(n) && IsRow(a, n)
    ensures var r := GateRow(CX(c, t), a);
            && (forall j :: 0 <= j < n && j != c && j != t ==> r.x[j] == a.x[j])
            && (forall j :: 0 <= j < n && j != c && j != t ==> r.z[j] == a.z[j])
            && r.x[c] == a.x[c] && r.z[t] == a.z[t] && r.x[t] == (a.x[t] != a.x[c]) && r.z[c] == (a.z[c] != a.z[t])
  {
  }

  lemma ConjugatedSum(n: nat, g: Gate, h: Row, i: Row)
    requires g.Ok(n) && IsRow(h, n) && IsRow(i, n)
    ensures GateRow(g, Add(h, i)) == Add(GateRow(g, h), GateRow(g, i))
  {
    var l, r := GateRow(g, Add(h, i)), Add(GateRow(g, h), GateRow(g, i));
    assert l.x == r.x && l.z == r.z;
  }

  // ----- operators and groups ---------------------------------------------

  ghost function ConjugatePauli(n: nat, g: Gate, a: Pauli): (r: Pauli)
    requires g.Ok(n) && IsPauli(n, a)
    ensures IsPauli(n, r)
  {
    Pauli((a.k + Twice(FlipsSign(g, a.row))) % 4, GateRow(g, a.row))
  }

  // g (a b) g^-1 == (g a g^-1) (g b g^-1)
  lemma ConjugateKeepsProducts(n: nat, g: Gate, a: Pauli, b: Pauli)
    requires g.Ok(n) && IsPauli(n, a) && IsPauli(n, b)
    ensures Mul(n, ConjugatePauli(n, g, a), ConjugatePauli(n, g, b)) == ConjugatePauli(n, g, Mul(n, a, b))
  {
    ConjugatedPhase(n, g, b.row, a.row);
    ConjugatedSum(n, g, b.row, a.row);
    PhaseOfConjugated(a.k, b.k, Twice(FlipsSign(g, a.row)), Twice(FlipsSign(g, b.row)), ExactSum(b.row, a.row, n),
                      ExactSum(GateRow(g, b.row), GateRow(g, a.row), n), Twice(FlipsSign(g, Add(b.row, a.row))));
  }

  lemma PhaseOfConjugated(k: int, k': int, u: int, v: int, e: int, e': int, w: int)
    requires (e' + v + u) % 4 == (e + w) % 4
    ensures ((k + u) % 4 + (k' + v) % 4 + e') % 4 == ((k + k' + e) % 4 + w) % 4
  {
    DropMultiple(k + u + k' + v + e', (k + u) % 4 + (k' + v) % 4 + e', (k + u) / 4 + (k' + v) / 4);
    DropMultiple(k + k' + e + w, (k + k' + e) % 4 + w, (k + k' + e) / 4);
    AddMod4(e' + v + u, e + w, k + k', k + k');
  }

  lemma ConjugateInjective(n: nat, g: Gate, a: Pauli, b: Pauli)
    requires g.Ok(n) && IsPauli(n, a) && IsPauli(n, b)
    requires ConjugatePauli(n, g, a) == ConjugatePauli(n, g, b)
    ensures a == b
  {
    GateTwice(g, a.row);
    GateTwice(g, b.row);
  }

  lemma {:induction false} ConjugatedChosen(n: nat, g: Gate, gens: seq<Signed>, gens': seq<Signed>, sel: seq<bool>, k: nat)
    requires g.Ok(n) && Generators(n, gens) && Generators(n, gens') && |sel| == n && k <= n
    requires forall i :: 0 <= i < n ==> gens'[i] == Conjugate(g, gens[i])
    ensures Chosen(n, gens', sel, k) == ConjugatePauli(n, g, Chosen(n, gens, sel, k))
  {
    if k == 0 {
      ConjugateOne(n, g);
    } else {
      ConjugatedChosen(n, g, gens, gens', sel, k - 1);
      if sel[k - 1] {
        ConjugatedGenerator(n, g, gens[k - 1]);
        ConjugateKeepsProducts(n, g, Operator(gens[k - 1]), Chosen(n, gens, sel, k - 1));
      }
    }
  }

  lemma ConjugateOne(n: nat, g: Gate)
    requires g.Ok(n)
    ensures ConjugatePauli(n, g, One(n)) == One(n)
  {
    assert GateRow(g, Zero(n)).x == Zero(n).x && GateRow(g, Zero(n)).z == Zero(n).z;
  }

  lemma ConjugatedGenerator(n: nat, g: Gate, s: Signed)
    requires g.Ok(n) && IsSigned(s, n)
    ensures Operator(Conjugate(g, s)) == ConjugatePauli(n, g, Operator(s))
  {
  }

  // After a gate g the state is stabilized by g a g^-1 exactly when it was
  // stabilized by a before.
  lemma GateConjugatesState(n: nat, t: seq<Signed>, g: Gate, a: Pauli)
    requires Good(n, t) && g.Ok(n) && IsPauli(n, a)
    ensures Stabilized(n, Conjugated(n, g, t), ConjugatePauli(n, g, a)) <==> Stabilized(n, t, a)
  {
    var c := Conjugated(n, g, t);
    GateKeepsGood(n, g, t);
    StabilizersGenerate(n, t);
    StabilizersGenerate(n, c);
    var gens, gens' := Stabilizers(n, t), Stabilizers(n, c);
    if Stabilized(n, t, a) {
      var sel: seq<bool> :| Yields(n, gens, sel, a);
      ConjugatedChosen(n, g, gens, gens', sel, n);
      assert Yields(n, gens', sel, ConjugatePauli(n, g, a));
    }
    if Stabilized(n, c, ConjugatePauli(n, g, a)) {
      var sel: seq<bool> :| Yields(n, gens', sel, ConjugatePauli(n, g, a));
      ConjugatedChosen(n, g, gens, gens', sel, n);
      ConjugateInjective(n, g, Chosen(n, gens, sel, n), a);
      assert Yields(n, gens, sel, a);
    }
  }

  // The images of X and Z that define the gates.
  lemma GatesAreClifford(n: nat, q: nat, c: nat, t: nat)
    requires q < n && c < n && t < n && c != t
    ensures var x, z := Signed(XAt(n, q), false), Signed(ZAt(n, q), false);
            && Conjugate(H(q), x) == z && Conjugate(H(q), z) == x
            && Conjugate(S(q), x) == Signed(Add(XAt(n, q), ZAt(n, q)), false) && Conjugate(S(q), z) == z
    ensures var x, z := Signed(XAt(n, c), false), Signed(ZAt(n, t), false);
            && Conjugate(CX(c, t), x) == Signed(Add(XAt(n, c), XAt(n, t)), false)
            && Conjugate(CX(c, t), z) == Signed(Add(ZAt(n, c), ZAt(n, t)), false)
    ensures var x, z := Signed(XAt(n, t), false), Signed(ZAt(n, c), false);
            Conjugate(CX(c, t), x) == x && Conjugate(CX(c, t), z) == z
  {
    var x, z := XAt(n, q), ZAt(n, q);
    assert GateRow(H(q), x).x == z.x && GateRow(H(q), x).z == z.z && GateRow(H(q), z).x == x.x && GateRow(H(q), z).z == x.z;
    assert GateRow(S(q), x).z == Add(x, z).z && GateRow(S(q), x).x == Add(x, z).x && GateRow(S(q), z).z == z.z;
    CXImages(n, c, t);
  }

  lemma CXImages(n: nat, c: nat, t: nat)
    requires c < n && t < n && c != t
    ensures GateRow(CX(c, t), XAt(n, c)) == Add(XAt(n, c), XAt(n, t)) && GateRow(CX(c, t), ZAt(n, t)) == Add(ZAt(n, c), ZAt(n, t))
    ensures GateRow(CX(c, t), XAt(n, t)) == XAt(n, t) && GateRow(CX(c, t), ZAt(n, c)) == ZAt(n, c)
  {
    var x, z := GateRow(CX(c, t), XAt(n, c)), GateRow(CX(c, t), ZAt(n, t));
    assert x.x == Add(XAt(n, c), XAt(n, t)).x && x.z == Add(XAt(n, c), XAt(n, t)).z;
    assert z.x == Add(ZAt(n, c), ZAt(n, t)).x && z.z == Add(ZAt(n, c), ZAt(n, t)).z;
    var x', z' := GateRow(CX(c, t), XAt(n, t)), GateRow(CX(c, t), ZAt(n, c));
    assert x'.x == XAt(n, t).x && x'.z == XAt(n, t).z && z'.x == ZAt(n, c).x && z'.z == ZAt(n, c).z;
  }
}
