// The tableau as a value: row products, measurement, outcome probabilities.

module Tableau {
  import opened Symplectic
  import opened PauliPhase
  import opened GateCache

  // Eight lanes of 32 bits in the build modelled here.
  type Hardware = m: Machine | m.lanes > 0 && m.width > 0 witness Machine(8, 32)

  ghost predicate IsTableau(n: nat, t: seq<Signed>) {
    |t| == 2 * n && forall i :: 0 <= i < 2 * n ==> IsSigned(t[i], n)
  }

  ghost function Rows(n: nat, t: seq<Signed>): (rows: seq<Row>)
    requires IsTableau(n, t)
    ensures AreRows(rows, n)
  {
    seq(2 * n, i requires 0 <= i < 2 * n => t[i].row)
  }

  // The invariant of every run: destabilizers and stabilizers form a
  // symplectic basis.
  ghost predicate Good(n: nat, t: seq<Signed>) {
    IsTableau(n, t) && SymplecticBasis(n, Rows(n, t))
  }

  ghost function Conjugated(n: nat, g: Gate, t: seq<Signed>): (r: seq<Signed>)
    requires IsTableau(n, t) && g.Ok(n)
    ensures IsTableau(n, r)
  {
    seq(2 * n, i requires 0 <= i < 2 * n => Conjugate(g, t[i]))
  }

  lemma GateKeepsGood(n: nat, g: Gate, t: seq<Signed>)
    requires Good(n, t) && g.Ok(n)
    ensures Good(n, Conjugated(n, g, t))
  {
    GateKeepsBasis(g, Rows(n, t), n);
    assert Rows(n, Conjugated(n, g, t)) == GateRows(g, Rows(n, t), n);
  }

  // h := i * h
  function RowSum(m: Hardware, n: nat, h: Signed, i: Signed): Signed
    requires IsSigned(h, n) && IsSigned(i, n)
  {
    Signed(Add(h.row, i.row), Phase(m, n, h.row, h.sign, i.row, i.sign) / 2 == 1)
  }

  // ----- outcome types ----------------------------------------------------

  // The first row from p on with an x bit at q, if any.
  ghost function FirstX(n: nat, t: seq<Signed>, q: nat, p: nat): (r: nat)
    requires IsTableau(n, t) && q < n && p <= 2 * n
    ensures p <= r <= 2 * n
    ensures r < 2 * n ==> t[r].row.x[q]
    ensures forall i :: p <= i < r ==> !t[i].row.x[q]
    decreases 2 * n - p
  {
    if p < 2 * n && !t[p].row.x[q] then FirstX(n, t, q, p + 1) else p
  }

  ghost predicate Determined(n: nat, t: seq<Signed>, q: nat)
    requires IsTableau(n, t) && q < n
  {
    FirstX(n, t, q, n) == 2 * n
  }

  // ----- a random outcome -------------------------------------------------

  ghost function CollapsedRow(m: Hardware, n: nat, t: seq<Signed>, q: nat, p: nat, b: bool, j: nat): (r: Signed)
    requires IsTableau(n, t) && q < n <= p < 2 * n && j < 2 * n
    ensures r.row == MeasuredRow(n, Rows(n, t), q, p, j)
  {
    if j == p then Signed(ZAt(n, q), b)
    else if j == p - n then t[p]
    else if t[j].row.x[q] then RowSum(m, n, t[j], t[p])
    else t[j]
  }

  ghost function Collapsed(m: Hardware, n: nat, t: seq<Signed>, q: nat, p: nat, b: bool): (r: seq<Signed>)
    requires IsTableau(n, t) && q < n <= p < 2 * n
    ensures IsTableau(n, r) && Rows(n, r) == MeasuredRows(n, Rows(n, t), q, p)
  {
    seq(2 * n, j requires 0 <= j < 2 * n => CollapsedRow(m, n, t, q, p, b, j))
  }

  lemma CollapseKeepsGood(m: Hardware, n: nat, t: seq<Signed>, q: nat, p: nat, b: bool)
    requires Good(n, t) && q < n <= p < 2 * n && t[p].row.x[q]
    ensures Good(n, Collapsed(m, n, t, q, p, b))
  {
    MeasuredBasis(n, Rows(n, t), q, p);
  }

  // ----- a determined outcome ---------------------------------------------

  // Row 2n after the first l destabilizers.
  ghost function Product(m: Hardware, n: nat, t: seq<Signed>, q: nat, l: nat): (r: Signed)
    requires IsTableau(n, t) && q < n && l <= n
    ensures IsSigned(r, n)
  {
    if l == 0 then Signed(Zero(n), false)
    else if t[l - 1].row.x[q] then RowSum(m, n, Product(m, n, t, q, l - 1), t[l - 1 + n])
    else Product(m, n, t, q, l - 1)
  }

  ghost function Outcome(m: Hardware, n: nat, t: seq<Signed>, q: nat): bool
    requires IsTableau(n, t) && q < n
  {
    Product(m, n, t, q, n).sign
  }

  ghost function Selection(n: nat, t: seq<Signed>, q: nat): seq<bool>
    requires IsTableau(n, t) && q < n
  {
    seq(n, i requires 0 <= i < n => t[i].row.x[q])
  }

  lemma {:induction false} ProductRow(m: Hardware, n: nat, t: seq<Signed>, q: nat, l: nat)
    requires IsTableau(n, t) && q < n && l <= n
    ensures Product(m, n, t, q, l).row == SumRows(n, Rows(n, t)[n..], Selection(n, t, q), l)
  {
    if l > 0 {
      ProductRow(m, n, t, q, l - 1);
    }
  }

  // When no stabilizer has an x bit at q, the product built in row 2n has
  // exactly the bits of Z at q.
  lemma DeterminedProductIsZ(m: Hardware, n: nat, t: seq<Signed>, q: nat)
    requires Good(n, t) && q < n && Determined(n, t, q)
    ensures Product(m, n, t, q, n).row == ZAt(n, q)
  {
    ProductRow(m, n, t, q, n);
    ZIsSumOfStabilizers(n, Rows(n, t), q);
    assert Selection(n, t, q) == seq(n, i requires 0 <= i < n => Rows(n, t)[i].x[q]);
  }

  ghost predicate StabilizersCommute(n: nat, t: seq<Signed>)
    requires IsTableau(n, t)
  {
    forall i, j {:trigger Sp(t[i].row, t[j].row)} :: n <= i < 2 * n && n <= j < 2 * n ==> !Sp(t[i].row, t[j].row)
  }

  lemma GoodCommutes(n: nat, t: seq<Signed>)
    requires Good(n, t)
    ensures StabilizersCommute(n, t)
  {
    forall i, j | n <= i < 2 * n && n <= j < 2 * n ensures !Sp(t[i].row, t[j].row) {
      assert !Sp(Rows(n, t)[i], Rows(n, t)[j]);
    }
  }

  // Every row product on the way multiplies commuting rows, so its phase is
  // even and halving it loses nothing.
  lemma ProductPhaseIsEven(m: Hardware, n: nat, t: seq<Signed>, q: nat, l: nat)
    requires Good(n, t) && q < n && l < n
    ensures var h := Product(m, n, t, q, l);
            Phase(m, n, h.row, h.sign, t[l + n].row, t[l + n].sign) in {0, 2}
  {
    GoodCommutes(n, t);
    ProductCommutes(m, n, t, q, l, l + n);
    EvenPhase(m, n, Product(m, n, t, q, l), t[l + n]);
  }

  lemma EvenPhase(m: Hardware, n: nat, h: Signed, i: Signed)
    requires IsSigned(h, n) && IsSigned(i, n) && !Sp(h.row, i.row)
    ensures Phase(m, n, h.row, h.sign, i.row, i.sign) in {0, 2}
  {
    PhaseParity(m, n, h.row, h.sign, i.row, i.sign);
  }

  lemma {:induction false} ProductCommutes(m: Hardware, n: nat, t: seq<Signed>, q: nat, l: nat, i: nat)
    requires IsTableau(n, t) && StabilizersCommute(n, t) && q < n && l <= n && n <= i < 2 * n
    ensures !Sp(Product(m, n, t, q, l).row, t[i].row)
  {
    if l == 0 {
      SpZero(t[i].row, n);
    } else {
      ProductCommutes(m, n, t, q, l - 1, i);
      assert !Sp(t[l - 1 + n].row, t[i].row);
      SpAdd(Product(m, n, t, q, l - 1).row, t[l - 1 + n].row, t[i].row);
    }
  }

  // ----- measuring twice --------------------------------------------------

  ghost function Measured(m: Hardware, n: nat, t: seq<Signed>, q: nat, coin: bool): (r: (seq<Signed>, bool))
    requires IsTableau(n, t) && q < n
    ensures IsTableau(n, r.0)
  {
    var p := FirstX(n, t, q, n);
    if p < 2 * n then (Collapsed(m, n, t, q, p, coin), coin) else (t, Outcome(m, n, t, q))
  }

  lemma MeasureKeepsGood(m: Hardware, n: nat, t: seq<Signed>, q: nat, coin: bool)
    requires Good(n, t) && q < n
    ensures Good(n, Measured(m, n, t, q, coin).0)
  {
    var p := FirstX(n, t, q, n);
    if p < 2 * n {
      CollapseKeepsGood(m, n, t, q, p, coin);
    }
  }

  lemma CollapsedIsDetermined(m: Hardware, n: nat, t: seq<Signed>, q: nat, p: nat, b: bool)
    requires IsTableau(n, t) && q < n <= p < 2 * n && t[p].row.x[q]
    ensures Determined(n, Collapsed(m, n, t, q, p, b), q)
    ensures forall j :: 0 <= j < n ==> (Collapsed(m, n, t, q, p, b)[j].row.x[q] <==> j == p - n)
  {
    var c := Collapsed(m, n, t, q, p, b);
    forall j | 0 <= j < 2 * n ensures c[j].row.x[q] <==> j == p - n {
      assert c[j] == CollapsedRow(m, n, t, q, p, b, j);
    }
  }

  lemma {:induction false} CollapsedProduct(m: Hardware, n: nat, t: seq<Signed>, q: nat, p: nat, b: bool, l: nat)
    requires IsTableau(n, t) && q < n <= p < 2 * n && t[p].row.x[q] && l <= n
    ensures Product(m, n, Collapsed(m, n, t, q, p, b), q, l)
            == if l <= p - n then Signed(Zero(n), false) else Signed(ZAt(n, q), b)
  {
    if l > 0 {
      var c := Collapsed(m, n, t, q, p, b);
      CollapsedProduct(m, n, t, q, p, b, l - 1);
      CollapsedIsDetermined(m, n, t, q, p, b);
      if l - 1 == p - n {
        assert c[p] == CollapsedRow(m, n, t, q, p, b, p);
        ProductWithEmptyRow(m, n, ZAt(n, q), b);
      }
    }
  }

  lemma ProductWithEmptyRow(m: Hardware, n: nat, a: Row, b: bool)
    requires IsRow(a, n)
    ensures RowSum(m, n, Signed(Zero(n), false), Signed(a, b)) == Signed(a, b)
  {
    PhaseOfEmptyRow(m, n, a, b);
    assert Add(Zero(n), a).x == a.x && Add(Zero(n), a).z == a.z;
  }

  lemma CollapsedOutcome(m: Hardware, n: nat, t: seq<Signed>, q: nat, p: nat, b: bool)
    requires IsTableau(n, t) && q < n <= p < 2 * n && t[p].row.x[q]
    ensures Outcome(m, n, Collapsed(m, n, t, q, p, b), q) == b
  {
    CollapsedProduct(m, n, t, q, p, b, n);
  }

  // A second measurement of the same qubit is determined, gives the same bit
  // and changes nothing.
  lemma MeasureTwice(m: Hardware, n: nat, t: seq<Signed>, q: nat, coin: bool, coin': bool)
    requires IsTableau(n, t) && q < n
    ensures var r := Measured(m, n, t, q, coin);
            Determined(n, r.0, q) && Measured(m, n, r.0, q, coin') == r
  {
    var p := FirstX(n, t, q, n);
    if p < 2 * n {
      CollapsedIsDetermined(m, n, t, q, p, coin);
      CollapsedOutcome(m, n, t, q, p, coin);
    }
  }

  // ----- flipping a qubit -------------------------------------------------

  ghost function FlippedRow(s: Signed, q: nat): Signed
    requires q < |s.row.z|
  {
    Signed(s.row, s.sign != s.row.z[q])
  }

  // X flips the sign of every row with a z bit.
  ghost function Flipped(n: nat, q: nat, t: seq<Signed>): (r: seq<Signed>)
    requires IsTableau(n, t) && q < n
    ensures IsTableau(n, r)
  {
    seq(2 * n, i requires 0 <= i < 2 * n => FlippedRow(t[i], q))
  }

  lemma {:induction false} FlippedProduct(m: Hardware, n: nat, t: seq<Signed>, q: nat, l: nat)
    requires IsTableau(n, t) && q < n && l <= n
    ensures Product(m, n, Flipped(n, q, t), q, l) == FlippedRow(Product(m, n, t, q, l), q)
  {
    if l > 0 {
      FlippedProduct(m, n, t, q, l - 1);
      var h, i := Product(m, n, t, q, l - 1), t[l - 1 + n];
      FlippedSum(m, n, h, i, q);
      assert Flipped(n, q, t)[l - 1 + n] == FlippedRow(i, q);
    }
  }

  lemma FlippedSum(m: Hardware, n: nat, h: Signed, i: Signed, q: nat)
    requires IsSigned(h, n) && IsSigned(i, n) && q < n
    ensures RowSum(m, n, FlippedRow(h, q), FlippedRow(i, q)) == FlippedRow(RowSum(m, n, h, i), q)
  {
    SignsAdd(m.Popcounts(h.row, i.row, m.Registers(n), m.width), h.sign, i.sign, h.row.z[q], i.row.z[q]);
  }

  lemma SignsAdd(e: nat, a: bool, b: bool, u: bool, v: bool)
    ensures ((e + Twice(a != u) + Twice(b != v)) % 4 / 2 == 1)
            == (((e + Twice(a) + Twice(b)) % 4 / 2 == 1) != (u != v))
  {
  }

  // X on a qubit with a determined outcome negates the outcome.
  lemma FlipNegates(m: Hardware, n: nat, t: seq<Signed>, q: nat)
    requires Good(n, t) && q < n && Determined(n, t, q)
    ensures Determined(n, Flipped(n, q, t), q)
    ensures Outcome(m, n, Flipped(n, q, t), q) == !Outcome(m, n, t, q)
  {
    FlippedProduct(m, n, t, q, n);
    DeterminedProductIsZ(m, n, t, q);
  }

  lemma FlipKeepsGood(n: nat, q: nat, t: seq<Signed>)
    requires Good(n, t) && q < n
    ensures Good(n, Flipped(n, q, t))
  {
    assert Rows(n, Flipped(n, q, t)) == Rows(n, t);
  }
}
