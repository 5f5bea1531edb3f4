// Rows that fit one word: the tableau against the group its stabilizer rows generate.

module StabilizerState {
  import opened Symplectic
  import opened PauliPhase
  import opened GateCache
  import opened Tableau
  import opened StabilizerGroup

  ghost function Stabilizers(n: nat, t: seq<Signed>): seq<Signed>
    requires IsTableau(n, t)
  {
    t[n..]
  }

  lemma StabilizersGenerate(n: nat, t: seq<Signed>)
    requires Good(n, t)
    ensures Generators(n, Stabilizers(n, t))
  {
    GoodCommutes(n, t);
    forall i, j | 0 <= i < n && 0 <= j < n ensures !Sp(Stabilizers(n, t)[i].row, Stabilizers(n, t)[j].row) {
      assert !Sp(t[i + n].row, t[j + n].row);
    }
  }

  // The state is stabilized by the operator.
  ghost predicate Stabilized(n: nat, t: seq<Signed>, a: Pauli) {
    Good(n, t) && IsPauli(n, a) && Generators(n, Stabilizers(n, t)) && InGroup(n, Stabilizers(n, t), a)
  }

  // (-1)^b Z at q
  ghost function SignedZ(n: nat, q: nat, b: bool): Pauli {
    Operator(Signed(ZAt(n, q), b))
  }

  lemma WithDestabilizer(n: nat, t: seq<Signed>, i: nat)
    requires Good(n, t) && i < n
    ensures forall j :: 0 <= j < n ==> (Sp(Stabilizers(n, t)[j].row, t[i].row) <==> j == i)
  {
    forall j | 0 <= j < n ensures Sp(Stabilizers(n, t)[j].row, t[i].row) <==> j == i {
      PairOfRows(n, t, j + n, i);
      assert Stabilizers(n, t)[j] == t[j + n];
    }
  }

  lemma PairOfRows(n: nat, t: seq<Signed>, i: nat, j: nat)
    requires Good(n, t) && i < 2 * n && j < 2 * n
    ensures Sp(t[i].row, t[j].row) <==> j == Partner(n, i)
  {
    assert Sp(Rows(n, t)[i], Rows(n, t)[j]) <==> j == Partner(n, i);
  }

  // The group contains every row with at most one sign; in particular not -1.
  lemma OneSignPerRow(n: nat, t: seq<Signed>, a: Pauli, b: Pauli)
    requires Stabilized(n, t, a) && Stabilized(n, t, b) && a.row == b.row
    ensures a == b
  {
    var gens := Stabilizers(n, t);
    var sel: seq<bool> :| Yields(n, gens, sel, a);
    var sel': seq<bool> :| Yields(n, gens, sel', b);
    forall i | 0 <= i < n ensures sel[i] == sel'[i] {
      WithDestabilizer(n, t, i);
      ReadSelection(n, gens, sel, n, t[i].row, i);
      ReadSelection(n, gens, sel', n, t[i].row, i);
    }
    ChosenSame(n, gens, sel, sel', n);
  }

  // ----- row products -----------------------------------------------------

  // rowsum_ of commuting rows is the operator product.
  lemma RowSumIsProduct(m: Hardware, n: nat, h: Signed, i: Signed)
    requires n <= m.width && IsSigned(h, n) && IsSigned(i, n) && !Sp(h.row, i.row)
    ensures Operator(RowSum(m, n, h, i)) == Mul(n, Operator(i), Operator(h))
  {
    NarrowRowsAreExact(m, n, h.row, h.sign, i.row, i.sign);
    EvenPhase(m, n, h, i);
  }

  lemma {:induction false} ProductIsChosen(m: Hardware, n: nat, t: seq<Signed>, q: nat, l: nat)
    requires n <= m.width && Good(n, t) && q < n && l <= n && Generators(n, Stabilizers(n, t))
    ensures Operator(Product(m, n, t, q, l)) == Chosen(n, Stabilizers(n, t), Selection(n, t, q), l)
  {
    if l > 0 {
      ProductIsChosen(m, n, t, q, l - 1);
      if t[l - 1].row.x[q] {
        GoodCommutes(n, t);
        ProductCommutes(m, n, t, q, l - 1, l - 1 + n);
        RowSumIsProduct(m, n, Product(m, n, t, q, l - 1), t[l - 1 + n]);
      }
    }
  }

  lemma OutcomeStabilizes(m: Hardware, n: nat, t: seq<Signed>, q: nat)
    requires n <= m.width && Good(n, t) && q < n && Determined(n, t, q)
    ensures Stabilized(n, t, SignedZ(n, q, Outcome(m, n, t, q)))
  {
    StabilizersGenerate(n, t);
    ProductIsChosen(m, n, t, q, n);
    DeterminedProductIsZ(m, n, t, q);
    assert Yields(n, Stabilizers(n, t), Selection(n, t, q), SignedZ(n, q, Outcome(m, n, t, q)));
  }

  // A measurement of q is sure to give b exactly when (-1)^b Z_q stabilizes
  // the state.
  lemma OutcomeIsThatOfGroup(m: Hardware, n: nat, t: seq<Signed>, q: nat, b: bool)
    requires n <= m.width && Good(n, t) && q < n
    ensures Determined(n, t, q) && Outcome(m, n, t, q) == b <==> Stabilized(n, t, SignedZ(n, q, b))
  {
    if Determined(n, t, q) {
      OutcomeStabilizes(m, n, t, q);
      if Stabilized(n, t, SignedZ(n, q, b)) {
        OneSignPerRow(n, t, SignedZ(n, q, b), SignedZ(n, q, Outcome(m, n, t, q)));
      }
    } else if Stabilized(n, t, SignedZ(n, q, b)) {
      RandomIsNotStabilized(n, t, q, b);
    }
  }

  lemma RandomIsNotStabilized(n: nat, t: seq<Signed>, q: nat, b: bool)
    requires Good(n, t) && q < n && !Determined(n, t, q)
    ensures !Stabilized(n, t, SignedZ(n, q, b))
  {
    if Stabilized(n, t, SignedZ(n, q, b)) {
      var p := FirstX(n, t, q, n);
      CommutesWithGroup(n, t, SignedZ(n, q, b), p);
      SpUnits(t[p].row, n, q);
    }
  }

  lemma CommutesWithGroup(n: nat, t: seq<Signed>, a: Pauli, i: nat)
    requires Stabilized(n, t, a) && n <= i < 2 * n
    ensures !Sp(a.row, t[i].row)
  {
    var gens := Stabilizers(n, t);
    var sel: seq<bool> :| Yields(n, gens, sel, a);
    assert gens[i - n] == t[i];
    CommutesWithChosen(n, gens, sel, n, t[i].row);
  }

  // ----- rows of any width ------------------------------------------------

  // rowsum_ of commuting rows is off by a sign for every dropped carry.
  lemma RowSumOffBy(m: Hardware, n: nat, h: Signed, i: Signed)
    requires IsSigned(h, n) && IsSigned(i, n) && !Sp(h.row, i.row)
    ensures Mul(n, Operator(i), Operator(h))
            == Off(Operator(RowSum(m, n, h, i)), m.LostCarries(h.row, i.row, m.Registers(n), m.width))
  {
    PhaseDiffersByLostCarries(m, n, h.row, h.sign, i.row, i.sign);
    EvenPhase(m, n, h, i);
  }

  // a with the sign changed `times` times
  ghost function Off(a: Pauli, times: nat): Pauli {
    Pauli((a.k + 2 * times) % 4, a.row)
  }

  lemma MulOff(n: nat, a: Pauli, b: Pauli, times: nat, more: nat, c: Pauli)
    requires IsPauli(n, a) && IsPauli(n, b) && Mul(n, a, b) == Off(c, more)
    ensures Mul(n, a, Off(b, times)) == Off(c, times + more)
  {
    var e := a.k + ExactSum(b.row, a.row, n);
    AddMod4((b.k + 2 * times) % 4, b.k + 2 * times, e, e);
    AddMod4(e + b.k, c.k + 2 * more, 2 * times, 2 * times);
  }

  // The carries dropped while the product for q is built.
  ghost function LostOnTheWay(m: Hardware, n: nat, t: seq<Signed>, q: nat, l: nat): nat
    requires IsTableau(n, t) && q < n && l <= n
  {
    if l == 0 then 0 else
    LostOnTheWay(m, n, t, q, l - 1)
    + if t[l - 1].row.x[q]
      then m.LostCarries(Product(m, n, t, q, l - 1).row, t[l - 1 + n].row, m.Registers(n), m.width) else 0
  }

  lemma {:induction false} ProductOffBy(m: Hardware, n: nat, t: seq<Signed>, q: nat, l: nat)
    requires Good(n, t) && q < n && l <= n && Generators(n, Stabilizers(n, t))
    ensures Chosen(n, Stabilizers(n, t), Selection(n, t, q), l)
            == Off(Operator(Product(m, n, t, q, l)), LostOnTheWay(m, n, t, q, l))
  {
    if l > 0 {
      ProductOffBy(m, n, t, q, l - 1);
      if t[l - 1].row.x[q] {
        var h, i := Product(m, n, t, q, l - 1), t[l - 1 + n];
        GoodCommutes(n, t);
        ProductCommutes(m, n, t, q, l - 1, l - 1 + n);
        RowSumOffBy(m, n, h, i);
        MulOff(n, Operator(i), Operator(h), LostOnTheWay(m, n, t, q, l - 1),
               m.LostCarries(h.row, i.row, m.Registers(n), m.width), Operator(RowSum(m, n, h, i)));
      }
    }
  }

  // For any number of qubits: a sure outcome is that of the group exactly when
  // an even number of carries is dropped on the way; otherwise it is the other one.
  lemma OutcomeExactIff(m: Hardware, n: nat, t: seq<Signed>, q: nat)
    requires Good(n, t) && q < n && Determined(n, t, q)
    ensures var b, lost := Outcome(m, n, t, q), LostOnTheWay(m, n, t, q, n);
            && (Stabilized(n, t, SignedZ(n, q, b)) <==> lost % 2 == 0)
            && (Stabilized(n, t, SignedZ(n, q, !b)) <==> lost % 2 == 1)
  {
    StabilizersGenerate(n, t);
    ProductOffBy(m, n, t, q, n);
    DeterminedProductIsZ(m, n, t, q);
    var b, lost := Outcome(m, n, t, q), LostOnTheWay(m, n, t, q, n);
    OffParity(b, lost);
    var right := b != (lost % 2 == 1);
    assert Yields(n, Stabilizers(n, t), Selection(n, t, q), SignedZ(n, q, right));
    if Stabilized(n, t, SignedZ(n, q, !right)) {
      OneSignPerRow(n, t, SignedZ(n, q, right), SignedZ(n, q, !right));
    }
  }

  lemma OffParity(b: bool, lost: nat)
    ensures (Twice(b) + 2 * lost) % 4 == Twice(b != (lost % 2 == 1))
  {
    var half := lost / 2;
    assert 2 * lost == 4 * half + 2 * (lost % 2);
  }

  // ----- a random outcome -------------------------------------------------

  // No sign is lost where row p is added to another stabilizer.
  ghost predicate ExactSums(m: Hardware, n: nat, t: seq<Signed>, q: nat, p: nat)
    requires IsTableau(n, t) && q < n <= p < 2 * n
  {
    forall j {:trigger t[j]} :: n <= j < 2 * n && j != p && t[j].row.x[q] ==> EvenlyLost(m, n, t[j], t[p])
  }

  ghost predicate EvenlyLost(m: Hardware, n: nat, h: Signed, i: Signed) {
    m.LostCarries(h.row, i.row, m.Registers(n), m.width) % 2 == 0
  }

  lemma NarrowSumsAreExact(m: Hardware, n: nat, t: seq<Signed>, q: nat, p: nat)
    requires n <= m.width && IsTableau(n, t) && q < n <= p < 2 * n
    ensures ExactSums(m, n, t, q, p)
  {
    forall j | n <= j < 2 * n ensures EvenlyLost(m, n, t[j], t[p]) {
      NoLostCarries(m, n, t[j].row, t[p].row, m.Registers(n), m.width);
    }
  }

  lemma ExactRowSum(m: Hardware, n: nat, h: Signed, i: Signed)
    requires IsSigned(h, n) && IsSigned(i, n) && !Sp(h.row, i.row)
    ensures Operator(RowSum(m, n, h, i)) == Mul(n, Operator(i), Operator(h)) <==> EvenlyLost(m, n, h, i)
  {
    RowSumOffBy(m, n, h, i);
    OffParity(RowSum(m, n, h, i).sign, m.LostCarries(h.row, i.row, m.Registers(n), m.width));
  }

  // What stabilized the state and commutes with Z_q still does afterwards.
  lemma CollapseKeeps(m: Hardware, n: nat, t: seq<Signed>, q: nat, p: nat, b: bool, a: Pauli)
    requires Good(n, t) && q < n <= p < 2 * n && ExactSums(m, n, t, q, p) && t[p].row.x[q]
    requires Stabilized(n, t, a) && !Sp(a.row, ZAt(n, q))
    ensures Stabilized(n, Collapsed(m, n, t, q, p, b), a)
  {
    var c := Collapsed(m, n, t, q, p, b);
    CollapseKeepsGood(m, n, t, q, p, b);
    StabilizersGenerate(n, c);
    StabilizersGenerate(n, t);
    var sel := NewSelection(n, t, c, a, p);
    var a' := Chosen(n, Stabilizers(n, c), sel, n);
    assert Yields(n, Stabilizers(n, c), sel, a');
    WithoutNew(m, n, t, q, p, b, sel);
    SameRow(m, n, t, q, p, b, a, sel);
    OneSignPerRow(n, t, a, a');
  }

  // Coordinates of a in the new basis.
  ghost function NewSelection(n: nat, t: seq<Signed>, c: seq<Signed>, a: Pauli, p: nat): (sel: seq<bool>)
    requires IsTableau(n, t) && IsTableau(n, c) && IsPauli(n, a) && n <= p < 2 * n
    ensures |sel| == n
  {
    seq(n, i requires 0 <= i < n => i != p - n && Sp(a.row, t[i].row))
  }

  lemma StabilizedProduct(n: nat, t: seq<Signed>, a: Pauli, b: Pauli)
    requires Stabilized(n, t, a) && Stabilized(n, t, b)
    ensures Stabilized(n, t, Mul(n, a, b))
  {
    GroupCloses(n, Stabilizers(n, t), a, b);
  }

  lemma StabilizerStabilizes(n: nat, t: seq<Signed>, j: nat)
    requires Good(n, t) && n <= j < 2 * n
    ensures Stabilized(n, t, Operator(t[j]))
  {
    StabilizersGenerate(n, t);
    assert Stabilizers(n, t)[j - n] == t[j];
    GroupHasGenerator(n, Stabilizers(n, t), j - n);
  }

  // A product of new stabilizers other than Z_q is an old stabilizer.
  lemma WithoutNew(m: Hardware, n: nat, t: seq<Signed>, q: nat, p: nat, b: bool, sel: seq<bool>)
    requires Good(n, t) && q < n <= p < 2 * n && ExactSums(m, n, t, q, p) && t[p].row.x[q]
    requires |sel| == n && !sel[p - n] && Generators(n, Stabilizers(n, t))
    requires Generators(n, Stabilizers(n, Collapsed(m, n, t, q, p, b)))
    ensures InGroup(n, Stabilizers(n, t), Chosen(n, Stabilizers(n, Collapsed(m, n, t, q, p, b)), sel, n))
  {
    OldGenerators(m, n, t, q, p, b);
    ChosenFromGroup(n, Stabilizers(n, t), Stabilizers(n, Collapsed(m, n, t, q, p, b)), sel, n);
  }

  lemma OldGenerators(m: Hardware, n: nat, t: seq<Signed>, q: nat, p: nat, b: bool)
    requires Good(n, t) && q < n <= p < 2 * n && ExactSums(m, n, t, q, p) && t[p].row.x[q]
    requires Generators(n, Stabilizers(n, t))
    ensures forall i :: 0 <= i < n && i != p - n ==>
              InGroup(n, Stabilizers(n, t), Operator(Stabilizers(n, Collapsed(m, n, t, q, p, b))[i]))
  {
    forall i | 0 <= i < n && i != p - n {
      OldGenerator(m, n, t, q, p, b, i);
    }
  }

  lemma OldGenerator(m: Hardware, n: nat, t: seq<Signed>, q: nat, p: nat, b: bool, i: nat)
    requires Good(n, t) && q < n <= p < 2 * n && ExactSums(m, n, t, q, p) && t[p].row.x[q] && i < n && i != p - n
    requires Generators(n, Stabilizers(n, t))
    ensures InGroup(n, Stabilizers(n, t), Operator(Stabilizers(n, Collapsed(m, n, t, q, p, b))[i]))
  {
    OldStabilizer(m, n, t, q, p, b, i + n);
    assert Stabilizers(n, Collapsed(m, n, t, q, p, b))[i] == Collapsed(m, n, t, q, p, b)[i + n];
  }

  lemma OldStabilizer(m: Hardware, n: nat, t: seq<Signed>, q: nat, p: nat, b: bool, j: nat)
    requires Good(n, t) && q < n <= p < 2 * n && ExactSums(m, n, t, q, p) && t[p].row.x[q] && n <= j < 2 * n && j != p
    ensures Stabilized(n, t, Operator(Collapsed(m, n, t, q, p, b)[j]))
    ensures !Sp(Collapsed(m, n, t, q, p, b)[j].row, ZAt(n, q))
  {
    var c := Collapsed(m, n, t, q, p, b);
    assert c[j] == CollapsedRow(m, n, t, q, p, b, j);
    StabilizerStabilizes(n, t, j);
    if t[j].row.x[q] {
      StabilizerStabilizes(n, t, p);
      StabilizedProduct(n, t, Operator(t[p]), Operator(t[j]));
      CommutesWithGroup(n, t, Operator(t[j]), p);
      ExactRowSum(m, n, t[j], t[p]);
    }
    SpUnits(c[j].row, n, q);
  }

  // The product of the new stabilizers chosen for a has the row of a.
  lemma SameRow(m: Hardware, n: nat, t: seq<Signed>, q: nat, p: nat, b: bool, a: Pauli, sel: seq<bool>)
    requires Good(n, t) && q < n <= p < 2 * n && t[p].row.x[q]
    requires Stabilized(n, t, a) && !Sp(a.row, ZAt(n, q))
    requires Good(n, Collapsed(m, n, t, q, p, b)) && Generators(n, Stabilizers(n, Collapsed(m, n, t, q, p, b)))
    requires sel == NewSelection(n, t, Collapsed(m, n, t, q, p, b), a, p)
    ensures Chosen(n, Stabilizers(n, Collapsed(m, n, t, q, p, b)), sel, n).row == a.row
  {
    var c := Collapsed(m, n, t, q, p, b);
    var a' := Chosen(n, Stabilizers(n, c), sel, n);
    forall i | 0 <= i < 2 * n ensures !Sp(Add(a.row, a'.row), Rows(n, c)[i]) {
      SameProduct(m, n, t, q, p, b, a, sel, i);
      SpAdd(a.row, a'.row, c[i].row);
    }
    assert Orthogonal(n, Rows(n, c), Add(a.row, a'.row));
    AddIsZero(n, a.row, a'.row);
  }

  lemma SameProduct(m: Hardware, n: nat, t: seq<Signed>, q: nat, p: nat, b: bool, a: Pauli, sel: seq<bool>, i: nat)
    requires Good(n, t) && q < n <= p < 2 * n && t[p].row.x[q] && i < 2 * n
    requires Stabilized(n, t, a) && !Sp(a.row, ZAt(n, q))
    requires Good(n, Collapsed(m, n, t, q, p, b)) && Generators(n, Stabilizers(n, Collapsed(m, n, t, q, p, b)))
    requires sel == NewSelection(n, t, Collapsed(m, n, t, q, p, b), a, p)
    ensures Sp(Chosen(n, Stabilizers(n, Collapsed(m, n, t, q, p, b)), sel, n).row, Collapsed(m, n, t, q, p, b)[i].row)
            == Sp(a.row, Collapsed(m, n, t, q, p, b)[i].row)
  {
    var c := Collapsed(m, n, t, q, p, b);
    OldProduct(m, n, t, q, p, b, a, i);
    if i < n {
      WithDestabilizer(n, c, i);
      ReadSelection(n, Stabilizers(n, c), sel, n, c[i].row, i);
    } else {
      assert Yields(n, Stabilizers(n, c), sel, Chosen(n, Stabilizers(n, c), sel, n));
      CommutesWithGroup(n, c, Chosen(n, Stabilizers(n, c), sel, n), i);
    }
  }

  lemma OldProduct(m: Hardware, n: nat, t: seq<Signed>, q: nat, p: nat, b: bool, a: Pauli, i: nat)
    requires Good(n, t) && q < n <= p < 2 * n && t[p].row.x[q] && i < 2 * n
    requires Stabilized(n, t, a) && !Sp(a.row, ZAt(n, q))
    ensures Sp(a.row, Collapsed(m, n, t, q, p, b)[i].row)
            == (i < n && i != p - n && Sp(a.row, t[i].row))
  {
    assert Collapsed(m, n, t, q, p, b)[i] == CollapsedRow(m, n, t, q, p, b, i);
    CommutesWithGroup(n, t, a, p);
    if i >= n {
      CommutesWithGroup(n, t, a, i);
    }
    SpAdd(t[i].row, t[p].row, a.row);
  }

  // (-1)^b Z_q itself stabilizes the state after the outcome b.
  lemma CollapseAdds(m: Hardware, n: nat, t: seq<Signed>, q: nat, p: nat, b: bool)
    requires Good(n, t) && q < n <= p < 2 * n && t[p].row.x[q]
    ensures Stabilized(n, Collapsed(m, n, t, q, p, b), SignedZ(n, q, b))
  {
    CollapseKeepsGood(m, n, t, q, p, b);
    StabilizerStabilizes(n, Collapsed(m, n, t, q, p, b), p);
    assert Collapsed(m, n, t, q, p, b)[p] == CollapsedRow(m, n, t, q, p, b, p);
  }

  // Without Z_q, or times Z_q, everything that stabilizes the new state
  // stabilized the old one.
  lemma CollapseComesFrom(m: Hardware, n: nat, t: seq<Signed>, q: nat, p: nat, b: bool, a: Pauli)
    requires Good(n, t) && q < n <= p < 2 * n && ExactSums(m, n, t, q, p) && t[p].row.x[q]
    requires Stabilized(n, Collapsed(m, n, t, q, p, b), a)
    ensures Stabilized(n, t, a) || Stabilized(n, t, Mul(n, SignedZ(n, q, b), a))
    ensures !Sp(a.row, ZAt(n, q))
  {
    var c := Collapsed(m, n, t, q, p, b);
    assert c[p] == CollapsedRow(m, n, t, q, p, b, p);
    CommutesWithGroup(n, c, a, p);
    StabilizersGenerate(n, t);
    var sel := WithoutGenerator(n, Stabilizers(n, c), p - n, a);
    WithoutNew(m, n, t, q, p, b, sel);
  }

  // An element, or its product with generator i, is chosen without i.
  lemma WithoutGenerator(n: nat, gens: seq<Signed>, i: nat, a: Pauli) returns (sel: seq<bool>)
    requires Generators(n, gens) && IsPauli(n, a) && InGroup(n, gens, a) && i < n
    ensures |sel| == n && !sel[i]
    ensures Chosen(n, gens, sel, n) in {a, Mul(n, Operator(gens[i]), a)}
  {
    sel :| Yields(n, gens, sel, a);
    if sel[i] {
      Toggle(n, gens, sel, i, n);
      sel := sel[i := false];
    }
  }

  // The state after a random outcome b is stabilized by exactly the old
  // stabilizers that commute with Z_q, and their products with (-1)^b Z_q.
  lemma StateAfterOutcome(m: Hardware, n: nat, t: seq<Signed>, q: nat, p: nat, b: bool, a: Pauli)
    requires Good(n, t) && q < n <= p < 2 * n && ExactSums(m, n, t, q, p) && t[p].row.x[q] && IsPauli(n, a)
    ensures Stabilized(n, Collapsed(m, n, t, q, p, b), a)
            <==> !Sp(a.row, ZAt(n, q)) && (Stabilized(n, t, a) || Stabilized(n, t, Mul(n, SignedZ(n, q, b), a)))
  {
    var c, z := Collapsed(m, n, t, q, p, b), SignedZ(n, q, b);
    if Stabilized(n, c, a) {
      CollapseComesFrom(m, n, t, q, p, b, a);
    } else if !Sp(a.row, ZAt(n, q)) {
      if Stabilized(n, t, a) {
        CollapseKeeps(m, n, t, q, p, b, a);
      } else if Stabilized(n, t, Mul(n, z, a)) {
        SpAdd(a.row, ZAt(n, q), ZAt(n, q));
        SpSelf(ZAt(n, q));
        CollapseKeeps(m, n, t, q, p, b, Mul(n, z, a));
        CollapseAdds(m, n, t, q, p, b);
        StabilizedProduct(n, c, z, Mul(n, z, a));
        Cancel(n, z, a);
      }
    }
  }

  // Without that condition an old stabilizer that commutes with Z_q is lost.
  lemma CollapseLoses(m: Hardware, n: nat, t: seq<Signed>, q: nat, p: nat, b: bool) returns (a: Pauli)
    requires Good(n, t) && q < n <= p < 2 * n && t[p].row.x[q] && !ExactSums(m, n, t, q, p)
    ensures IsPauli(n, a) && Stabilized(n, t, a) && !Sp(a.row, ZAt(n, q))
    ensures !Stabilized(n, Collapsed(m, n, t, q, p, b), a)
  {
    var j :| n <= j < 2 * n && j != p && t[j].row.x[q] && !EvenlyLost(m, n, t[j], t[p]);
    var c := Collapsed(m, n, t, q, p, b);
    a := Mul(n, Operator(t[p]), Operator(t[j]));
    StabilizerStabilizes(n, t, j);
    StabilizerStabilizes(n, t, p);
    StabilizedProduct(n, t, Operator(t[p]), Operator(t[j]));
    CommutesWithGroup(n, t, Operator(t[j]), p);
    SpUnits(a.row, n, q);
    ExactRowSum(m, n, t[j], t[p]);
    assert c[j] == CollapsedRow(m, n, t, q, p, b, j);
    CollapseKeepsGood(m, n, t, q, p, b);
    StabilizerStabilizes(n, c, j);
    if Stabilized(n, c, a) {
      OneSignPerRow(n, c, a, Operator(c[j]));
    }
  }

  ghost predicate RightAfter(m: Hardware, n: nat, t: seq<Signed>, q: nat, p: nat, b: bool)
    requires Good(n, t) && q < n <= p < 2 * n
  {
    forall a: Pauli :: IsPauli(n, a) ==>
      (Stabilized(n, Collapsed(m, n, t, q, p, b), a)
       <==> !Sp(a.row, ZAt(n, q)) && (Stabilized(n, t, a) || Stabilized(n, t, Mul(n, SignedZ(n, q, b), a))))
  }

  // For any number of qubits: the state after a random outcome is the right
  // one exactly when the row additions among the stabilizers lose no sign.
  lemma StateExactIff(m: Hardware, n: nat, t: seq<Signed>, q: nat, p: nat, b: bool)
    requires Good(n, t) && q < n <= p < 2 * n && t[p].row.x[q]
    ensures RightAfter(m, n, t, q, p, b) <==> ExactSums(m, n, t, q, p)
  {
    if ExactSums(m, n, t, q, p) {
      forall a: Pauli | IsPauli(n, a)
        ensures Stabilized(n, Collapsed(m, n, t, q, p, b), a)
                <==> !Sp(a.row, ZAt(n, q)) && (Stabilized(n, t, a) || Stabilized(n, t, Mul(n, SignedZ(n, q, b), a)))
      {
        StateAfterOutcome(m, n, t, q, p, b, a);
      }
    } else {
      var a := CollapseLoses(m, n, t, q, p, b);
    }
  }

  lemma Cancel(n: nat, z: Pauli, a: Pauli)
    requires IsPauli(n, z) && IsPauli(n, a) && z.k % 2 == 0
    ensures Mul(n, z, Mul(n, z, a)) == a
  {
    MulAssociates(n, z, z, a);
    MulSelf(n, z);
    MulOne(n, a);
  }

  // ----- flipping ---------------------------------------------------------

  ghost function FlippedPauli(n: nat, a: Pauli, q: nat): (r: Pauli)
    requires IsPauli(n, a) && q < n
    ensures IsPauli(n, r)
  {
    Pauli((a.k + Twice(a.row.z[q])) % 4, a.row)
  }

  lemma FlippedMul(n: nat, a: Pauli, b: Pauli, q: nat)
    requires IsPauli(n, a) && IsPauli(n, b) && q < n
    ensures Mul(n, FlippedPauli(n, a, q), FlippedPauli(n, b, q)) == FlippedPauli(n, Mul(n, a, b), q)
  {
    FlippedPhases(a.k, b.k, ExactSum(b.row, a.row, n), a.row.z[q], b.row.z[q]);
  }

  lemma FlippedPhases(k: int, k': int, e: int, u: bool, v: bool)
    ensures ((k + Twice(u)) % 4 + (k' + Twice(v)) % 4 + e) % 4 == ((k + k' + e) % 4 + Twice(v != u)) % 4
  {
    var a, b := (k + Twice(u)) / 4, (k' + Twice(v)) / 4;
    var s := k + k' + e;
    DropMultiple(s + Twice(u) + Twice(v), (k + Twice(u)) % 4 + (k' + Twice(v)) % 4 + e, a + b);
    DropMultiple(s + Twice(v != u), s % 4 + Twice(v != u), s / 4);
    TwiceXor(s, u, v);
  }

  lemma {:induction false} FlippedChosen(n: nat, gens: seq<Signed>, gens': seq<Signed>, sel: seq<bool>, q: nat, k: nat)
    requires Generators(n, gens) && Generators(n, gens') && q < n && |sel| == n && k <= n
    requires forall i :: 0 <= i < n ==> gens'[i] == FlippedRow(gens[i], q)
    ensures Chosen(n, gens', sel, k) == FlippedPauli(n, Chosen(n, gens, sel, k), q)
  {
    if k > 0 {
      FlippedChosen(n, gens, gens', sel, q, k - 1);
      if sel[k - 1] {
        assert Operator(gens'[k - 1]) == FlippedPauli(n, Operator(gens[k - 1]), q);
        FlippedMul(n, Operator(gens[k - 1]), Chosen(n, gens, sel, k - 1), q);
      }
    }
  }

  // X at q flips the sign of whatever has a z bit at q.
  lemma FlipFlips(n: nat, t: seq<Signed>, q: nat, a: Pauli)
    requires q < n && Stabilized(n, t, a)
    ensures Stabilized(n, Flipped(n, q, t), FlippedPauli(n, a, q))
  {
    FlipKeepsGood(n, q, t);
    StabilizersGenerate(n, Flipped(n, q, t));
    var sel: seq<bool> :| Yields(n, Stabilizers(n, t), sel, a);
    FlippedChosen(n, Stabilizers(n, t), Stabilizers(n, Flipped(n, q, t)), sel, q, n);
    assert Yields(n, Stabilizers(n, Flipped(n, q, t)), sel, FlippedPauli(n, a, q));
  }
}
