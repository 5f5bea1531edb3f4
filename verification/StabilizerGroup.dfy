// What the signs mean: the group generated by the signed stabilizer rows. For
// rows that fit one word, measuring and setting qubits follow this group.

module StabilizerGroup {
  import opened Symplectic
  import opened PauliPhase
  import opened GateCache
  import opened Tableau

  // ----- Pauli operators with a phase -------------------------------------

  // i^k times the tensor product of I, X, Y and Z that the row encodes.
  datatype Pauli = Pauli(k: int, row: Row)

  ghost predicate IsPauli(n: nat, a: Pauli) {
    0 <= a.k < 4 && IsRow(a.row, n)
  }

  ghost function One(n: nat): Pauli { Pauli(0, Zero(n)) }

  ghost function Operator(s: Signed): Pauli { Pauli(Twice(s.sign), s.row) }

  // a after b
  ghost function Mul(n: nat, a: Pauli, b: Pauli): (r: Pauli)
    requires IsPauli(n, a) && IsPauli(n, b)
    ensures IsPauli(n, r)
  {
    Pauli((a.k + b.k + ExactSum(b.row, a.row, n)) % 4, Add(b.row, a.row))
  }

  lemma AddParts(n: nat, a: Row, b: Row, j: nat)
    requires IsRow(a, n) && IsRow(b, n)
    ensures At(Add(a, b).x, j) == (At(a.x, j) != At(b.x, j)) && At(Add(a, b).z, j) == (At(a.z, j) != At(b.z, j))
  {
  }

  // The exponents of one qubit form a cocycle.
  lemma CocycleAt(xa: bool, za: bool, xb: bool, zb: bool, xc: bool, zc: bool)
    ensures (Exponent(xc, zc, xb, zb) + Exponent(xc != xb, zc != zb, xa, za)) % 4
            == (Exponent(xb, zb, xa, za) + Exponent(xc, zc, xb != xa, zb != za)) % 4
  {
  }

  lemma {:induction false} Cocycle(n: nat, a: Row, b: Row, c: Row, k: nat)
    requires IsRow(a, n) && IsRow(b, n) && IsRow(c, n)
    ensures (ExactSum(c, b, k) + ExactSum(Add(c, b), a, k)) % 4
            == (ExactSum(b, a, k) + ExactSum(c, Add(b, a), k)) % 4
  {
    if k > 0 {
      var j := k - 1;
      Cocycle(n, a, b, c, j);
      AddParts(n, c, b, j);
      AddParts(n, b, a, j);
      CocycleAt(At(a.x, j), At(a.z, j), At(b.x, j), At(b.z, j), At(c.x, j), At(c.z, j));
      AddMod4(ExactSum(c, b, j) + ExactSum(Add(c, b), a, j), ExactSum(b, a, j) + ExactSum(c, Add(b, a), j),
              ExponentAt(c, b, j) + ExponentAt(Add(c, b), a, j), ExponentAt(b, a, j) + ExponentAt(c, Add(b, a), j));
    }
  }

  lemma AddAssociates(n: nat, a: Row, b: Row, c: Row)
    requires IsRow(a, n) && IsRow(b, n) && IsRow(c, n)
    ensures Add(Add(c, b), a) == Add(c, Add(b, a)) && Add(a, b) == Add(b, a)
  {
    assert Add(Add(c, b), a).x == Add(c, Add(b, a)).x && Add(Add(c, b), a).z == Add(c, Add(b, a)).z;
    assert Add(a, b).x == Add(b, a).x && Add(a, b).z == Add(b, a).z;
  }

  lemma PhasesAssociate(a: int, b: int, c: int, cb: int, cba: int, ba: int, cba': int)
    requires (cb + cba) % 4 == (ba + cba') % 4
    ensures (a + (b + c + cb) % 4 + cba) % 4 == ((a + b + ba) % 4 + c + cba') % 4
  {
    AddMod4((b + c + cb) % 4, b + c + cb, a + cba, a + cba);
    AddMod4((a + b + ba) % 4, a + b + ba, c + cba', c + cba');
    AddMod4(cb + cba, ba + cba', a + b + c, a + b + c);
  }

  lemma MulAssociates(n: nat, a: Pauli, b: Pauli, c: Pauli)
    requires IsPauli(n, a) && IsPauli(n, b) && IsPauli(n, c)
    ensures Mul(n, a, Mul(n, b, c)) == Mul(n, Mul(n, a, b), c)
  {
    Cocycle(n, a.row, b.row, c.row, n);
    AddAssociates(n, a.row, b.row, c.row);
    PhasesAssociate(a.k, b.k, c.k, ExactSum(c.row, b.row, n), ExactSum(Add(c.row, b.row), a.row, n),
                    ExactSum(b.row, a.row, n), ExactSum(c.row, Add(b.row, a.row), n));
  }

  // Exchanging two factors costs a sign at every qubit where they clash.
  lemma {:induction false} SwapFactors(n: nat, h: Row, i: Row, k: nat)
    requires IsRow(h, n) && IsRow(i, n) && k <= n
    ensures ExactSum(h, i, k) % 4 == (ExactSum(i, h, k) + Twice(Parity(Clashes(h, i)[..k]))) % 4
  {
    if k > 0 {
      var j, c := k - 1, Clashes(h, i);
      SwapFactors(n, h, i, j);
      assert c[..k][..j] == c[..j];
      assert c[..k][j] == Clash(h, i, j);
      SwapAt(At(h.x, j), At(h.z, j), At(i.x, j), At(i.z, j));
      AddMod4(ExactSum(h, i, j), ExactSum(i, h, j) + Twice(Parity(c[..j])),
              ExponentAt(h, i, j), ExponentAt(i, h, j) + Twice(Clash(h, i, j)));
      TwiceXor(ExactSum(i, h, k), Parity(c[..j]), Clash(h, i, j));
    }
  }

  lemma SwapAt(xh: bool, zh: bool, xi: bool, zi: bool)
    ensures Exponent(xh, zh, xi, zi) % 4 == (Exponent(xi, zi, xh, zh) + Twice((xh && zi) != (zh && xi))) % 4
  {
  }

  lemma TwiceXor(e: int, a: bool, b: bool)
    ensures (e + Twice(a) + Twice(b)) % 4 == (e + Twice(a != b)) % 4
  {
  }

  lemma MulCommutes(n: nat, a: Pauli, b: Pauli)
    requires IsPauli(n, a) && IsPauli(n, b) && !Sp(a.row, b.row)
    ensures Mul(n, a, b) == Mul(n, b, a)
  {
    SwapFactors(n, b.row, a.row, n);
    assert Clashes(b.row, a.row)[..n] == Clashes(b.row, a.row);
    SpSymmetric(a.row, b.row);
    AddAssociates(n, a.row, b.row, a.row);
    AddMod4(ExactSum(b.row, a.row, n), ExactSum(a.row, b.row, n), a.k + b.k, a.k + b.k);
  }

  lemma MulOne(n: nat, a: Pauli)
    requires IsPauli(n, a)
    ensures Mul(n, One(n), a) == a == Mul(n, a, One(n))
  {
    SumZero(Exponents(a.row, Zero(n)), n);
    SumZero(Exponents(Zero(n), a.row), n);
    assert Add(a.row, Zero(n)).x == a.row.x && Add(a.row, Zero(n)).z == a.row.z;
    assert Add(Zero(n), a.row).x == a.row.x && Add(Zero(n), a.row).z == a.row.z;
  }

  lemma MulSelf(n: nat, a: Pauli)
    requires IsPauli(n, a) && a.k % 2 == 0
    ensures Mul(n, a, a) == One(n)
  {
    SumZero(Exponents(a.row, a.row), n);
    assert Add(a.row, a.row).x == Zero(n).x && Add(a.row, a.row).z == Zero(n).z;
  }

  // ----- the generated group ----------------------------------------------

  ghost predicate Generators(n: nat, gens: seq<Signed>) {
    && |gens| == n
    && (forall i :: 0 <= i < n ==> IsSigned(gens[i], n))
    && forall i, j {:trigger Sp(gens[i].row, gens[j].row)} ::
         0 <= i < n && 0 <= j < n ==> !Sp(gens[i].row, gens[j].row)
  }

  ghost function Chosen(n: nat, gens: seq<Signed>, sel: seq<bool>, k: nat): (r: Pauli)
    requires Generators(n, gens) && |sel| == n && k <= n
    ensures IsPauli(n, r)
  {
    if k == 0 then One(n)
    else if sel[k - 1] then Mul(n, Operator(gens[k - 1]), Chosen(n, gens, sel, k - 1))
    else Chosen(n, gens, sel, k - 1)
  }

  ghost predicate InGroup(n: nat, gens: seq<Signed>, a: Pauli)
    requires Generators(n, gens)
  {
    exists sel: seq<bool> :: Yields(n, gens, sel, a)
  }

  ghost predicate Yields(n: nat, gens: seq<Signed>, sel: seq<bool>, a: Pauli)
    requires Generators(n, gens)
  {
    |sel| == n && Chosen(n, gens, sel, n) == a
  }

  lemma {:induction false} ChosenSame(n: nat, gens: seq<Signed>, sel: seq<bool>, sel': seq<bool>, k: nat)
    requires Generators(n, gens) && |sel| == |sel'| == n && k <= n
    requires forall i :: 0 <= i < k ==> sel[i] == sel'[i]
    ensures Chosen(n, gens, sel, k) == Chosen(n, gens, sel', k)
  {
    if k > 0 {
      ChosenSame(n, gens, sel, sel', k - 1);
    }
  }

  lemma {:induction false} ChosenNone(n: nat, gens: seq<Signed>, sel: seq<bool>, k: nat)
    requires Generators(n, gens) && |sel| == n && k <= n && forall i :: 0 <= i < k ==> !sel[i]
    ensures Chosen(n, gens, sel, k) == One(n)
  {
    if k > 0 {
      ChosenNone(n, gens, sel, k - 1);
    }
  }

  // Multiplying by a generator toggles it.
  lemma {:induction false} Toggle(n: nat, gens: seq<Signed>, sel: seq<bool>, j: nat, k: nat)
    requires Generators(n, gens) && |sel| == n && j < k <= n
    ensures Mul(n, Operator(gens[j]), Chosen(n, gens, sel, k)) == Chosen(n, gens, sel[j := !sel[j]], k)
  {
    var g, c := Operator(gens[j]), Chosen(n, gens, sel, k - 1);
    if j == k - 1 {
      ChosenSame(n, gens, sel, sel[j := !sel[j]], j);
      if sel[j] {
        MulAssociates(n, g, g, c);
        MulSelf(n, g);
        MulOne(n, c);
      }
    } else {
      Toggle(n, gens, sel, j, k - 1);
      if sel[k - 1] {
        MoveIn(n, g, Operator(gens[k - 1]), c);
      }
    }
  }

  lemma MoveIn(n: nat, a: Pauli, b: Pauli, c: Pauli)
    requires IsPauli(n, a) && IsPauli(n, b) && IsPauli(n, c) && !Sp(a.row, b.row)
    ensures Mul(n, a, Mul(n, b, c)) == Mul(n, b, Mul(n, a, c))
  {
    MulAssociates(n, a, b, c);
    MulAssociates(n, b, a, c);
    MulCommutes(n, a, b);
  }

  lemma GroupHasOne(n: nat, gens: seq<Signed>)
    requires Generators(n, gens)
    ensures InGroup(n, gens, One(n))
  {
    var none := seq(n, _ => false);
    ChosenNone(n, gens, none, n);
    assert Yields(n, gens, none, One(n));
  }

  lemma GroupTimesGenerator(n: nat, gens: seq<Signed>, j: nat, a: Pauli)
    requires Generators(n, gens) && j < n && IsPauli(n, a) && InGroup(n, gens, a)
    ensures InGroup(n, gens, Mul(n, Operator(gens[j]), a))
  {
    var sel: seq<bool> :| Yields(n, gens, sel, a);
    Toggle(n, gens, sel, j, n);
    assert Yields(n, gens, sel[j := !sel[j]], Mul(n, Operator(gens[j]), a));
  }

  lemma GroupHasGenerator(n: nat, gens: seq<Signed>, j: nat)
    requires Generators(n, gens) && j < n
    ensures InGroup(n, gens, Operator(gens[j]))
  {
    GroupHasOne(n, gens);
    GroupTimesGenerator(n, gens, j, One(n));
    MulOne(n, Operator(gens[j]));
  }

  lemma {:induction false} ChosenTimes(n: nat, gens: seq<Signed>, sel: seq<bool>, k: nat, b: Pauli)
    requires Generators(n, gens) && |sel| == n && k <= n && IsPauli(n, b) && InGroup(n, gens, b)
    ensures InGroup(n, gens, Mul(n, Chosen(n, gens, sel, k), b))
  {
    if k == 0 {
      MulOne(n, b);
    } else {
      ChosenTimes(n, gens, sel, k - 1, b);
      if sel[k - 1] {
        var g, c := Operator(gens[k - 1]), Chosen(n, gens, sel, k - 1);
        MulAssociates(n, g, c, b);
        GroupTimesGenerator(n, gens, k - 1, Mul(n, c, b));
      }
    }
  }

  lemma GroupCloses(n: nat, gens: seq<Signed>, a: Pauli, b: Pauli)
    requires Generators(n, gens) && IsPauli(n, a) && IsPauli(n, b) && InGroup(n, gens, a) && InGroup(n, gens, b)
    ensures InGroup(n, gens, Mul(n, a, b))
  {
    var sel: seq<bool> :| Yields(n, gens, sel, a);
    ChosenTimes(n, gens, sel, n, b);
  }

  // Products of elements of the group are in the group.
  lemma {:induction false} ChosenFromGroup(n: nat, gens: seq<Signed>, gens': seq<Signed>, sel: seq<bool>, k: nat)
    requires Generators(n, gens) && Generators(n, gens') && |sel| == n && k <= n
    requires forall i :: 0 <= i < n && sel[i] ==> InGroup(n, gens, Operator(gens'[i]))
    ensures InGroup(n, gens, Chosen(n, gens', sel, k))
  {
    if k == 0 {
      GroupHasOne(n, gens);
    } else {
      ChosenFromGroup(n, gens, gens', sel, k - 1);
      if sel[k - 1] {
        GroupCloses(n, gens, Operator(gens'[k - 1]), Chosen(n, gens', sel, k - 1));
      }
    }
  }

  // A row that commutes with every generator commutes with the group.
  lemma {:induction false} CommutesWithChosen(n: nat, gens: seq<Signed>, sel: seq<bool>, k: nat, v: Row)
    requires Generators(n, gens) && |sel| == n && k <= n && IsRow(v, n)
    requires forall i :: 0 <= i < n ==> !Sp(gens[i].row, v)
    ensures !Sp(Chosen(n, gens, sel, k).row, v)
  {
    if k == 0 {
      SpZero(v, n);
    } else {
      CommutesWithChosen(n, gens, sel, k - 1, v);
      if sel[k - 1] {
        SpAdd(Chosen(n, gens, sel, k - 1).row, gens[k - 1].row, v);
      }
    }
  }

  // A row that anticommutes with one generator only reads off its selection.
  lemma {:induction false} ReadSelection(n: nat, gens: seq<Signed>, sel: seq<bool>, k: nat, v: Row, i: nat)
    requires Generators(n, gens) && |sel| == n && k <= n && IsRow(v, n) && i < n
    requires forall j :: 0 <= j < n ==> (Sp(gens[j].row, v) <==> j == i)
    ensures Sp(Chosen(n, gens, sel, k).row, v) == (i < k && sel[i])
  {
    if k == 0 {
      SpZero(v, n);
    } else {
      ReadSelection(n, gens, sel, k - 1, v, i);
      if sel[k - 1] {
        SpAdd(Chosen(n, gens, sel, k - 1).row, gens[k - 1].row, v);
      }
    }
  }
}
