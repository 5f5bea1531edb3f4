// Collected gates with invertible matrices do not annihilate every state, so
// for them the condition under which a 1x1 matrix is inserted right is exact.

module InvertibleGates {
  import opened Sequences
  import opened Bits
  import opened Complexes
  import opened Operators
  import opened GateFusion
  import opened FusedGates

  // The terms of entry (i, k) of m times w.
  ghost function Products(m: Matrix, w: Matrix, i: nat, k: nat): nat -> Complex {
    (j: nat) => Mul(Entry(w, j, k), Entry(m, i, j))
  }

  // m times w is the identity.
  ghost predicate IsInverse(m: Matrix, w: Matrix, n: nat) {
    && IsMatrix(m, n) && IsMatrix(w, n)
    && forall i: nat, k: nat :: i < Pow2(n) && k < Pow2(n) ==> Sum(Products(m, w, i, k), Pow2(n)) == if i == k then ONE else ZERO
  }

  ghost predicate Invertible(item: Item) {
    exists w: Matrix :: IsInverse(item.mat, w, |item.idx|)
  }

  ghost predicate AllInvertible(items: seq<Item>) {
    forall i :: 0 <= i < |items| ==> Invertible(items[i])
  }

  // ----- reaching every state ---------------------------------------------

  lemma OwnPositions(idx: seq<nat>) returns (pos: seq<nat>)
    requires Distinct(idx)
    ensures Located(idx, idx, pos)
  {
    pos := seq(|idx|, l requires 0 <= l => l);
  }

  // Applying the inverse first gives the state back.
  lemma InverseApplies(m: Matrix, w: Matrix, idx: seq<nat>, phi: Wave, a: set<nat>)
    requires Distinct(idx) && IsInverse(m, w, |idx|)
    ensures Apply(m, idx, Apply(w, idx, phi))(a) == phi(a)
  {
    var pos := OwnPositions(idx);
    var i, n, item := Local(a, idx), |idx|, Item(m, idx);
    var step := Step(w, n, m, pos);
    StepComposes(w, item, idx, pos, phi, a);
    var f := Terms(step, idx, phi, a);
    forall k: nat | k < Pow2(n) ensures Entry(step, i, k) == if i == k then ONE else ZERO {
      ProductEntry(m, w, idx, pos, a, k);
    }
    MulUnits(phi(a));
    forall k: nat | k < Pow2(n) && k != i ensures f(k) == ZERO {
      MulUnits(phi(With(a, idx, k)));
    }
    SumOfOne(f, Pow2(n), i);
    WithLocal(a, idx);
  }

  lemma ProductEntry(m: Matrix, w: Matrix, idx: seq<nat>, pos: seq<nat>, a: set<nat>, k: nat)
    requires Located(idx, idx, pos) && IsInverse(m, w, |idx|) && k < Pow2(|idx|)
    ensures Entry(Step(w, |idx|, m, pos), Local(a, idx), k) == if Local(a, idx) == k then ONE else ZERO
  {
    var i, n := Local(a, idx), Pow2(|idx|);
    StepEntry(w, |idx|, m, pos, i, k);
    LocalByPosition(a, idx, idx, pos);
    var f, g := StepTerms(w, m, pos, i, k), Products(m, w, i, k);
    forall j: nat | j < n ensures f(j) == g(j) {
      LocalReplaced(a, idx, idx, pos, j);
      LocalWith(a, idx, j);
    }
    SumSame(f, g, n);
  }

  // Every state is the result of some state.
  lemma {:induction false} ProductOnto(items: seq<Item>, qubits: set<nat>, phi: Wave) returns (psi: Wave)
    requires AllInvertible(items) && forall i :: 0 <= i < |items| ==> ItemOk(items[i], qubits)
    ensures forall a: set<nat> :: Product(items, psi)(a) == phi(a)
  {
    if items == [] {
      return phi;
    }
    var k := |items| - 1;
    var item, rest := items[k], items[..k];
    assert Invertible(item) && ItemOk(item, qubits);
    var w: Matrix :| IsInverse(item.mat, w, |item.idx|);
    psi := ProductOnto(rest, qubits, Apply(w, item.idx, phi));
    forall a: set<nat> ensures Product(items, psi)(a) == phi(a) {
      ApplySame(item.mat, item.idx, Product(rest, psi), Apply(w, item.idx, phi), a);
      InverseApplies(item.mat, w, item.idx, phi, a);
    }
  }

  lemma NotAnnihilating(f: Fused)
    requires FusedOk(f) && AllInvertible(f.items) && f.factor != ZERO
    ensures exists psi: Wave :: Denote(f, psi)(f.ctrls) != ZERO
  {
    var psi := ProductOnto(f.items, f.qubits, (a: set<nat>) => ONE);
    MulUnits(f.factor);
    assert Denote(f, psi)(f.ctrls) != ZERO;
  }

  // A 1x1 matrix goes into the factor right exactly when it is 1 or its
  // controls are the common ones.
  lemma InvertibleFactorExactIff(f: Fused, m: Matrix, ctrls: set<nat>)
    requires FusedOk(f) && AllInvertible(f.items) && f.factor != ZERO && IsMatrix(m, 0)
    ensures SameMeaning(f, f.(factor := Mul(f.factor, m[0][0])), m, [], ctrls) <==> m[0][0] == ONE || ctrls == f.ctrls
  {
    NotAnnihilating(f);
    FactorExactIff(f, m, ctrls);
  }

  // ----- what insertions keep ---------------------------------------------

  // The inverse of a controlled matrix is the controlled inverse.
  lemma AddedInverse(m: Matrix, w: Matrix, k: nat, c: nat)
    requires IsInverse(m, w, k)
    ensures IsInverse(Added(m, k, c), Added(w, k, c), k + c)
  {
    forall i: nat, j: nat | i < Pow2(k + c) && j < Pow2(k + c)
      ensures Sum(Products(Added(m, k, c), Added(w, k, c), i, j), Pow2(k + c)) == if i == j then ONE else ZERO
    {
      if i < Offset(k, c) {
        RowBeforeBlock(m, w, k, c, i, j);
      } else {
        RowInBlock(m, w, k, c, i, j);
      }
    }
  }

  lemma RowBeforeBlock(m: Matrix, w: Matrix, k: nat, c: nat, i: nat, j: nat)
    requires i < Offset(k, c) && j < Pow2(k + c)
    ensures Sum(Products(Added(m, k, c), Added(w, k, c), i, j), Pow2(k + c)) == if i == j then ONE else ZERO
  {
    var f, n := Products(Added(m, k, c), Added(w, k, c), i, j), Pow2(k + c);
    forall x: nat | x < n && x != i ensures f(x) == ZERO {
      RowOfIdentity(m, k, c, i, x);
      MulUnits(Entry(Added(w, k, c), x, j));
    }
    SumOfOne(f, n, i);
    RowOfIdentity(m, k, c, i, i);
    RowOfIdentity(w, k, c, i, j);
    MulUnits(Entry(Added(w, k, c), i, j));
  }

  lemma RowOfIdentity(m: Matrix, k: nat, c: nat, i: nat, x: nat)
    requires i < Offset(k, c) && x < Pow2(k + c)
    ensures Entry(Added(m, k, c), i, x) == if i == x then ONE else ZERO
  {
  }

  lemma RowInBlock(m: Matrix, w: Matrix, k: nat, c: nat, i: nat, j: nat)
    requires IsInverse(m, w, k) && Offset(k, c) <= i < Pow2(k + c) && j < Pow2(k + c)
    ensures Sum(Products(Added(m, k, c), Added(w, k, c), i, j), Pow2(k + c)) == if i == j then ONE else ZERO
  {
    var offset := Offset(k, c);
    if j < offset {
      ColumnBeforeBlock(m, w, k, c, i, j);
    } else {
      SumOverBlock(m, w, k, c, i, j, i - offset, j - offset);
    }
  }

  lemma SumOverBlock(m: Matrix, w: Matrix, k: nat, c: nat, i: nat, j: nat, i0: nat, j0: nat)
    requires i0 < Pow2(k) && j0 < Pow2(k) && i == i0 + Offset(k, c) && j == j0 + Offset(k, c)
    ensures Sum(Products(Added(m, k, c), Added(w, k, c), i, j), Pow2(k + c)) == Sum(Products(m, w, i0, j0), Pow2(k))
  {
    var offset, n := Offset(k, c), Pow2(k);
    var f, g := Products(Added(m, k, c), Added(w, k, c), i, j), Products(m, w, i0, j0);
    forall x: nat | x < offset ensures f(x) == ZERO {
      BlockEntries(m, w, k, c, i0, x, j);
      MulUnits(Entry(Added(w, k, c), x, j));
    }
    forall x: nat | x < n ensures g(x) == f(offset + x) {
      ProductInBlock(m, w, k, c, i, j, i0, j0, x, offset + x);
    }
    SumSkips(f, g, offset, n);
  }

  lemma ProductInBlock(m: Matrix, w: Matrix, k: nat, c: nat, i: nat, j: nat, i0: nat, j0: nat, x0: nat, x: nat)
    requires i0 < Pow2(k) && j0 < Pow2(k) && x0 < Pow2(k)
    requires i == i0 + Offset(k, c) && j == j0 + Offset(k, c) && x == x0 + Offset(k, c)
    ensures Products(Added(m, k, c), Added(w, k, c), i, j)(x) == Products(m, w, i0, j0)(x0)
  {
    BlockEntries(m, w, k, c, i0, x, j);
  }

  lemma ColumnBeforeBlock(m: Matrix, w: Matrix, k: nat, c: nat, i: nat, j: nat)
    requires Offset(k, c) <= i < Pow2(k + c) && j < Offset(k, c)
    ensures Sum(Products(Added(m, k, c), Added(w, k, c), i, j), Pow2(k + c)) == ZERO
  {
    var f := Products(Added(m, k, c), Added(w, k, c), i, j);
    forall x: nat | x < Pow2(k + c) ensures f(x) == ZERO {
      BlockEntries(m, w, k, c, i - Offset(k, c), x, j);
      MulUnits(Entry(Added(m, k, c), i, x));
      MulUnits(Entry(Added(w, k, c), x, j));
    }
    SumOfZeros(f, Pow2(k + c));
  }

  lemma BlockEntries(m: Matrix, w: Matrix, k: nat, c: nat, i: nat, x: nat, j: nat)
    requires i < Pow2(k) && x < Pow2(k + c) && j < Pow2(k + c)
    ensures Entry(Added(m, k, c), i + Offset(k, c), x) == if x < Offset(k, c) then ZERO else Entry(m, i, x - Offset(k, c))
    ensures x >= Offset(k, c) ==>
              Entry(Added(w, k, c), x, j) == if j < Offset(k, c) then ZERO else Entry(w, x - Offset(k, c), j - Offset(k, c))
  {
    AddedEntries(m, k, c, i, x);
    if x >= Offset(k, c) {
      AddedEntries(w, k, c, x - Offset(k, c), j);
    }
  }

  lemma AddedInvertible(item: Item, cs: seq<nat>)
    requires Invertible(item)
    ensures Invertible(AddToItem(item, cs))
  {
    var w: Matrix :| IsInverse(item.mat, w, |item.idx|);
    AddedInverse(item.mat, w, |item.idx|, |cs|);
    assert IsInverse(AddToItem(item, cs).mat, Added(w, |item.idx|, |cs|), |item.idx + cs|);
  }

  // Inserting an invertible gate keeps all collected gates invertible.
  lemma InsertKeepsInvertible(f: Fused, f': Fused, m: Matrix, idx: seq<nat>, ctrls: set<nat>, gained: seq<nat>, dropped: seq<nat>)
    requires Inserted(f, f', m, idx, ctrls, gained, dropped) && AllInvertible(f.items) && Invertible(Item(m, idx))
    ensures AllInvertible(f'.items) && f'.factor == f.factor
  {
    AddedInvertible(Item(m, idx), gained);
    forall i | 0 <= i < |f'.items| ensures Invertible(f'.items[i]) {
      if i < |f.items| {
        AddedInvertible(f.items[i], dropped);
      }
    }
  }

  // ----- whole runs -------------------------------------------------------

  ghost predicate InvertibleGate(g: Controlled) {
    if g.idx == [] then Entry(g.mat, 0, 0) != ZERO else Invertible(Item(g.mat, g.idx))
  }

  // While only invertible gates are inserted, no run annihilates every state.
  lemma {:induction false} RunStaysInvertible(states: seq<Fused>, gates: seq<Controlled>, k: nat)
    requires IsRun(states, gates) && k <= |gates| && forall i :: 0 <= i < |gates| ==> InvertibleGate(gates[i])
    ensures AllInvertible(states[k].items) && states[k].factor != ZERO
  {
    if k > 0 {
      var f, f', g := states[k - 1], states[k], gates[k - 1];
      RunStaysInvertible(states, gates, k - 1);
      assert StepOf(f, states[k - 1 + 1], g) && InvertibleGate(g);
      if g.idx == [] {
        NonzeroProduct(f.factor, Entry(g.mat, 0, 0));
      } else {
        var gained, dropped :| Inserted(f, f', g.mat, g.idx, g.ctrls, gained, dropped);
        InsertKeepsInvertible(f, f', g.mat, g.idx, g.ctrls, gained, dropped);
      }
    }
  }

  // In such a run a 1x1 gate keeps the meaning exactly when it is 1 or brings
  // the common controls.
  lemma RunFactorExactIff(states: seq<Fused>, gates: seq<Controlled>, k: nat)
    requires IsRun(states, gates) && k < |gates| && gates[k].idx == []
    requires forall i :: 0 <= i < |gates| ==> InvertibleGate(gates[i])
    ensures SameMeaning(states[k], states[k + 1], gates[k].mat, [], gates[k].ctrls)
            <==> Entry(gates[k].mat, 0, 0) == ONE || gates[k].ctrls == states[k].ctrls
  {
    assert StepOf(states[k], states[k + 1], gates[k]);
    RunStaysInvertible(states, gates, k);
    InvertibleFactorExactIff(states[k], gates[k].mat, gates[k].ctrls);
  }
}
