// Fusing gates: the matrices of several controlled gates collected under one
// set of controls, and multiplied out into one matrix.

module GateFusion {
  import opened Sequences
  import opened Bits
  import opened QubitSwap
  import opened Complexes
  import opened Operators

  // ----- adding controls to a matrix --------------------------------------

  // The new qubits are the highest bits; the old matrix is the last block.
  function AddedEntry(m: Matrix, offset: nat, i: nat, j: nat): Complex {
    if i < offset then (if i == j then ONE else ZERO)
    else if j < offset then ZERO
    else Entry(m, i - offset, j - offset)
  }

  function Offset(k: nat, c: nat): (r: nat)
    ensures r + Pow2(k) == Pow2(k + c)
  {
    PowerAtLeast(k, c);
    Pow2(k + c) - Pow2(k)
  }

  lemma PowerAtLeast(k: nat, c: nat)
    ensures Pow2(k) <= Pow2(k + c)
  {
    if c > 0 {
      Pow2Grows(k, k + c);
    }
  }

  lemma OffsetIsProduct(k: nat, c: nat)
    ensures Offset(k, c) == Pow2(k) * (Pow2(c) - 1)
  {
    Pow2Sum(k, c);
    assert Pow2(k) * Pow2(c) == Pow2(k) * (Pow2(c) - 1) + Pow2(k);
  }

  ghost function Added(m: Matrix, k: nat, c: nat): (r: Matrix)
    ensures IsMatrix(r, k + c)
  {
    seq(Pow2(k + c), i requires 0 <= i => seq(Pow2(k + c), j requires 0 <= j => AddedEntry(m, Offset(k, c), i, j)))
  }

  lemma {:induction false} BitsOfSum(x: nat, y: nat, k: nat, l: nat)
    requires x < Pow2(k)
    ensures Bit(x + Pow2(k) * y, l) == if l < k then Bit(x, l) else Bit(y, l - k)
  {
    if k > 0 {
      assert (x + Pow2(k) * y) / 2 == x / 2 + Pow2(k - 1) * y && (x + Pow2(k) * y) % 2 == x % 2 by {
        HalfOfSum(x, Pow2(k - 1) * y);
        assert Pow2(k) * y == 2 * (Pow2(k - 1) * y);
      }
      if l > 0 {
        BitsOfSum(x / 2, y, k - 1, l - 1);
      }
    }
  }

  lemma HalfOfSum(x: nat, h: nat)
    ensures (x + 2 * h) / 2 == x / 2 + h && (x + 2 * h) % 2 == x % 2
  {
  }

  lemma {:induction false} BitsOfOnes(c: nat, l: nat)
    ensures Bit(Pow2(c) - 1, l) <==> l < c
  {
    if c == 0 {
      BitOfZero(l);
    } else {
      HalfOfSum(1, Pow2(c - 1) - 1);
      if l > 0 {
        BitsOfOnes(c - 1, l - 1);
      }
    }
  }

  lemma LocalOfBoth(a: set<nat>, idx: seq<nat>, cs: seq<nat>)
    ensures Local(a, idx + cs) == Local(a, idx) + Pow2(|idx|) * Local(a, cs)
  {
    var both := Local(a, idx) + Pow2(|idx|) * Local(a, cs);
    BitsOfBoth(a, idx, cs, both);
    SameBits(Local(a, idx + cs), both);
  }

  lemma BitsOfBoth(a: set<nat>, idx: seq<nat>, cs: seq<nat>, both: nat)
    requires both == Local(a, idx) + Pow2(|idx|) * Local(a, cs)
    ensures forall l: nat :: Bit(Local(a, idx + cs), l) == Bit(both, l)
  {
    forall l: nat ensures Bit(Local(a, idx + cs), l) == Bit(both, l) {
      BitsOfSum(Local(a, idx), Local(a, cs), |idx|, l);
      LocalBits(a, idx + cs, l);
      LocalBits(a, idx, l);
      if l >= |idx| {
        LocalBits(a, cs, l - |idx|);
      }
    }
  }

  lemma LocalOfControls(a: set<nat>, cs: seq<nat>)
    ensures Local(a, cs) == Pow2(|cs|) - 1 <==> Elements(cs) <= a
  {
    if Elements(cs) <= a {
      forall l: nat ensures Bit(Local(a, cs), l) == Bit(Pow2(|cs|) - 1, l) {
        LocalBits(a, cs, l);
        BitsOfOnes(|cs|, l);
      }
      SameBits(Local(a, cs), Pow2(|cs|) - 1);
    } else {
      var q :| q in cs && q !in a;
      var l :| 0 <= l < |cs| && cs[l] == q;
      LocalBits(a, cs, l);
      BitsOfOnes(|cs|, l);
    }
  }

  lemma InLastBlock(x: nat, y: nat, k: nat, c: nat)
    requires x < Pow2(k) && y < Pow2(c)
    ensures x + Pow2(k) * y >= Offset(k, c) <==> y == Pow2(c) - 1
    ensures x + Pow2(k) * y < Pow2(k + c)
  {
    Pow2Sum(k, c);
    OffsetIsProduct(k, c);
    NextMultiple(Pow2(k), y, Pow2(c));
    if y < Pow2(c) - 1 {
      NextMultiple(Pow2(k), y, Pow2(c) - 1);
    }
  }

  // With all new qubits 1 the state is addressed as before.
  lemma WithOnes(a: set<nat>, idx: seq<nat>, cs: seq<nat>, j: nat)
    requires Distinct(idx + cs) && Elements(cs) <= a && j < Pow2(|idx|)
    ensures With(a, idx + cs, j + Offset(|idx|, |cs|)) == With(a, idx, j)
  {
    DistinctParts(idx, cs);
    forall q ensures q in With(a, idx + cs, j + Offset(|idx|, |cs|)) <==> q in With(a, idx, j) {
      WithOnesAt(a, idx, cs, j, q);
    }
  }

  lemma WithOnesAt(a: set<nat>, idx: seq<nat>, cs: seq<nat>, j: nat, q: nat)
    requires Distinct(idx + cs) && Distinct(idx) && Elements(cs) <= a && j < Pow2(|idx|)
    requires q in idx ==> q !in cs
    ensures q in With(a, idx + cs, j + Offset(|idx|, |cs|)) <==> q in With(a, idx, j)
  {
    WithElements(a, idx + cs, j + Offset(|idx|, |cs|), q);
    WithElements(a, idx, j, q);
    if l: nat :| l < |idx| && idx[l] == q {
      assert (idx + cs)[l] == q;
      BitsPlusOffset(j, |idx|, |cs|, l);
    } else if l: nat :| l < |cs| && cs[l] == q {
      assert (idx + cs)[|idx| + l] == q;
      BitsPlusOffset(j, |idx|, |cs|, |idx| + l);
    }
  }

  lemma BitsPlusOffset(j: nat, k: nat, c: nat, l: nat)
    requires j < Pow2(k) && l < k + c
    ensures Bit(j + Offset(k, c), l) == (l >= k || Bit(j, l))
  {
    OffsetIsProduct(k, c);
    BitsOfSum(j, Pow2(c) - 1, k, l);
    if l >= k {
      BitsOfOnes(c, l - k);
    }
  }

  // add_controls makes the gate controlled by the new qubits too.
  lemma AddedControlsControl(m: Matrix, idx: seq<nat>, cs: seq<nat>, psi: Wave, a: set<nat>)
    requires Distinct(idx + cs)
    ensures Apply(Added(m, |idx|, |cs|), idx + cs, psi)(a) == Gate(m, idx, Elements(cs), psi)(a)
  {
    var i, n := Local(a, idx + cs), Pow2(|idx + cs|);
    LocalOfBoth(a, idx, cs);
    LocalOfControls(a, cs);
    OffsetIsProduct(|idx|, |cs|);
    InLastBlock(Local(a, idx), Local(a, cs), |idx|, |cs|);
    if Elements(cs) <= a {
      LastBlock(m, idx, cs, psi, a);
    } else {
      var f := Terms(Added(m, |idx|, |cs|), idx + cs, psi, a);
      forall j: nat | j < n && j != i ensures f(j) == ZERO {
        MulUnits(psi(With(a, idx + cs, j)));
      }
      SumOfOne(f, n, i);
      WithLocal(a, idx + cs);
      MulUnits(psi(a));
    }
  }

  lemma LastBlock(m: Matrix, idx: seq<nat>, cs: seq<nat>, psi: Wave, a: set<nat>)
    requires Distinct(idx + cs) && Elements(cs) <= a && Local(a, idx + cs) == Local(a, idx) + Offset(|idx|, |cs|)
    ensures Apply(Added(m, |idx|, |cs|), idx + cs, psi)(a) == Apply(m, idx, psi)(a)
  {
    var offset, k, all := Offset(|idx|, |cs|), Pow2(|idx|), idx + cs;
    var added := Added(m, |idx|, |cs|);
    var f, g := Terms(added, all, psi, a), Terms(m, idx, psi, a);
    forall j: nat | j < offset ensures f(j) == ZERO {
      AddedEntries(m, |idx|, |cs|, Local(a, idx), j);
      MulUnits(psi(With(a, all, j)));
    }
    forall j: nat | j < k ensures g(j) == f(offset + j) {
      EntryInBlock(m, |idx|, |cs|, Local(a, idx), j);
      WithOnes(a, idx, cs, j);
      SameTerm(m, idx, psi, a, j, added, all, offset + j);
    }
    SumSkips(f, g, offset, k);
  }

  lemma SameTerm(m: Matrix, idx: seq<nat>, psi: Wave, a: set<nat>, j: nat, m': Matrix, idx': seq<nat>, j': nat)
    requires Entry(m', Local(a, idx'), j') == Entry(m, Local(a, idx), j) && With(a, idx', j') == With(a, idx, j)
    ensures Terms(m', idx', psi, a)(j') == Terms(m, idx, psi, a)(j)
  {
  }

  // The last rows.
  lemma AddedEntries(m: Matrix, k: nat, c: nat, i: nat, j: nat)
    requires i < Pow2(k) && j < Pow2(k + c)
    ensures Entry(Added(m, k, c), i + Offset(k, c), j) == if j < Offset(k, c) then ZERO else Entry(m, i, j - Offset(k, c))
  {
  }

  lemma EntryInBlock(m: Matrix, k: nat, c: nat, i: nat, j: nat)
    requires i < Pow2(k) && j < Pow2(k)
    ensures Entry(Added(m, k, c), i + Offset(k, c), j + Offset(k, c)) == Entry(m, i, j)
  {
    assert Offset(k, c) + Pow2(k) == Pow2(k + c);
    AddedEntries(m, k, c, i, j + Offset(k, c));
  }

  // ----- collected gates --------------------------------------------------

  datatype Item = Item(mat: Matrix, idx: seq<nat>)

  datatype Fused = Fused(items: seq<Item>, qubits: set<nat>, ctrls: set<nat>, factor: Complex)

  // The items in the order they were inserted, without controls and factor.
  ghost function Product(items: seq<Item>, psi: Wave): Wave {
    if items == [] then psi else
    var last := items[|items| - 1];
    Apply(last.mat, last.idx, Product(items[..|items| - 1], psi))
  }

  // What the collected gates do: the factor is inside the controlled block.
  ghost function Denote(f: Fused, psi: Wave): Wave {
    (a: set<nat>) => if f.ctrls <= a then Mul(f.factor, Product(f.items, psi)(a)) else psi(a)
  }

  ghost predicate ItemOk(item: Item, qubits: set<nat>) {
    Distinct(item.idx) && IsMatrix(item.mat, |item.idx|) && forall q :: q in item.idx ==> q in qubits
  }

  ghost predicate FusedOk(f: Fused) {
    && (forall i :: 0 <= i < |f.items| ==> ItemOk(f.items[i], f.qubits))
    && f.qubits !! f.ctrls
    && (f.items == [] ==> f.ctrls == {} && f.qubits == {})
  }

  ghost function AddToItem(item: Item, cs: seq<nat>): Item {
    Item(Added(item.mat, |item.idx|, |cs|), item.idx + cs)
  }

  ghost function AddToAll(items: seq<Item>, cs: seq<nat>): (r: seq<Item>)
    ensures |r| == |items| && forall i :: 0 <= i < |items| ==> r[i] == AddToItem(items[i], cs)
  {
    seq(|items|, i requires 0 <= i < |items| => AddToItem(items[i], cs))
  }

  // The collected gates after inserting m on idx under the controls `ctrls`,
  // when m has more than one row: gained are the controls added to the new
  // item, dropped the common controls moved into the old items.
  ghost predicate Inserted(f: Fused, f': Fused, m: Matrix, idx: seq<nat>, ctrls: set<nat>, gained: seq<nat>, dropped: seq<nat>) {
    && Distinct(gained) && Distinct(dropped)
    && f'.factor == f.factor
    && f'.qubits == f.qubits + Elements(idx) + Elements(gained) + Elements(dropped)
    && f'.items == AddToAll(f.items, dropped) + [AddToItem(Item(m, idx), gained)]
    && Elements(dropped) == f.ctrls - ctrls
    && if f.items == [] then gained == [] && f'.ctrls == ctrls
       else Elements(gained) == ctrls - f.ctrls && f'.ctrls == f.ctrls * ctrls
  }

  // A gate as the simulator inserts it.
  ghost predicate GateOk(m: Matrix, idx: seq<nat>, ctrls: set<nat>) {
    Distinct(idx) && IsMatrix(m, |idx|) && forall q :: q in idx ==> q !in ctrls
  }

  // Controls that no item touches can be moved into all of them.
  lemma {:induction false} ControlledItems(items: seq<Item>, qubits: set<nat>, cs: seq<nat>, psi: Wave, a: set<nat>)
    requires Distinct(cs) && Elements(cs) !! qubits && forall i :: 0 <= i < |items| ==> ItemOk(items[i], qubits)
    ensures Product(AddToAll(items, cs), psi)(a) == if Elements(cs) <= a then Product(items, psi)(a) else psi(a)
  {
    if items != [] {
      var k := |items| - 1;
      var item, rest, all := items[k], items[..k], AddToAll(items, cs);
      assert all[..k] == AddToAll(rest, cs);
      UntouchedControls(item, qubits, cs);
      AddedControlsControl(item.mat, item.idx, cs, Product(AddToAll(rest, cs), psi), a);
      ControlledItems(rest, qubits, cs, psi, a);
      if Elements(cs) <= a {
        forall j: nat | j < Pow2(|item.idx|)
          ensures Product(AddToAll(rest, cs), psi)(With(a, item.idx, j)) == Product(rest, psi)(With(a, item.idx, j))
        {
          ControlledItems(rest, qubits, cs, psi, With(a, item.idx, j));
          KeepsControls(item, qubits, Elements(cs), a, j);
        }
        ApplySame(item.mat, item.idx, Product(AddToAll(rest, cs), psi), Product(rest, psi), a);
      }
    }
  }

  lemma UntouchedControls(item: Item, qubits: set<nat>, cs: seq<nat>)
    requires ItemOk(item, qubits) && Distinct(cs) && Elements(cs) !! qubits
    ensures Distinct(item.idx + cs)
  {
    forall q | q in item.idx ensures q !in cs {
      assert q in qubits;
      assert q in Elements(cs) <==> q in cs;
    }
    DistinctConcat(item.idx, cs);
  }

  // Setting an item's qubits leaves other qubits alone.
  lemma KeepsControls(item: Item, qubits: set<nat>, ctrls: set<nat>, a: set<nat>, j: nat)
    requires ItemOk(item, qubits) && ctrls !! qubits
    ensures ctrls <= With(a, item.idx, j) <==> ctrls <= a
  {
    forall q | q in ctrls ensures q in With(a, item.idx, j) <==> q in a {
      assert q !in qubits;
      WithElements(a, item.idx, j, q);
    }
  }

  // ----- inserting a gate -------------------------------------------------

  ghost predicate SameMeaning(f: Fused, f': Fused, m: Matrix, idx: seq<nat>, ctrls: set<nat>) {
    forall psi: Wave, a: set<nat> :: Denote(f', psi)(a) == Gate(m, idx, ctrls, Denote(f, psi))(a)
  }

  // When the factor of earlier 1x1 matrices survives the insertion: it is 1, or
  // no control has to leave the block it sits in, and none is added around it.
  ghost predicate FactorSafe(f: Fused, ctrls: set<nat>) {
    f.factor == ONE || if f.items == [] then ctrls == {} else f.ctrls <= ctrls
  }

  // The state inside the common block, before the new gate.
  ghost function Inner(f: Fused, dropped: seq<nat>, psi: Wave): Wave {
    Product(AddToAll(f.items, dropped), psi)
  }

  lemma InsertedIs(f: Fused, f': Fused, m: Matrix, idx: seq<nat>, ctrls: set<nat>, gained: seq<nat>, dropped: seq<nat>, psi: Wave, a: set<nat>)
    requires FusedOk(f) && GateOk(m, idx, ctrls) && Inserted(f, f', m, idx, ctrls, gained, dropped)
    ensures Denote(f', psi)(a)
            == if f'.ctrls <= a then Mul(f.factor, Gate(m, idx, Elements(gained), Inner(f, dropped, psi))(a)) else psi(a)
  {
    var k := |f'.items| - 1;
    var item := AddToItem(Item(m, idx), gained);
    assert f'.items[..k] == AddToAll(f.items, dropped) && f'.items[k] == item;
    assert Product(f'.items, psi) == Apply(item.mat, item.idx, Inner(f, dropped, psi));
    forall q | q in idx ensures q !in gained {
      assert q in gained <==> q in Elements(gained);
    }
    DistinctConcat(idx, gained);
    AddedControlsControl(m, idx, gained, Inner(f, dropped, psi), a);
  }

  lemma InnerIs(f: Fused, dropped: seq<nat>, ctrls: set<nat>, psi: Wave, b: set<nat>)
    requires FusedOk(f) && Distinct(dropped) && Elements(dropped) == f.ctrls - ctrls
    ensures Inner(f, dropped, psi)(b) == if f.ctrls - ctrls <= b then Product(f.items, psi)(b) else psi(b)
  {
    ControlledItems(f.items, f.qubits, dropped, psi, b);
  }

  // Inside the common block the collected gates are the factor times Inner.
  lemma FactorInside(f: Fused, dropped: seq<nat>, ctrls: set<nat>, psi: Wave, b: set<nat>)
    requires FusedOk(f) && Distinct(dropped) && Elements(dropped) == f.ctrls - ctrls
    requires f.ctrls * ctrls <= b && (f.factor == ONE || f.ctrls <= ctrls)
    ensures Denote(f, psi)(b) == Mul(f.factor, Inner(f, dropped, psi)(b))
  {
    InnerIs(f, dropped, ctrls, psi, b);
    assert f.ctrls == f.ctrls * ctrls + (f.ctrls - ctrls);
    MulUnits(psi(b));
  }

  lemma GateInside(f: Fused, dropped: seq<nat>, m: Matrix, idx: seq<nat>, ctrls: set<nat>, psi: Wave, a: set<nat>)
    requires FusedOk(f) && GateOk(m, idx, ctrls) && Distinct(dropped) && Elements(dropped) == f.ctrls - ctrls
    requires ctrls <= a && (f.factor == ONE || f.ctrls <= ctrls)
    ensures Apply(m, idx, Denote(f, psi))(a) == Mul(f.factor, Apply(m, idx, Inner(f, dropped, psi))(a))
  {
    var inner := Inner(f, dropped, psi);
    forall j: nat | j < Pow2(|idx|) ensures Denote(f, psi)(With(a, idx, j)) == Scaled(f.factor, inner)(With(a, idx, j)) {
      CtrlsStay(m, idx, ctrls, a, j);
      FactorInside(f, dropped, ctrls, psi, With(a, idx, j));
    }
    ApplySame(m, idx, Denote(f, psi), Scaled(f.factor, inner), a);
    ApplyScaled(m, idx, f.factor, inner, a);
  }

  lemma CtrlsStay(m: Matrix, idx: seq<nat>, ctrls: set<nat>, a: set<nat>, j: nat)
    requires GateOk(m, idx, ctrls)
    ensures ctrls <= With(a, idx, j) <==> ctrls <= a
  {
    forall q | q in ctrls ensures q in With(a, idx, j) <==> q in a {
      WithElements(a, idx, j, q);
    }
  }

  lemma InsertKeepsMeaning(f: Fused, f': Fused, m: Matrix, idx: seq<nat>, ctrls: set<nat>, gained: seq<nat>, dropped: seq<nat>)
    requires FusedOk(f) && GateOk(m, idx, ctrls) && Inserted(f, f', m, idx, ctrls, gained, dropped) && FactorSafe(f, ctrls)
    ensures SameMeaning(f, f', m, idx, ctrls)
  {
    forall psi: Wave, a: set<nat> ensures Denote(f', psi)(a) == Gate(m, idx, ctrls, Denote(f, psi))(a) {
      InsertedIs(f, f', m, idx, ctrls, gained, dropped, psi, a);
      if ctrls <= a {
        GateInside(f, dropped, m, idx, ctrls, psi, a);
      } else if f.items == [] {
        MulUnits(psi(a));
      } else if f.ctrls * ctrls <= a {
        assert ctrls == f.ctrls * ctrls + (ctrls - f.ctrls);
        FactorInside(f, dropped, ctrls, psi, a);
      }
    }
  }

  // ----- when the factor is misplaced -------------------------------------

  ghost predicate NoZeroColumn(m: Matrix, k: nat) {
    forall j: nat :: j < Pow2(k) ==> HasEntry(m, k, j)
  }

  ghost predicate HasEntry(m: Matrix, k: nat, j: nat) {
    exists i: nat :: i < Pow2(k) && Entry(m, i, j) != ZERO
  }

  ghost function Point(b: set<nat>): Wave {
    (x: set<nat>) => if x == b then ONE else ZERO
  }

  // Items do not touch the common controls, so they cannot bring amplitude to
  // where there is none.
  lemma {:induction false} ProductVanishes(items: seq<Item>, qubits: set<nat>, ctrls: set<nat>, psi: Wave, a: set<nat>)
    requires ctrls !! qubits && forall i :: 0 <= i < |items| ==> ItemOk(items[i], qubits)
    requires ctrls <= a && forall b :: ctrls <= b ==> psi(b) == ZERO
    ensures Product(items, psi)(a) == ZERO
  {
    if items != [] {
      var item, rest := items[|items| - 1], items[..|items| - 1];
      forall j: nat | j < Pow2(|item.idx|) ensures Product(rest, psi)(With(a, item.idx, j)) == ZERO {
        KeepsControls(item, qubits, ctrls, a, j);
        ProductVanishes(rest, qubits, ctrls, psi, With(a, item.idx, j));
      }
      ApplyZero(item.mat, item.idx, Product(rest, psi), a);
    }
  }

  // On the state that is 1 at ctrls only, both sides are a single entry of m.
  lemma PointInside(f: Fused, dropped: seq<nat>, ctrls: set<nat>, b: set<nat>)
    requires FusedOk(f) && Distinct(dropped) && Elements(dropped) == f.ctrls - ctrls
    requires !(f.ctrls <= ctrls) && ctrls <= b
    ensures Denote(f, Point(ctrls))(b) == Inner(f, dropped, Point(ctrls))(b) == Point(ctrls)(b)
  {
    InnerIs(f, dropped, ctrls, Point(ctrls), b);
    assert f.ctrls == f.ctrls * ctrls + (f.ctrls - ctrls);
    if f.ctrls <= b {
      ProductVanishes(f.items, f.qubits, f.ctrls, Point(ctrls), b);
      MulUnits(f.factor);
    }
  }

  lemma OneEntry(m: Matrix, idx: seq<nat>, ctrls: set<nat>, psi: Wave, a: set<nat>, i: nat)
    requires GateOk(m, idx, ctrls) && i < Pow2(|idx|) && a == With(ctrls, idx, i)
    requires forall b :: ctrls <= b ==> psi(b) == Point(ctrls)(b)
    ensures Apply(m, idx, psi)(a) == Entry(m, i, Local(ctrls, idx))
  {
    var j := Local(ctrls, idx);
    LocalWith(ctrls, idx, i);
    forall j': nat | j' < Pow2(|idx|) ensures psi(With(a, idx, j')) == if j' == j then ONE else ZERO {
      WithWithin(ctrls, idx, i, idx, j');
      CtrlsStay(m, idx, ctrls, ctrls, j');
      LocalWith(ctrls, idx, j');
      WithLocal(ctrls, idx);
    }
    ApplyPoint(m, idx, psi, a, j);
  }

  lemma MisplacedFactor(f: Fused, f': Fused, m: Matrix, idx: seq<nat>, ctrls: set<nat>, gained: seq<nat>, dropped: seq<nat>)
    requires FusedOk(f) && GateOk(m, idx, ctrls) && Inserted(f, f', m, idx, ctrls, gained, dropped)
    requires !FactorSafe(f, ctrls) && NoZeroColumn(m, |idx|)
    ensures !SameMeaning(f, f', m, idx, ctrls)
  {
    if f.items == [] {
      var psi: Wave := (a: set<nat>) => ONE;
      MulUnits(f.factor);
      assert !(ctrls <= {}) && f.ctrls <= {};
      var none: set<nat> := {};
      assert Product(f.items, psi)(none) == ONE && f.ctrls == none;
      assert Denote(f', psi)(none) == ONE;
      assert Denote(f, psi)(none) == f.factor;
      assert Denote(f', psi)({}) != Gate(m, idx, ctrls, Denote(f, psi))({});
    } else {
      var psi := Point(ctrls);
      assert HasEntry(m, |idx|, Local(ctrls, idx));
      var i: nat :| i < Pow2(|idx|) && Entry(m, i, Local(ctrls, idx)) != ZERO;
      var a, e := With(ctrls, idx, i), Entry(m, i, Local(ctrls, idx));
      MisplacedAt(f, f', m, idx, ctrls, gained, dropped, i);
      if Mul(f.factor, e) == e {
        OnlyOneFixes(f.factor, e);
      }
      assert Denote(f', psi)(a) != Gate(m, idx, ctrls, Denote(f, psi))(a);
    }
  }

  lemma MisplacedAt(f: Fused, f': Fused, m: Matrix, idx: seq<nat>, ctrls: set<nat>, gained: seq<nat>, dropped: seq<nat>, i: nat)
    requires FusedOk(f) && GateOk(m, idx, ctrls) && Inserted(f, f', m, idx, ctrls, gained, dropped) && f.items != []
    requires !(f.ctrls <= ctrls) && i < Pow2(|idx|)
    ensures var psi, a, e := Point(ctrls), With(ctrls, idx, i), Entry(m, i, Local(ctrls, idx));
            Denote(f', psi)(a) == Mul(f.factor, e) && Gate(m, idx, ctrls, Denote(f, psi))(a) == e
  {
    var psi, a := Point(ctrls), With(ctrls, idx, i);
    forall b | ctrls <= b ensures Denote(f, psi)(b) == Inner(f, dropped, psi)(b) == Point(ctrls)(b) {
      PointInside(f, dropped, ctrls, b);
    }
    CtrlsStay(m, idx, ctrls, ctrls, i);
    OneEntry(m, idx, ctrls, Denote(f, psi), a, i);
    OneEntry(m, idx, ctrls, Inner(f, dropped, psi), a, i);
    InsertedIs(f, f', m, idx, ctrls, gained, dropped, psi, a);
  }

  // Inserting a gate keeps the meaning exactly when the factor is safe.
  lemma InsertExactIff(f: Fused, f': Fused, m: Matrix, idx: seq<nat>, ctrls: set<nat>, gained: seq<nat>, dropped: seq<nat>)
    requires FusedOk(f) && GateOk(m, idx, ctrls) && Inserted(f, f', m, idx, ctrls, gained, dropped) && NoZeroColumn(m, |idx|)
    ensures SameMeaning(f, f', m, idx, ctrls) <==> FactorSafe(f, ctrls)
  {
    if FactorSafe(f, ctrls) {
      InsertKeepsMeaning(f, f', m, idx, ctrls, gained, dropped);
    } else {
      MisplacedFactor(f, f', m, idx, ctrls, gained, dropped);
    }
  }

  // A 1x1 matrix goes into the factor, whatever its controls.
  lemma FactorKeepsMeaning(f: Fused, m: Matrix, ctrls: set<nat>)
    requires FusedOk(f) && IsMatrix(m, 0) && (m[0][0] == ONE || ctrls == f.ctrls)
    ensures SameMeaning(f, f.(factor := Mul(f.factor, m[0][0])), m, [], ctrls)
  {
    var c := m[0][0];
    forall psi: Wave, a: set<nat>
      ensures Denote(f.(factor := Mul(f.factor, c)), psi)(a) == Gate(m, [], ctrls, Denote(f, psi))(a)
    {
      ApplyScalar(m, Denote(f, psi), a);
      MulUnits(Denote(f, psi)(a));
      MulUnits(f.factor);
      ScaledFactor(f, c, psi, a);
    }
  }

  lemma ScaledFactor(f: Fused, c: Complex, psi: Wave, a: set<nat>)
    ensures Denote(f.(factor := Mul(f.factor, c)), psi)(a)
            == if f.ctrls <= a then Mul(c, Denote(f, psi)(a)) else psi(a)
  {
    MulCommutes(f.factor, c);
    MulAssociates(c, f.factor, Product(f.items, psi)(a));
  }

  // That is right exactly when it is 1 or its controls are the common ones,
  // if the collected gates do not annihilate every state.
  lemma FactorExactIff(f: Fused, m: Matrix, ctrls: set<nat>)
    requires FusedOk(f) && IsMatrix(m, 0)
    requires ctrls <= f.ctrls || exists psi: Wave :: Denote(f, psi)(f.ctrls) != ZERO
    ensures SameMeaning(f, f.(factor := Mul(f.factor, m[0][0])), m, [], ctrls) <==> m[0][0] == ONE || ctrls == f.ctrls
  {
    if m[0][0] == ONE || ctrls == f.ctrls {
      FactorKeepsMeaning(f, m, ctrls);
    } else if ctrls <= f.ctrls {
      LostOutside(f, m, ctrls);
    } else {
      var psi: Wave :| Denote(f, psi)(f.ctrls) != ZERO;
      LostControls(f, m, ctrls, psi);
    }
  }

  // The factor does not reach states outside the common controls ...
  lemma LostOutside(f: Fused, m: Matrix, ctrls: set<nat>)
    requires IsMatrix(m, 0) && m[0][0] != ONE && ctrls <= f.ctrls && ctrls != f.ctrls
    ensures !SameMeaning(f, f.(factor := Mul(f.factor, m[0][0])), m, [], ctrls)
  {
    var psi: Wave := (a: set<nat>) => ONE;
    ApplyScalar(m, Denote(f, psi), ctrls);
    ScaledFactor(f, m[0][0], psi, ctrls);
    MulUnits(m[0][0]);
    assert Denote(f.(factor := Mul(f.factor, m[0][0])), psi)(ctrls) != Gate(m, [], ctrls, Denote(f, psi))(ctrls);
  }

  // ... and ignores controls of its own.
  lemma LostControls(f: Fused, m: Matrix, ctrls: set<nat>, psi: Wave)
    requires IsMatrix(m, 0) && m[0][0] != ONE && !(ctrls <= f.ctrls) && Denote(f, psi)(f.ctrls) != ZERO
    ensures !SameMeaning(f, f.(factor := Mul(f.factor, m[0][0])), m, [], ctrls)
  {
    var x := Denote(f, psi)(f.ctrls);
    ScaledFactor(f, m[0][0], psi, f.ctrls);
    if Mul(m[0][0], x) == x {
      OnlyOneFixes(m[0][0], x);
    }
    assert Denote(f.(factor := Mul(f.factor, m[0][0])), psi)(f.ctrls) != Gate(m, [], ctrls, Denote(f, psi))(f.ctrls);
  }

  lemma ApplyScalar(m: Matrix, psi: Wave, a: set<nat>)
    requires IsMatrix(m, 0)
    ensures Apply(m, [], psi)(a) == Mul(m[0][0], psi(a))
  {
    WithLocal(a, []);
    SumOfOne(Terms(m, [], psi, a), 1, 0);
  }

  // ----- multiplying out --------------------------------------------------

  function Flip(x: nat, p: nat): nat {
    Or(AndNot(x, Pow2(p)), AndNot(Pow2(p), x))
  }

  // Bit pos[l] of i replaced by bit l of j, for the first n positions.
  function Replace(i: nat, j: nat, pos: seq<nat>, n: nat): nat
    requires n <= |pos|
  {
    if n == 0 then i else
    var x := Replace(i, j, pos, n - 1);
    if Bit(j, n - 1) != Bit(i, pos[n - 1]) then Flip(x, pos[n - 1]) else x
  }

  lemma FlipBits(x: nat, p: nat, q: nat)
    ensures Bit(Flip(x, p), q) == (Bit(x, q) != (q == p))
  {
    OrBits(AndNot(x, Pow2(p)), AndNot(Pow2(p), x), q);
    AndNotBits(x, Pow2(p), q);
    AndNotBits(Pow2(p), x, q);
    Pow2Bits(p, q);
  }

  lemma {:induction false} ReplaceBits(i: nat, j: nat, pos: seq<nat>, n: nat, q: nat)
    requires n <= |pos| && Distinct(pos)
    ensures q !in pos[..n] ==> Bit(Replace(i, j, pos, n), q) == Bit(i, q)
    ensures forall l :: 0 <= l < n && pos[l] == q ==> Bit(Replace(i, j, pos, n), q) == Bit(j, l)
  {
    if n > 0 {
      ReplaceBits(i, j, pos, n - 1, q);
      FlipBits(Replace(i, j, pos, n - 1), pos[n - 1], q);
      assert pos[..n] == pos[..n - 1] + [pos[n - 1]];
      if q == pos[n - 1] {
        assert q !in pos[..n - 1];
      }
    }
  }

  // pos[l] is where qubit idx[l] is in the list.
  ghost predicate Located(idx: seq<nat>, list: seq<nat>, pos: seq<nat>) {
    && Distinct(idx) && Distinct(list) && |pos| == |idx|
    && forall l :: 0 <= l < |idx| ==> pos[l] < |list| && list[pos[l]] == idx[l]
  }

  lemma LocatedDistinct(idx: seq<nat>, list: seq<nat>, pos: seq<nat>)
    requires Located(idx, list, pos)
    ensures Distinct(pos) && forall q :: q in idx ==> q in list
  {
    forall i, j | 0 <= i < j < |pos| ensures pos[i] != pos[j] {
      assert list[pos[i]] == idx[i] && list[pos[j]] == idx[j];
    }
    forall q | q in idx ensures q in list {
      var l :| 0 <= l < |idx| && idx[l] == q;
      assert list[pos[l]] == q;
    }
  }

  lemma LocalByPosition(a: set<nat>, idx: seq<nat>, list: seq<nat>, pos: seq<nat>)
    requires Located(idx, list, pos)
    ensures Gather(Local(a, list), pos, |pos|) == Local(a, idx)
  {
    forall l: nat ensures Bit(Gather(Local(a, list), pos, |pos|), l) == Bit(Local(a, idx), l) {
      GatherBits(Local(a, list), pos, |pos|, l);
      LocalBits(a, idx, l);
      if l < |pos| {
        LocalBits(a, list, pos[l]);
      }
    }
    SameBits(Gather(Local(a, list), pos, |pos|), Local(a, idx));
  }

  lemma LocalReplaced(a: set<nat>, idx: seq<nat>, list: seq<nat>, pos: seq<nat>, j: nat)
    requires Located(idx, list, pos)
    ensures Local(With(a, idx, j), list) == Replace(Local(a, list), j, pos, |pos|)
  {
    LocatedDistinct(idx, list, pos);
    forall q: nat ensures Bit(Local(With(a, idx, j), list), q) == Bit(Replace(Local(a, list), j, pos, |pos|), q) {
      ReplacedBit(a, idx, list, pos, j, q);
    }
    SameBits(Local(With(a, idx, j), list), Replace(Local(a, list), j, pos, |pos|));
  }

  lemma ReplacedBit(a: set<nat>, idx: seq<nat>, list: seq<nat>, pos: seq<nat>, j: nat, q: nat)
    requires Located(idx, list, pos) && Distinct(pos)
    ensures Bit(Local(With(a, idx, j), list), q) == Bit(Replace(Local(a, list), j, pos, |pos|), q)
  {
    assert pos[..|pos|] == pos;
    ReplaceBits(Local(a, list), j, pos, |pos|, q);
    LocalBits(With(a, idx, j), list, q);
    LocalBits(a, list, q);
    if l: nat :| l < |pos| && pos[l] == q {
      WithElements(a, idx, j, idx[l]);
    } else {
      assert q !in pos;
      if q < |list| {
        WithElements(a, idx, j, list[q]);
        forall l | 0 <= l < |idx| ensures idx[l] != list[q] {
          assert pos[l] != q && list[pos[l]] == idx[l];
        }
      }
    }
  }

  ghost function StepTerms(m: Matrix, item: Matrix, pos: seq<nat>, i: nat, k: nat): nat -> Complex {
    (j: nat) => Mul(Entry(m, Replace(i, j, pos, |pos|), k), Entry(item, Gather(i, pos, |pos|), j))
  }

  // The item applied to every column.
  ghost function Step(m: Matrix, n: nat, item: Matrix, pos: seq<nat>): (r: Matrix)
    ensures IsMatrix(r, n)
  {
    seq(Pow2(n), i requires 0 <= i => StepRow(m, n, item, pos, i))
  }

  ghost function StepRow(m: Matrix, n: nat, item: Matrix, pos: seq<nat>, i: nat): (r: seq<Complex>)
    ensures |r| == Pow2(n)
  {
    seq(Pow2(n), k requires 0 <= k => StepCell(m, item, pos, i, k))
  }

  ghost function StepCell(m: Matrix, item: Matrix, pos: seq<nat>, i: nat, k: nat): Complex {
    Sum(StepTerms(m, item, pos, i, k), Pow2(|pos|))
  }

  // The terms of both sides of StepComposes.
  ghost function Double(m: Matrix, item: Item, list: seq<nat>, pos: seq<nat>, psi: Wave, a: set<nat>): (nat, nat) -> Complex {
    (j: nat, k: nat) =>
      Mul(Entry(item.mat, Local(a, item.idx), j),
          Mul(Entry(m, Replace(Local(a, list), j, pos, |pos|), k), psi(With(a, list, k))))
  }

  // Multiplying matrices is applying one after the other.
  lemma StepComposes(m: Matrix, item: Item, list: seq<nat>, pos: seq<nat>, psi: Wave, a: set<nat>)
    requires Located(item.idx, list, pos)
    ensures Apply(Step(m, |list|, item.mat, pos), list, psi)(a) == Apply(item.mat, item.idx, Apply(m, list, psi))(a)
  {
    var g, n, w := Double(m, item, list, pos, psi, a), Pow2(|item.idx|), Pow2(|list|);
    forall k: nat | k < w ensures Terms(Step(m, |list|, item.mat, pos), list, psi, a)(k) == ColumnSums(g, n)(k) {
      ColumnTerm(m, item, list, pos, psi, a, k);
    }
    SumSame(Terms(Step(m, |list|, item.mat, pos), list, psi, a), ColumnSums(g, n), w);
    SumsExchange(g, n, w);
    forall j: nat | j < n ensures RowSums(g, w)(j) == Terms(item.mat, item.idx, Apply(m, list, psi), a)(j) {
      RowTerm(m, item, list, pos, psi, a, j);
    }
    SumSame(RowSums(g, w), Terms(item.mat, item.idx, Apply(m, list, psi), a), n);
  }

  lemma ColumnTerm(m: Matrix, item: Item, list: seq<nat>, pos: seq<nat>, psi: Wave, a: set<nat>, k: nat)
    requires Located(item.idx, list, pos) && k < Pow2(|list|)
    ensures Terms(Step(m, |list|, item.mat, pos), list, psi, a)(k)
            == ColumnSums(Double(m, item, list, pos, psi, a), Pow2(|item.idx|))(k)
  {
    var i, p, n := Local(a, list), psi(With(a, list, k)), Pow2(|item.idx|);
    var f, h := StepTerms(m, item.mat, pos, i, k), Column(Double(m, item, list, pos, psi, a), k);
    StepEntry(m, |list|, item.mat, pos, i, k);
    LocalByPosition(a, item.idx, list, pos);
    ColumnScaled(m, item, list, pos, psi, a, k);
    SumScaled(p, f, h, n);
    MulCommutes(p, Sum(f, n));
  }

  lemma StepEntry(m: Matrix, n: nat, item: Matrix, pos: seq<nat>, i: nat, k: nat)
    requires i < Pow2(n) && k < Pow2(n)
    ensures Entry(Step(m, n, item, pos), i, k) == Sum(StepTerms(m, item, pos, i, k), Pow2(|pos|))
  {
    var r := Step(m, n, item, pos);
    assert r[i] == StepRow(m, n, item, pos, i);
    assert r[i][k] == StepCell(m, item, pos, i, k);
  }

  lemma ColumnScaled(m: Matrix, item: Item, list: seq<nat>, pos: seq<nat>, psi: Wave, a: set<nat>, k: nat)
    requires Gather(Local(a, list), pos, |pos|) == Local(a, item.idx)
    ensures forall j: nat :: Column(Double(m, item, list, pos, psi, a), k)(j)
                             == Mul(psi(With(a, list, k)), StepTerms(m, item.mat, pos, Local(a, list), k)(j))
  {
    forall j: nat ensures Column(Double(m, item, list, pos, psi, a), k)(j)
                          == Mul(psi(With(a, list, k)), StepTerms(m, item.mat, pos, Local(a, list), k)(j))
    {
      Shuffle(Entry(m, Replace(Local(a, list), j, pos, |pos|), k), Entry(item.mat, Local(a, item.idx), j), psi(With(a, list, k)));
    }
  }

  lemma Shuffle(x: Complex, e: Complex, p: Complex)
    ensures Mul(e, Mul(x, p)) == Mul(p, Mul(x, e))
  {
    MulCommutes(x, p);
    MulAssociates(e, p, x);
    MulCommutes(e, p);
    MulAssociates(p, e, x);
    MulCommutes(e, x);
  }

  lemma RowTerm(m: Matrix, item: Item, list: seq<nat>, pos: seq<nat>, psi: Wave, a: set<nat>, j: nat)
    requires Located(item.idx, list, pos) && j < Pow2(|item.idx|)
    ensures RowSums(Double(m, item, list, pos, psi, a), Pow2(|list|))(j)
            == Terms(item.mat, item.idx, Apply(m, list, psi), a)(j)
  {
    var b, e := With(a, item.idx, j), Entry(item.mat, Local(a, item.idx), j);
    var f, h := Terms(m, list, psi, b), Row(Double(m, item, list, pos, psi, a), j);
    LocatedDistinct(item.idx, list, pos);
    LocalReplaced(a, item.idx, list, pos, j);
    forall k: nat | k < Pow2(|list|) ensures h(k) == Mul(e, f(k)) {
      WithWithin(a, item.idx, j, list, k);
    }
    SumScaled(e, f, h, Pow2(|list|));
  }

  // ----- the fused matrix -------------------------------------------------

  ghost function Diagonal(n: nat, c: Complex): (r: Matrix)
    ensures IsMatrix(r, n)
  {
    seq(Pow2(n), i requires 0 <= i => seq(Pow2(n), j requires 0 <= j => if i == j then c else ZERO))
  }

  function Positions(idx: seq<nat>, list: seq<nat>): seq<nat> {
    seq(|idx|, l requires 0 <= l < |idx| => Find(list, idx[l]))
  }

  ghost function FusedMatrix(items: seq<Item>, list: seq<nat>, factor: Complex): Matrix {
    if items == [] then Diagonal(|list|, factor) else
    var last := items[|items| - 1];
    Step(FusedMatrix(items[..|items| - 1], list, factor), |list|, last.mat, Positions(last.idx, list))
  }

  lemma DiagonalScales(n: nat, list: seq<nat>, c: Complex, psi: Wave, a: set<nat>)
    requires n == |list| && Distinct(list)
    ensures Apply(Diagonal(n, c), list, psi)(a) == Mul(c, psi(a))
  {
    var i, f := Local(a, list), Terms(Diagonal(n, c), list, psi, a);
    forall j: nat | j < Pow2(n) && j != i ensures f(j) == ZERO {
      MulUnits(psi(With(a, list, j)));
    }
    SumOfOne(f, Pow2(n), i);
    WithLocal(a, list);
  }

  // The fused matrix is the factor times the ordered product of the items.
  lemma {:induction false} FusedMatrixIsProduct(items: seq<Item>, list: seq<nat>, factor: Complex, psi: Wave, a: set<nat>)
    requires Distinct(list) && forall i :: 0 <= i < |items| ==> ItemOk(items[i], Elements(list))
    ensures Apply(FusedMatrix(items, list, factor), list, psi)(a) == Mul(factor, Product(items, psi)(a))
  {
    if items == [] {
      DiagonalScales(|list|, list, factor, psi, a);
    } else {
      var item, rest := items[|items| - 1], items[..|items| - 1];
      var m := FusedMatrix(rest, list, factor);
      ItemLocated(item, list);
      StepComposes(m, item, list, Positions(item.idx, list), psi, a);
      forall j: nat | j < Pow2(|item.idx|)
        ensures Apply(m, list, psi)(With(a, item.idx, j)) == Scaled(factor, Product(rest, psi))(With(a, item.idx, j))
      {
        FusedMatrixIsProduct(rest, list, factor, psi, With(a, item.idx, j));
      }
      ApplySame(item.mat, item.idx, Apply(m, list, psi), Scaled(factor, Product(rest, psi)), a);
      ApplyScaled(item.mat, item.idx, factor, Product(rest, psi), a);
    }
  }

  lemma ItemLocated(item: Item, list: seq<nat>)
    requires ItemOk(item, Elements(list)) && Distinct(list)
    ensures Located(item.idx, list, Positions(item.idx, list))
  {
    forall l | 0 <= l < |item.idx| ensures item.idx[l] in list {
      assert item.idx[l] in item.idx;
    }
  }

  // perform_fusion: one matrix under the common controls does what the
  // collected gates do.
  lemma FusionKeepsMeaning(f: Fused, list: seq<nat>, psi: Wave, a: set<nat>)
    requires FusedOk(f) && Distinct(list) && Elements(list) == f.qubits
    ensures Gate(FusedMatrix(f.items, list, f.factor), list, f.ctrls, psi)(a) == Denote(f, psi)(a)
  {
    FusedMatrixIsProduct(f.items, list, f.factor, psi, a);
  }
}
