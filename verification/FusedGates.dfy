// The Fusion object: gates inserted one by one, multiplied out on request.

module FusedGates {
  import opened Sequences
  import opened Bits
  import opened QubitSwap
  import opened Complexes
  import opened Operators
  import opened GateFusion

  // ----- add_controls -----------------------------------------------------

  function AddedRow(m: Matrix, offset: nat, size: nat, i: nat): seq<Complex> {
    seq(size, j requires 0 <= j => AddedEntry(m, offset, i, j))
  }

  function ZeroRow(size: nat): seq<Complex> { seq(size, _ => ZERO) }

  method AddControls(m: Matrix, idx: seq<nat>, newCtrls: seq<nat>) returns (m': Matrix, idx': seq<nat>)
    requires IsMatrix(m, |idx|)
    ensures m' == Added(m, |idx|, |newCtrls|) && idx' == idx + newCtrls
  {
    idx' := idx + newCtrls;
    Pow2Sum(|newCtrls|, |idx|);
    ghost var k, c := |idx|, |newCtrls|;
    var size := Pow2(|newCtrls|) * |m|;
    var offset := size - |m|;
    assert size == Pow2(k + c) && offset == Offset(k, c);
    m' := seq(size, _ => ZeroRow(size));
    for i := 0 to offset
      invariant |m'| == size && forall x :: 0 <= x < i ==> m'[x] == AddedRow(m, offset, size, x)
      invariant forall x :: i <= x < size ==> m'[x] == ZeroRow(size)
    {
      m' := m'[i := m'[i][i := ONE]];
      assert m'[i] == AddedRow(m, offset, size, i);
    }
    for i := 0 to |m|
      invariant |m'| == size && forall x :: 0 <= x < offset + i ==> m'[x] == AddedRow(m, offset, size, x)
      invariant forall x :: offset + i <= x < size ==> m'[x] == ZeroRow(size)
    {
      var row := CopyRow(m, offset, size, i, m'[offset + i]);
      m' := m'[offset + i := row];
    }
    assert m' == Added(m, k, c);
  }

  // The row i of m into the last columns.
  method CopyRow(m: Matrix, offset: nat, size: nat, i: nat, zero: seq<Complex>) returns (row: seq<Complex>)
    requires i < |m| && |m[i]| == |m| && size == offset + |m| && zero == ZeroRow(size)
    ensures row == AddedRow(m, offset, size, offset + i)
  {
    row := zero;
    for j := 0 to |m|
      invariant |row| == size && forall x :: 0 <= x < offset + j ==> row[x] == AddedEntry(m, offset, offset + i, x)
      invariant forall x :: offset + j <= x < size ==> row[x] == ZERO
    {
      row := row[offset + j := m[i][j]];
    }
  }

  // ----- one item onto the matrix -----------------------------------------

  // The bits of i at the item's positions.
  method LocalIndex(i: nat, pos: seq<nat>) returns (localI: nat)
    ensures localI == Gather(i, pos, |pos|)
  {
    localI := 0;
    for l := 0 to |pos|
      invariant localI == Gather(i, pos, l)
    {
      localI := localI + if Bit(i, pos[l]) then Pow2(l) else 0;
    }
  }

  // i with the bits at the item's positions set to those of j.
  method ReplacedIndex(i: nat, j: nat, pos: seq<nat>) returns (locIdx: nat)
    ensures locIdx == Replace(i, j, pos, |pos|)
  {
    locIdx := i;
    for l := 0 to |pos|
      invariant locIdx == Replace(i, j, pos, l)
    {
      if Bit(j, l) != Bit(i, pos[l]) {
        locIdx := Flip(locIdx, pos[l]);
      }
    }
  }

  // The loop over j of perform_fusion.
  method ItemSum(oldCol: seq<Complex>, item: Matrix, pos: seq<nat>, i: nat, ghost m: Matrix, ghost k: nat) returns (res: Complex)
    requires forall x :: 0 <= x < |oldCol| ==> oldCol[x] == Entry(m, x, k)
    requires forall j: nat :: j < Pow2(|pos|) ==> Replace(i, j, pos, |pos|) < |oldCol|
    ensures res == Sum(StepTerms(m, item, pos, i, k), Pow2(|pos|))
  {
    var localI := LocalIndex(i, pos);
    res := ZERO;
    ghost var f := StepTerms(m, item, pos, i, k);
    for j := 0 to Pow2(|pos|)
      invariant res == Sum(f, j)
    {
      var locIdx := ReplacedIndex(i, j, pos);
      assert locIdx < |oldCol|;
      NextTerm(f, m, item, pos, i, k, j);
      res := Plus(res, Mul(oldCol[locIdx], Entry(item, localI, j)));
    }
  }

  lemma NextTerm(f: nat -> Complex, m: Matrix, item: Matrix, pos: seq<nat>, i: nat, k: nat, j: nat)
    requires f == StepTerms(m, item, pos, i, k)
    ensures Sum(f, j + 1)
            == Plus(Sum(f, j), Mul(Entry(m, Replace(i, j, pos, |pos|), k), Entry(item, Gather(i, pos, |pos|), j)))
  {
    var n := j + 1;
    assert Sum(f, n) == Plus(Sum(f, n - 1), f(n - 1));
  }

  lemma ReplaceBound(i: nat, j: nat, pos: seq<nat>, n: nat)
    requires i < Pow2(n) && Distinct(pos) && forall l :: 0 <= l < |pos| ==> pos[l] < n
    ensures Replace(i, j, pos, |pos|) < Pow2(n)
  {
    var x := Replace(i, j, pos, |pos|);
    assert pos[..|pos|] == pos;
    forall q: nat | q >= n ensures !Bit(x, q) {
      ReplaceBits(i, j, pos, |pos|, q);
      HighBits(i, n, q);
    }
    BoundedByBits(x, n);
  }

  // One column, rewritten from a copy of its old values.
  method FuseColumn(m: Matrix, n: nat, item: Matrix, pos: seq<nat>, k: nat) returns (col: seq<Complex>)
    requires IsMatrix(m, n) && k < Pow2(n) && Distinct(pos) && forall l :: 0 <= l < |pos| ==> pos[l] < n
    ensures |col| == Pow2(n) && forall i :: 0 <= i < Pow2(n) ==> col[i] == Entry(Step(m, n, item, pos), i, k)
  {
    var oldCol := seq(Pow2(n), i requires 0 <= i < Pow2(n) => Entry(m, i, k));
    col := oldCol;
    for i := 0 to Pow2(n)
      invariant |col| == Pow2(n) && forall x :: 0 <= x < i ==> col[x] == Entry(Step(m, n, item, pos), x, k)
    {
      forall j: nat | j < Pow2(|pos|) ensures Replace(i, j, pos, |pos|) < |oldCol| {
        ReplaceBound(i, j, pos, n);
      }
      var res := ItemSum(oldCol, item, pos, i, m, k);
      StepEntry(m, n, item, pos, i, k);
      col := col[i := res];
    }
  }

  method FuseItem(m: Matrix, n: nat, item: Matrix, pos: seq<nat>) returns (m': Matrix)
    requires IsMatrix(m, n) && Distinct(pos) && forall l :: 0 <= l < |pos| ==> pos[l] < n
    ensures m' == Step(m, n, item, pos)
  {
    ghost var target := Step(m, n, item, pos);
    m' := m;
    for k := 0 to Pow2(n)
      invariant IsMatrix(m', n)
      invariant forall i, x :: 0 <= i < Pow2(n) && 0 <= x < Pow2(n) ==> m'[i][x] == if x < k then target[i][x] else m[i][x]
    {
      ColumnUnchanged(m, m', n, k, item, pos);
      var col := FuseColumn(m', n, item, pos, k);
      m' := seq(Pow2(n), i requires 0 <= i < Pow2(n) && IsMatrix(m', n) && |col| == Pow2(n) => m'[i][k := col[i]]);
    }
    forall i | 0 <= i < Pow2(n) ensures m'[i] == target[i] {
    }
  }

  // A column only depends on the same column.
  lemma ColumnUnchanged(m: Matrix, m': Matrix, n: nat, k: nat, item: Matrix, pos: seq<nat>)
    requires IsMatrix(m, n) && IsMatrix(m', n) && k < Pow2(n)
    requires forall i :: 0 <= i < Pow2(n) ==> m'[i][k] == m[i][k]
    ensures forall i :: 0 <= i < Pow2(n) ==> Entry(Step(m', n, item, pos), i, k) == Step(m, n, item, pos)[i][k]
  {
    forall i | 0 <= i < Pow2(n) ensures Entry(Step(m', n, item, pos), i, k) == Step(m, n, item, pos)[i][k] {
      StepEntry(m', n, item, pos, i, k);
      StepEntry(m, n, item, pos, i, k);
      SameTerms(m, m', n, k, item, pos, i);
    }
  }

  lemma SameTerms(m: Matrix, m': Matrix, n: nat, k: nat, item: Matrix, pos: seq<nat>, i: nat)
    requires IsMatrix(m, n) && IsMatrix(m', n) && k < Pow2(n)
    requires forall i :: 0 <= i < Pow2(n) ==> m'[i][k] == m[i][k]
    ensures Sum(StepTerms(m', item, pos, i, k), Pow2(|pos|)) == Sum(StepTerms(m, item, pos, i, k), Pow2(|pos|))
  {
    var f, f' := StepTerms(m, item, pos, i, k), StepTerms(m', item, pos, i, k);
    forall j: nat | j < Pow2(|pos|) ensures f'(j) == f(j) {
      var x := Replace(i, j, pos, |pos|);
      assert Entry(m', x, k) == Entry(m, x, k);
    }
    SumSame(f', f, Pow2(|pos|));
  }

  // ----- the object -------------------------------------------------------

  class Fusion {
    var qubits: set<nat>
    var items: seq<Item>
    var ctrlSet: set<nat>
    var factor: Complex

    ghost function Value(): Fused
      reads this
    {
      Fused(items, qubits, ctrlSet, factor)
    }

    constructor ()
      ensures Value() == Fused([], {}, {}, ONE) && FusedOk(Value())
    {
      qubits, items, ctrlSet, factor := {}, [], {}, ONE;
    }

    // insert
    method Insert(matrix: Matrix, indexList: seq<nat>, ctrlList: seq<nat>) returns (ghost gained: seq<nat>, ghost dropped: seq<nat>)
      requires FusedOk(Value()) && GateOk(matrix, indexList, Elements(ctrlList)) && Distinct(ctrlList)
      modifies this
      ensures FusedOk(Value())
      ensures |matrix| == 1 ==> Value() == old(Value()).(factor := Mul(old(factor), matrix[0][0]))
      ensures |matrix| > 1 ==> Inserted(old(Value()), Value(), matrix, indexList, Elements(ctrlList), gained, dropped)
      ensures |matrix| > 1 && FactorSafe(old(Value()), Elements(ctrlList)) ==>
                SameMeaning(old(Value()), Value(), matrix, indexList, Elements(ctrlList))
    {
      gained, dropped := [], [];
      if |matrix| == 1 {
        factor := Mul(factor, matrix[0][0]);
        return;
      }
      ghost var f := Value();
      qubits := qubits + set q | q in indexList;
      var mat, idx;
      mat, idx, gained, dropped := HandleControls(matrix, indexList, ctrlList, f);
      items := items + [Item(mat, idx)];
      InsertKeepsOk(f, Value(), matrix, indexList, Elements(ctrlList), gained, dropped);
      if FactorSafe(f, Elements(ctrlList)) {
        InsertKeepsMeaning(f, Value(), matrix, indexList, Elements(ctrlList), gained, dropped);
      }
    }

    // handle_controls
    method HandleControls(matrix: Matrix, indexList: seq<nat>, ctrlList: seq<nat>, ghost f: Fused)
      returns (mat: Matrix, idx: seq<nat>, ghost gained: seq<nat>, dropped: seq<nat>)
      requires FusedOk(f) && GateOk(matrix, indexList, Elements(ctrlList)) && Distinct(ctrlList)
      requires Value() == f.(qubits := f.qubits + Elements(indexList))
      modifies this
      ensures Item(mat, idx) == AddToItem(Item(matrix, indexList), gained) && factor == old(factor)
      ensures Distinct(gained) && Distinct(dropped) && Elements(dropped) == f.ctrls - Elements(ctrlList)
      ensures items == AddToAll(f.items, dropped)
      ensures qubits == f.qubits + Elements(indexList) + Elements(gained) + Elements(dropped)
      ensures if f.items == [] then gained == [] && ctrlSet == Elements(ctrlList)
              else Elements(gained) == Elements(ctrlList) - f.ctrls && ctrlSet == f.ctrls * Elements(ctrlList)
    {
      var unhandled;
      mat, idx, gained, unhandled := TakeControls(matrix, indexList, ctrlList, f);
      EmptyElements(gained);
      dropped := Ascending(unhandled);
      MigrateControls(dropped);
    }

    // The first loop of handle_controls: the new gate's controls.
    method TakeControls(matrix: Matrix, indexList: seq<nat>, ctrlList: seq<nat>, ghost f: Fused)
      returns (mat: Matrix, idx: seq<nat>, ghost gained: seq<nat>, unhandled: set<nat>)
      requires FusedOk(f) && IsMatrix(matrix, |indexList|) && Distinct(ctrlList)
      requires Value() == f.(qubits := f.qubits + Elements(indexList))
      modifies this
      ensures Item(mat, idx) == AddToItem(Item(matrix, indexList), gained) && Distinct(gained)
      ensures unhandled == f.ctrls - Elements(ctrlList)
      ensures items == f.items && factor == f.factor && qubits == f.qubits + Elements(indexList) + Elements(gained)
      ensures ControlsTaken(f, Elements(ctrlList), Elements(gained), ctrlSet)
    {
      unhandled := ctrlSet;
      mat, idx, gained := matrix, indexList, [];
      AddingNothing(Item(matrix, indexList));
      for i := 0 to |ctrlList|
        invariant Item(mat, idx) == AddToItem(Item(matrix, indexList), gained) && IsMatrix(mat, |idx|)
        invariant items == f.items && factor == f.factor && unhandled == f.ctrls - Elements(ctrlList[..i])
        invariant Distinct(gained) && qubits == f.qubits + Elements(indexList) + Elements(gained)
        invariant ControlsTaken(f, Elements(ctrlList[..i]), Elements(gained), ctrlSet)
      {
        var ctrl := ctrlList[i];
        OneMoreControl(ctrlList, i);
        if ctrl !in ctrlSet {
          if |items| > 0 {
            AddingOneMore(Item(matrix, indexList), gained, ctrl);
            OneMoreGained(gained, ctrl);
            mat, idx := AddControls(mat, idx, [ctrl]);
            qubits := qubits + {ctrl};
            gained := gained + [ctrl];
          } else {
            ctrlSet := ctrlSet + {ctrl};
          }
        } else {
          unhandled := unhandled - {ctrl};
        }
      }
      assert ctrlList[..|ctrlList|] == ctrlList;
    }

    // The common controls that the new gate does not have go into the old items.
    method MigrateControls(dropped: seq<nat>)
      requires Distinct(dropped) && forall i :: 0 <= i < |items| ==> IsMatrix(items[i].mat, |items[i].idx|)
      modifies this
      ensures items == AddToAll(old(items), dropped) && factor == old(factor)
      ensures ctrlSet == old(ctrlSet) - Elements(dropped) && qubits == old(qubits) + Elements(dropped)
    {
      if |dropped| == 0 {
        forall i | 0 <= i < |items| {
          AddingNothing(items[i]);
        }
        return;
      }
      ctrlSet := ctrlSet - set q | q in dropped;
      qubits := qubits + set q | q in dropped;
      for i := 0 to |items|
        invariant |items| == |old(items)| && factor == old(factor)
        invariant ctrlSet == old(ctrlSet) - Elements(dropped) && qubits == old(qubits) + Elements(dropped)
        invariant forall x :: 0 <= x < |items| ==> items[x] == if x < i then AddToItem(old(items)[x], dropped) else old(items)[x]
      {
        var mat, idx := AddControls(items[i].mat, items[i].idx, dropped);
        items := items[i := Item(mat, idx)];
      }
    }

    // perform_fusion
    method PerformFusion() returns (matrix: Matrix, indexList: seq<nat>, ctrlList: seq<nat>)
      requires FusedOk(Value())
      modifies this`factor
      ensures factor == ONE && Increasing(indexList) && Elements(indexList) == qubits
      ensures Increasing(ctrlList) && Elements(ctrlList) == ctrlSet
      ensures IsMatrix(matrix, |indexList|)
      ensures forall psi: Wave, a: set<nat> ::
                Gate(matrix, indexList, Elements(ctrlList), psi)(a) == Denote(old(Value()), psi)(a)
    {
      ghost var f := Value();
      indexList := Ascending(qubits);
      var n, c := |indexList|, factor;
      matrix := seq(Pow2(n), i requires 0 <= i => seq(Pow2(n), j requires 0 <= j => if i == j then c else ZERO));
      assert matrix == Diagonal(n, c);
      for i := 0 to |items|
        invariant IsMatrix(matrix, n) && matrix == FusedMatrix(items[..i], indexList, c)
      {
        ItemLocated(items[i], indexList);
        LocatedDistinct(items[i].idx, indexList, Positions(items[i].idx, indexList));
        matrix := FuseItem(matrix, n, items[i].mat, Positions(items[i].idx, indexList));
        assert items[..i + 1][..i] == items[..i];
      }
      assert items[..|items|] == items;
      ctrlList := Ascending(ctrlSet);
      factor := ONE;
      forall psi: Wave, a: set<nat>
        ensures Gate(matrix, indexList, Elements(ctrlList), psi)(a) == Denote(f, psi)(a)
      {
        FusionKeepsMeaning(f, indexList, psi, a);
      }
    }
  }

  // The controls a new gate brings: into its own matrix when there are items
  // already, else into the common controls.
  ghost predicate ControlsTaken(f: Fused, ctrls: set<nat>, gained: set<nat>, ctrlSet: set<nat>) {
    if f.items == [] then gained == {} && ctrlSet == ctrls
    else gained == ctrls - f.ctrls && ctrlSet == f.ctrls
  }

  lemma OneMoreGained(s: seq<nat>, c: nat)
    requires Distinct(s) && c !in Elements(s)
    ensures Distinct(s + [c]) && Elements(s + [c]) == Elements(s) + {c}
  {
    forall i | 0 <= i < |s| ensures s[i] != c {
      assert s[i] in Elements(s);
    }
  }

  lemma AddingNothing(item: Item)
    requires IsMatrix(item.mat, |item.idx|)
    ensures AddToItem(item, []) == item
  {
    assert item.idx + [] == item.idx;
    var r := Added(item.mat, |item.idx|, 0);
    forall i | 0 <= i < |r| ensures r[i] == item.mat[i] {
    }
  }

  // Adding controls one by one or all at once is the same.
  lemma AddingOneMore(item: Item, cs: seq<nat>, c: nat)
    requires IsMatrix(item.mat, |item.idx|)
    ensures AddToItem(AddToItem(item, cs), [c]) == AddToItem(item, cs + [c])
  {
    var one, both := AddToItem(AddToItem(item, cs), [c]), AddToItem(item, cs + [c]);
    assert one.idx == both.idx;
    var k := |item.idx|;
    forall i | 0 <= i < Pow2(k + |cs| + 1) ensures one.mat[i] == both.mat[i] {
      forall j | 0 <= j < Pow2(k + |cs| + 1) ensures one.mat[i][j] == both.mat[i][j] {
        AddedTwice(item.mat, k, |cs|, i, j);
      }
    }
  }

  lemma AddedTwice(m: Matrix, k: nat, c: nat, i: nat, j: nat)
    requires IsMatrix(m, k) && i < Pow2(k + c + 1) && j < Pow2(k + c + 1)
    ensures AddedEntry(Added(m, k, c), Offset(k + c, 1), i, j) == AddedEntry(m, Offset(k, c + 1), i, j)
  {
    assert Offset(k + c, 1) + Offset(k, c) == Offset(k, c + 1);
  }

  lemma OneMoreControl(s: seq<nat>, i: nat)
    requires i < |s| && Distinct(s)
    ensures Elements(s[..i + 1]) == Elements(s[..i]) + {s[i]} && s[i] !in Elements(s[..i])
  {
    assert s[..i + 1] == s[..i] + [s[i]];
  }

  lemma InsertKeepsOk(f: Fused, f': Fused, m: Matrix, idx: seq<nat>, ctrls: set<nat>, gained: seq<nat>, dropped: seq<nat>)
    requires FusedOk(f) && GateOk(m, idx, ctrls) && Inserted(f, f', m, idx, ctrls, gained, dropped)
    ensures FusedOk(f')
  {
    forall i | 0 <= i < |f'.items| ensures ItemOk(f'.items[i], f'.qubits) {
      if i < |f.items| {
        UntouchedControls(f.items[i], f.qubits, dropped);
      } else {
        forall q | q in idx ensures q !in gained {
          assert q in gained <==> q in Elements(gained);
        }
        DistinctConcat(idx, gained);
      }
    }
    assert Elements(idx) !! ctrls;
  }

  // ----- whole runs -------------------------------------------------------

  datatype Controlled = Controlled(mat: Matrix, idx: seq<nat>, ctrls: set<nat>)

  // The gates one after the other.
  ghost function Ordered(gates: seq<Controlled>, psi: Wave): Wave {
    if gates == [] then psi else
    var last := gates[|gates| - 1];
    Gate(last.mat, last.idx, last.ctrls, Ordered(gates[..|gates| - 1], psi))
  }

  // One insertion, and whether it keeps the meaning.
  ghost predicate StepOf(f: Fused, f': Fused, g: Controlled) {
    && FusedOk(f) && GateOk(g.mat, g.idx, g.ctrls)
    && if g.idx == [] then f' == f.(factor := Mul(f.factor, Entry(g.mat, 0, 0)))
       else exists gained, dropped :: Inserted(f, f', g.mat, g.idx, g.ctrls, gained, dropped)
  }

  ghost predicate Sound(f: Fused, g: Controlled) {
    if g.idx == [] then Entry(g.mat, 0, 0) == ONE || g.ctrls == f.ctrls else FactorSafe(f, g.ctrls)
  }

  ghost predicate IsRun(states: seq<Fused>, gates: seq<Controlled>) {
    && |states| == |gates| + 1 && states[0] == Fused([], {}, {}, ONE)
    && forall i :: 0 <= i < |gates| ==> StepOf(states[i], states[i + 1], gates[i])
  }

  lemma StepMeaning(f: Fused, f': Fused, g: Controlled)
    requires StepOf(f, f', g) && Sound(f, g)
    ensures SameMeaning(f, f', g.mat, g.idx, g.ctrls)
  {
    if g.idx == [] {
      FactorKeepsMeaning(f, g.mat, g.ctrls);
    } else {
      var gained, dropped :| Inserted(f, f', g.mat, g.idx, g.ctrls, gained, dropped);
      InsertKeepsMeaning(f, f', g.mat, g.idx, g.ctrls, gained, dropped);
    }
  }

  lemma GateSame(g: Controlled, psi: Wave, psi': Wave, a: set<nat>)
    requires forall b: set<nat> :: psi(b) == psi'(b)
    ensures Gate(g.mat, g.idx, g.ctrls, psi)(a) == Gate(g.mat, g.idx, g.ctrls, psi')(a)
  {
    ApplySame(g.mat, g.idx, psi, psi', a);
  }

  // After any run of sound insertions the collected gates do what the gates do
  // one after the other.
  lemma {:induction false} RunMeaning(states: seq<Fused>, gates: seq<Controlled>, psi: Wave)
    requires IsRun(states, gates) && forall i :: 0 <= i < |gates| ==> Sound(states[i], gates[i])
    ensures forall a: set<nat> :: Denote(states[|gates|], psi)(a) == Ordered(gates, psi)(a)
  {
    var k := |gates| - 1;
    if k < 0 {
      forall a: set<nat> ensures Denote(states[0], psi)(a) == psi(a) {
        MulUnits(psi(a));
      }
    } else {
      RunMeaning(states[..k + 1], gates[..k], psi);
      StepMeaning(states[k], states[k + 1], gates[k]);
      forall a: set<nat> ensures Denote(states[k + 1], psi)(a) == Ordered(gates, psi)(a) {
        GateSame(gates[k], Denote(states[k], psi), Ordered(gates[..k], psi), a);
      }
    }
  }

  // Without 1x1 matrices every insertion is sound, and the fused matrix under
  // the common controls is the ordered product of the gates.
  lemma FusedMatrixOfRun(states: seq<Fused>, gates: seq<Controlled>, list: seq<nat>, psi: Wave, a: set<nat>)
    requires IsRun(states, gates) && forall i :: 0 <= i < |gates| ==> gates[i].idx != []
    requires var f := states[|gates|]; FusedOk(f) && Distinct(list) && Elements(list) == f.qubits
    ensures var f := states[|gates|];
            Gate(FusedMatrix(f.items, list, f.factor), list, f.ctrls, psi)(a) == Ordered(gates, psi)(a)
  {
    NoScalarsIsSound(states, gates);
    RunMeaning(states, gates, psi);
    FusionKeepsMeaning(states[|gates|], list, psi, a);
  }

  lemma NoScalarsIsSound(states: seq<Fused>, gates: seq<Controlled>)
    requires IsRun(states, gates) && forall i :: 0 <= i < |gates| ==> gates[i].idx != []
    ensures forall i :: 0 <= i < |gates| ==> Sound(states[i], gates[i])
  {
    forall i | 0 <= i < |gates| ensures Sound(states[i], gates[i]) {
      FactorStaysOne(states, gates, i);
    }
  }

  lemma {:induction false} FactorStaysOne(states: seq<Fused>, gates: seq<Controlled>, k: nat)
    requires IsRun(states, gates) && k < |states| && forall i :: 0 <= i < |gates| ==> gates[i].idx != []
    ensures states[k].factor == ONE
  {
    if k > 0 {
      FactorStaysOne(states, gates, k - 1);
      assert StepOf(states[k - 1], states[k], gates[k - 1]);
    }
  }
}
