// The sign of a row product (compute_phase_): per-qubit exponents of i, counted
// in two-bit counters that are carried along the 32-bit words of each of the
// eight lanes and then combined over the lanes by XOR.

module PauliPhase {
  import opened Symplectic

  // ----- the product of two Pauli operators -------------------------------

  // What the operator I, X, Z or Y encoded by an x bit and a z bit does to the
  // basis state b: a power of i and the new basis state.
  function Act(x: bool, z: bool, b: bool): (int, bool) {
    if x && z then (if b then 3 else 1, !b)
    else if x then (0, !b)
    else if z then (if b then 2 else 0, b)
    else (0, b)
  }

  // The bitwise conditions of the kernel, for one bit.
  predicate Differ(xh: bool, zh: bool, xi: bool, zi: bool) {
    (xi || zi) && (xh || zh) && (xi != xh || zi != zh)
  }

  predicate Negative(xh: bool, zh: bool, xi: bool, zi: bool) {
    (xi || zh) && (!xh || zi) && (!zi || xh)
  }

  function Exponent(xh: bool, zh: bool, xi: bool, zi: bool): (e: int)
    ensures 0 <= e < 4
  {
    if !Differ(xh, zh, xi, zi) then 0 else if Negative(xh, zh, xi, zi) then 3 else 1
  }

  // The exponent is that of the product P_i P_h, and it is odd exactly when
  // the two anticommute.
  lemma ExponentIsThatOfProduct(xh: bool, zh: bool, xi: bool, zi: bool, b: bool)
    ensures var (k1, b1) := Act(xh, zh, b);
            var (k2, b2) := Act(xi, zi, b1);
            var (k, b') := Act(xi != xh, zi != zh, b);
            b' == b2 && (k1 + k2) % 4 == (k + Exponent(xh, zh, xi, zi)) % 4
    ensures Exponent(xh, zh, xi, zi) % 2 == 1 <==> (xh && zi) != (zh && xi)
  {
  }

  // ----- sums -------------------------------------------------------------

  ghost function Sum(f: nat -> int, n: nat): int {
    if n == 0 then 0 else Sum(f, n - 1) + f(n - 1)
  }

  lemma {:induction false} SumSame(f: nat -> int, g: nat -> int, n: nat)
    requires forall j: nat :: j < n ==> f(j) == g(j)
    ensures Sum(f, n) == Sum(g, n)
  {
    if n > 0 { SumSame(f, g, n - 1); }
  }

  lemma {:induction false} SumPlus(f: nat -> int, g: nat -> int, h: nat -> int, n: nat)
    requires forall j: nat :: j < n ==> h(j) == f(j) + g(j)
    ensures Sum(h, n) == Sum(f, n) + Sum(g, n)
  {
    if n > 0 { SumPlus(f, g, h, n - 1); }
  }

  lemma {:induction false} SumZero(f: nat -> int, n: nat)
    requires forall j: nat :: j < n ==> f(j) == 0
    ensures Sum(f, n) == 0
  {
    if n > 0 { SumZero(f, n - 1); }
  }

  // Summing m numbers after the first n.
  lemma {:induction false} SumSplit(f: nat -> int, g: nat -> int, n: nat, m: nat)
    requires forall j: nat :: j < m ==> g(j) == f(n + j)
    ensures Sum(f, n + m) == Sum(f, n) + Sum(g, m)
  {
    if m > 0 { SumSplit(f, g, n, m - 1); }
  }

  // Every cols-th number, starting at c; and the sums of these, by start.
  ghost function Strided(f: nat -> int, cols: nat, c: nat): nat -> int {
    (w: nat) => f(cols * w + c)
  }

  ghost function StridedSums(f: nat -> int, cols: nat, k: nat): nat -> int {
    (c: nat) => Sum(Strided(f, cols, c), k)
  }

  ghost function Shifted(f: nat -> int, n: nat): nat -> int {
    (j: nat) => f(n + j)
  }

  // Summing column by column is summing row by row.
  lemma {:induction false} Regroup(f: nat -> int, cols: nat, k: nat)
    ensures Sum(f, cols * k) == Sum(StridedSums(f, cols, k), cols)
  {
    if k == 0 {
      SumZero(StridedSums(f, cols, 0), cols);
    } else {
      Regroup(f, cols, k - 1);
      var n := cols * (k - 1);
      assert n + cols == cols * k;
      SumSplit(f, Shifted(f, n), n, cols);
      SumPlus(StridedSums(f, cols, k - 1), Shifted(f, n), StridedSums(f, cols, k), cols);
    }
  }

  // ----- counters ---------------------------------------------------------

  predicate At(s: seq<bool>, j: nat) { j < |s| && s[j] }

  function ExponentAt(h: Row, i: Row, j: nat): (e: int)
    ensures 0 <= e < 4
  {
    Exponent(At(h.x, j), At(h.z, j), At(i.x, j), At(i.z, j))
  }

  // Whether the rows anticommute at qubit j.
  ghost predicate ClashAt(h: Row, i: Row, j: nat) {
    (At(h.x, j) && At(i.z, j)) != (At(h.z, j) && At(i.x, j))
  }

  datatype Counter = Counter(high: bool, low: bool) {
    function Value(): (v: nat) { (if high then 2 else 0) + (if low then 1 else 0) }

    // One step of the kernel on this bit.
    function Next(xh: bool, zh: bool, xi: bool, zi: bool): (c: Counter)
      ensures c.Value() == (Value() + Exponent(xh, zh, xi, zi)) % 4
    {
      var rs := Differ(xh, zh, xi, zi);
      Counter((low && rs) != (high != (Negative(xh, zh, xi, zi) && rs)), low != rs)
    }
  }

  lemma NextValue(c: Counter, sum: int, e: int)
    requires c.Value() == sum % 4
    ensures (c.Value() + e) % 4 == (sum + e) % 4
  {
    AddMod4(c.Value(), sum, e, e);
  }

  lemma DropMultiple(a: int, b: int, t: int)
    requires a == b + 4 * t
    ensures a % 4 == b % 4
  {
  }

  lemma AddMod4(a: int, b: int, c: int, d: int)
    requires a % 4 == b % 4 && c % 4 == d % 4
    ensures (a + c) % 4 == (b + d) % 4
  {
  }

  // XOR adds the counters of two lanes except for the carry out of the low
  // bit; the result is the multiple of 4 dropped besides.
  function AddLane(v: Counter, x: Counter, odd: nat): (t: int)
    requires x.low == (odd % 2 == 1)
    ensures var odd' := odd + if v.low then 1 else 0;
            var x' := Counter(x.high != v.high, x.low != v.low);
            && x.Value() + 2 * (odd / 2) + v.Value() == x'.Value() + 2 * (odd' / 2) + 4 * t
            && x'.low == (odd' % 2 == 1)
  {
    if v.high && x.high then 1 else 0
  }

  // The shape of the machine registers: 8 lanes of 32 bits in the build modelled here.
  datatype Machine = Machine(lanes: nat, width: nat) {
    function Columns(): nat { width * lanes }

    function ColumnOf(l: nat, b: nat): nat { width * l + b }

    // How many registers hold n bits.
    function Registers(n: nat): (k: nat)
      requires lanes > 0 && width > 0
      ensures n <= Columns() * k
    {
      PositiveProduct(width, lanes);
      RoundUp(n, Columns());
      (n + Columns() - 1) / Columns()
    }

    // The counter of column c (bit c % width of lane c / width) after k registers.
    function Column(h: Row, i: Row, c: nat, k: nat): Counter {
      if k == 0 then Counter(false, false) else
      var j := Columns() * (k - 1) + c;
      Column(h, i, c, k - 1).Next(At(h.x, j), At(h.z, j), At(i.x, j), At(i.z, j))
    }

    // Along the words of a lane the counter is the running sum modulo 4.
    lemma {:induction false} CounterIsRunningSum(h: Row, i: Row, c: nat, k: nat)
      ensures Column(h, i, c, k).Value() == Sum(Strided(Exponents(h, i), Columns(), c), k) % 4
    {
      if k > 0 {
        CounterIsRunningSum(h, i, c, k - 1);
        var f, j := Strided(Exponents(h, i), Columns(), c), Columns() * (k - 1) + c;
        assert f(k - 1) == ExponentAt(h, i, j);
        NextValue(Column(h, i, c, k - 1), Sum(f, k - 1), ExponentAt(h, i, j));
        assert Column(h, i, c, k).Value() == (Column(h, i, c, k - 1).Value() + ExponentAt(h, i, j)) % 4;
      }
    }

    // The lanes combined by XOR, for one bit of the word.
    function XorHigh(h: Row, i: Row, k: nat, b: nat, l: nat): bool {
      if l == 0 then false else XorHigh(h, i, k, b, l - 1) != Column(h, i, ColumnOf(l - 1, b), k).high
    }

    function XorLow(h: Row, i: Row, k: nat, b: nat, l: nat): bool {
      if l == 0 then false else XorLow(h, i, k, b, l - 1) != Column(h, i, ColumnOf(l - 1, b), k).low
    }

    // 2 * popcount(high) + popcount(low)
    function Popcounts(h: Row, i: Row, k: nat, bits: nat): nat {
      if bits == 0 then 0 else
      Popcounts(h, i, k, bits - 1)
      + Counter(XorHigh(h, i, k, bits - 1, lanes), XorLow(h, i, k, bits - 1, lanes)).Value()
    }

    // Whether the rows anticommute at an odd number of the qubits of column c.
    ghost predicate OddClashes(h: Row, i: Row, c: nat, k: nat) {
      k > 0 && OddClashes(h, i, c, k - 1) != ClashAt(h, i, Columns() * (k - 1) + c)
    }

    // This is what the low counter of the column says.
    lemma {:induction false} LowIsOdd(h: Row, i: Row, c: nat, k: nat)
      ensures Column(h, i, c, k).low == OddClashes(h, i, c, k)
    {
      if k > 0 {
        LowIsOdd(h, i, c, k - 1);
      }
    }

    // The number of lanes in which the rows anticommute at an odd number of
    // the qubits of bit b.
    ghost function OddLanes(h: Row, i: Row, k: nat, b: nat, l: nat): nat {
      if l == 0 then 0 else
      OddLanes(h, i, k, b, l - 1) + if OddClashes(h, i, ColumnOf(l - 1, b), k) then 1 else 0
    }

    // The carries from low to high that XOR drops: one for every two such lanes of a bit.
    ghost function LostCarries(h: Row, i: Row, k: nat, bits: nat): nat {
      if bits == 0 then 0 else LostCarries(h, i, k, bits - 1) + OddLanes(h, i, k, bits - 1, lanes) / 2
    }

    ghost function Values(h: Row, i: Row, k: nat): nat -> int {
      (c: nat) => Column(h, i, c, k).Value()
    }

    // XOR over the lanes loses a multiple of 4 and the carries.
    lemma {:induction false} LanesOfOneBit(h: Row, i: Row, k: nat, b: nat, l: nat) returns (t: int)
      ensures Sum(Strided(Values(h, i, k), width, b), l)
              == Counter(XorHigh(h, i, k, b, l), XorLow(h, i, k, b, l)).Value() + 2 * (OddLanes(h, i, k, b, l) / 2) + 4 * t
      ensures XorLow(h, i, k, b, l) == (OddLanes(h, i, k, b, l) % 2 == 1)
    {
      t := 0;
      if l > 0 {
        t := LanesOfOneBit(h, i, k, b, l - 1);
        var v, odd := Column(h, i, ColumnOf(l - 1, b), k), OddLanes(h, i, k, b, l - 1);
        var x := Counter(XorHigh(h, i, k, b, l - 1), XorLow(h, i, k, b, l - 1));
        NextLane(h, i, k, b, l, v, x, odd);
        t := t + AddLane(v, x, odd);
      }
    }

    lemma NextLane(h: Row, i: Row, k: nat, b: nat, l: nat, v: Counter, x: Counter, odd: nat)
      requires l > 0 && v == Column(h, i, ColumnOf(l - 1, b), k) && odd == OddLanes(h, i, k, b, l - 1)
      requires x == Counter(XorHigh(h, i, k, b, l - 1), XorLow(h, i, k, b, l - 1))
      ensures Sum(Strided(Values(h, i, k), width, b), l) == Sum(Strided(Values(h, i, k), width, b), l - 1) + v.Value()
      ensures XorHigh(h, i, k, b, l) == (x.high != v.high) && XorLow(h, i, k, b, l) == (x.low != v.low)
      ensures OddLanes(h, i, k, b, l) == odd + if v.low then 1 else 0
    {
      LowIsOdd(h, i, ColumnOf(l - 1, b), k);
    }

    lemma {:induction false} BitsOfWord(h: Row, i: Row, k: nat, bits: nat) returns (t: int)
      ensures Sum(StridedSums(Values(h, i, k), width, lanes), bits)
              == Popcounts(h, i, k, bits) + 2 * LostCarries(h, i, k, bits) + 4 * t
    {
      t := 0;
      if bits > 0 {
        t := BitsOfWord(h, i, k, bits - 1);
        var u := LanesOfOneBit(h, i, k, bits - 1, lanes);
        t := t + u;
      }
    }

    lemma ColumnsAgree(h: Row, i: Row, k: nat, cols: nat)
      ensures Sum(Values(h, i, k), cols) % 4 == Sum(StridedSums(Exponents(h, i), Columns(), k), cols) % 4
    {
      forall c: nat ensures Values(h, i, k)(c) % 4 == StridedSums(Exponents(h, i), Columns(), k)(c) % 4 {
        CounterIsRunningSum(h, i, c, k);
      }
      SumSameMod4(Values(h, i, k), StridedSums(Exponents(h, i), Columns(), k), cols);
    }

    // What the kernel counts differs from the exact exponent by twice the lost carries.
    lemma CountedExponent(h: Row, i: Row, k: nat)
      ensures ExactSum(h, i, Columns() * k) % 4
              == (Popcounts(h, i, k, width) + 2 * LostCarries(h, i, k, width)) % 4
    {
      Regroup(Exponents(h, i), Columns(), k);
      ColumnsAgree(h, i, k, Columns());
      Regroup(Values(h, i, k), width, lanes);
      var t := BitsOfWord(h, i, k, width);
      DropMultiple(Sum(Values(h, i, k), Columns()), Popcounts(h, i, k, width) + 2 * LostCarries(h, i, k, width), t);
    }
  }

  // ----- the phase of a row product ---------------------------------------

  function Twice(b: bool): nat { if b then 2 else 0 }

  // compute_phase_: the counted exponent and the two sign bits, modulo 4.
  function Phase(m: Machine, n: nat, h: Row, rh: bool, i: Row, ri: bool): (p: nat)
    requires m.lanes > 0 && m.width > 0
    ensures p < 4
  {
    (m.Popcounts(h, i, m.Registers(n), m.width) + Twice(rh) + Twice(ri)) % 4
  }

  // The phase the product really has.
  ghost function ExactPhase(n: nat, h: Row, rh: bool, i: Row, ri: bool): int {
    (ExactSum(h, i, n) + Twice(rh) + Twice(ri)) % 4
  }

  method ComputePhase(m: Machine, n: nat, h: Row, rh: bool, i: Row, ri: bool) returns (p: nat)
    requires m.lanes > 0 && m.width > 0
    ensures p == Phase(m, n, h, rh, i, ri)
  {
    var counters := seq(m.Columns(), c => Counter(false, false));
    for k := 0 to m.Registers(n)
      invariant counters == seq(m.Columns(), c requires 0 <= c < m.Columns() => m.Column(h, i, c, k))
    {
      var j := m.Columns() * k;
      counters := seq(m.Columns(), c requires 0 <= c < m.Columns() && |counters| == m.Columns() =>
                        counters[c].Next(At(h.x, j + c), At(h.z, j + c), At(i.x, j + c), At(i.z, j + c)));
    }
    var exponent := ReduceCounters(m, h, i, m.Registers(n), counters);
    return (exponent + Twice(rh) + Twice(ri)) % 4;
  }

  // XOR over the lanes, then the two population counts.
  method ReduceCounters(m: Machine, ghost h: Row, ghost i: Row, ghost k: nat, counters: seq<Counter>) returns (exponent: nat)
    requires |counters| == m.Columns() && forall c :: 0 <= c < m.Columns() ==> counters[c] == m.Column(h, i, c, k)
    ensures exponent == m.Popcounts(h, i, k, m.width)
  {
    exponent := 0;
    for b := 0 to m.width
      invariant exponent == m.Popcounts(h, i, k, b)
    {
      var high, low := false, false;
      for l := 0 to m.lanes
        invariant high == m.XorHigh(h, i, k, b, l) && low == m.XorLow(h, i, k, b, l)
      {
        ColumnInRange(m.width, m.lanes, l, b);
        var c := counters[m.ColumnOf(l, b)];
        high, low := high != c.high, low != c.low;
      }
      exponent := exponent + Counter(high, low).Value();
    }
  }

  lemma ColumnInRange(width: nat, lanes: nat, l: nat, b: nat)
    requires l < lanes && b < width
    ensures width * l + b < width * lanes
  {
    assert width * (l + 1) <= width * lanes;
  }

  // Qubits past the end of the rows contribute nothing.
  lemma {:induction false} NothingPastTheEnd(h: Row, i: Row, n: nat, more: nat)
    requires IsRow(h, n) && IsRow(i, n)
    ensures ExactSum(h, i, n + more) == ExactSum(h, i, n)
  {
    if more > 0 {
      NothingPastTheEnd(h, i, n, more - 1);
    }
  }

  lemma PhaseDiffersByLostCarries(m: Machine, n: nat, h: Row, rh: bool, i: Row, ri: bool)
    requires m.lanes > 0 && m.width > 0 && IsRow(h, n) && IsRow(i, n)
    ensures ExactPhase(n, h, rh, i, ri)
            == (Phase(m, n, h, rh, i, ri) + 2 * m.LostCarries(h, i, m.Registers(n), m.width)) % 4
  {
    var k := m.Registers(n);
    m.CountedExponent(h, i, k);
    NothingPastTheEnd(h, i, n, m.Columns() * k - n);
    AddSigns(ExactSum(h, i, n), m.Popcounts(h, i, k, m.width), m.LostCarries(h, i, k, m.width), Twice(rh) + Twice(ri));
  }

  lemma AddSigns(exact: int, counted: int, lost: int, signs: int)
    requires exact % 4 == (counted + 2 * lost) % 4
    ensures (exact + signs) % 4 == ((counted + signs) % 4 + 2 * lost) % 4
  {
    AddMod4(exact, counted + 2 * lost, signs, signs);
    AddMod4(counted + signs, (counted + signs) % 4, 2 * lost, 2 * lost);
  }

  // The computed phase is the real one exactly when the XOR over the lanes
  // drops an even number of carries.
  lemma PhaseExactIff(m: Machine, n: nat, h: Row, rh: bool, i: Row, ri: bool)
    requires m.lanes > 0 && m.width > 0 && IsRow(h, n) && IsRow(i, n)
    ensures Phase(m, n, h, rh, i, ri) == ExactPhase(n, h, rh, i, ri)
            <==> m.LostCarries(h, i, m.Registers(n), m.width) % 2 == 0
  {
    PhaseDiffersByLostCarries(m, n, h, rh, i, ri);
    OffByTwice(Phase(m, n, h, rh, i, ri), m.LostCarries(h, i, m.Registers(n), m.width));
  }

  lemma OffByTwice(p: nat, lost: nat)
    requires p < 4
    ensures (p + 2 * lost) % 4 == p <==> lost % 2 == 0
  {
    var half := lost / 2;
    if lost % 2 == 0 {
      assert p + 2 * lost == p + 4 * half;
    } else {
      assert p + 2 * lost == (p + 2) + 4 * half;
    }
  }

  // Its parity is always right: it is odd iff the rows anticommute.
  lemma PhaseParity(m: Machine, n: nat, h: Row, rh: bool, i: Row, ri: bool)
    requires m.lanes > 0 && m.width > 0 && IsRow(h, n) && IsRow(i, n)
    ensures Phase(m, n, h, rh, i, ri) % 2 == 1 <==> Sp(h, i)
  {
    PhaseDiffersByLostCarries(m, n, h, rh, i, ri);
    SumParity(h, i, n);
    assert Clashes(h, i)[..n] == Clashes(h, i);
    var p, lost := Phase(m, n, h, rh, i, ri), m.LostCarries(h, i, m.Registers(n), m.width);
    EvenPart(p, lost);
    EvenPart(ExactSum(h, i, n), (if rh then 1 else 0) + (if ri then 1 else 0));
  }

  lemma EvenPart(a: int, b: int)
    ensures ((a + 2 * b) % 4) % 2 == a % 2
  {
    var t := a + 2 * b;
    EvenShift(a, b - 2 * (t / 4));
  }

  lemma EvenShift(a: int, c: int)
    ensures (a + 2 * c) % 2 == a % 2
  {
  }

  lemma {:induction false} SumParity(h: Row, i: Row, n: nat)
    requires n <= |h.x| == |h.z| == |i.x| == |i.z|
    ensures ExactSum(h, i, n) % 2 == 1 <==> Parity(Clashes(h, i)[..n])
  {
    if n > 0 {
      SumParity(h, i, n - 1);
      assert Clashes(h, i)[..n][..n - 1] == Clashes(h, i)[..n - 1];
      assert Clashes(h, i)[..n][n - 1] == Clash(h, i, n - 1);
    }
  }

  // Multiplying onto the empty row just copies the sign.
  lemma PhaseOfEmptyRow(m: Machine, n: nat, i: Row, ri: bool)
    requires m.lanes > 0 && m.width > 0
    ensures Phase(m, n, Zero(n), false, i, ri) == Twice(ri)
  {
    EmptyRowCountsNothing(m, n, i, m.Registers(n), m.width);
  }

  lemma {:induction false} EmptyRowCountsNothing(m: Machine, n: nat, i: Row, k: nat, bits: nat)
    ensures m.Popcounts(Zero(n), i, k, bits) == 0
  {
    if bits > 0 {
      EmptyRowCountsNothing(m, n, i, k, bits - 1);
      EmptyRowLanes(m, n, i, k, bits - 1, m.lanes);
    }
  }

  lemma {:induction false} EmptyRowLanes(m: Machine, n: nat, i: Row, k: nat, b: nat, l: nat)
    ensures !m.XorHigh(Zero(n), i, k, b, l) && !m.XorLow(Zero(n), i, k, b, l)
  {
    if l > 0 {
      EmptyRowLanes(m, n, i, k, b, l - 1);
      EmptyRowColumn(m, n, i, m.ColumnOf(l - 1, b), k);
    }
  }

  lemma {:induction false} EmptyRowColumn(m: Machine, n: nat, i: Row, c: nat, k: nat)
    ensures m.Column(Zero(n), i, c, k) == Counter(false, false)
  {
    if k > 0 {
      EmptyRowColumn(m, n, i, c, k - 1);
    }
  }

  // Rows wider than a word: for X on qubits 0 and `width`, multiplied by Z on
  // the same two qubits, the two lanes each count 1, XOR gives 0 instead of 2,
  // and the sign of the product comes out wrong.
  lemma WideRowsCanBeWrong(m: Machine, h: Row, i: Row)
    requires m.lanes > 1 && m.width > 0
    requires h == Add(XAt(m.width + 1, 0), XAt(m.width + 1, m.width))
    requires i == Add(ZAt(m.width + 1, 0), ZAt(m.width + 1, m.width))
    ensures !Sp(h, i)
    ensures Phase(m, m.width + 1, h, false, i, false) == 0
    ensures ExactPhase(m.width + 1, h, false, i, false) == 2
  {
    assert Meets(h, i, m.width);
    WideRegisters(m, m.width + 1);
    TwoClashesLoseOne(m, h, i, m.width);
    TwoExponents(h, i, m.width + 1);
    PhaseDiffersByLostCarries(m, m.width + 1, h, false, i, false);
    PhaseParity(m, m.width + 1, h, false, i, false);
  }

  lemma WideRegisters(m: Machine, n: nat)
    requires m.lanes > 1 && m.width > 0 && 0 < n <= 2 * m.width
    ensures m.Registers(n) == 1
  {
    assert m.width * m.lanes >= m.width * 2;
    OneRegister(n, m.Columns());
  }

  lemma OneRegister(n: nat, d: nat)
    requires 0 < n <= d
    ensures (n + d - 1) / d == 1
  {
  }

  ghost predicate Meets(h: Row, i: Row, w: nat) {
    && IsRow(h, w + 1) && IsRow(i, w + 1) && w > 0
    && forall j :: 0 <= j <= w ==> h.x[j] == (j == 0 || j == w) && !h.z[j] && !i.x[j] && i.z[j] == (j == 0 || j == w)
  }

  lemma {:induction false} TwoExponents(h: Row, i: Row, n: nat)
    requires |h.x| > 1 && Meets(h, i, |h.x| - 1) && n <= |h.x|
    ensures ExactSum(h, i, n) == (if n == 0 then 0 else if n < |h.x| then 1 else 2)
  {
    if n > 0 {
      TwoExponents(h, i, n - 1);
    }
  }

  // The rows anticommute at qubits 0 and w and nowhere else.
  ghost predicate ClashTwice(h: Row, i: Row, w: nat) {
    forall j: nat :: ClashAt(h, i, j) <==> j == 0 || j == w
  }

  // These two qubits are in different lanes of the same bit.
  lemma {:induction false} TwoClashesLoseOne(m: Machine, h: Row, i: Row, bits: nat)
    requires m.lanes > 1 && m.width > 0 && ClashTwice(h, i, m.width) && bits <= m.width
    ensures m.LostCarries(h, i, 1, bits) == if bits == 0 then 0 else 1
  {
    if bits > 0 {
      TwoClashesLoseOne(m, h, i, bits - 1);
      LanesOfTwoClashes(m, h, i, bits - 1, m.lanes);
    }
  }

  lemma {:induction false} LanesOfTwoClashes(m: Machine, h: Row, i: Row, b: nat, l: nat)
    requires m.width > 0 && ClashTwice(h, i, m.width) && b < m.width
    ensures m.OddLanes(h, i, 1, b, l) == if b > 0 || l == 0 then 0 else if l == 1 then 1 else 2
  {
    if l > 0 {
      LanesOfTwoClashes(m, h, i, b, l - 1);
      OneWord(m, h, i, m.ColumnOf(l - 1, b));
      LaneAndBit(m.width, l - 1, b);
      assert m.ColumnOf(l - 1, b) == m.width * (l - 1) + b;
    }
  }

  lemma OneWord(m: Machine, h: Row, i: Row, c: nat)
    ensures m.OddClashes(h, i, c, 1) == ClashAt(h, i, c)
  {
    assert m.Columns() * 0 + c == c;
    assert !m.OddClashes(h, i, c, 0);
  }

  // Rows that anticommute at no qubit lose nothing.
  lemma {:induction false} NoClashesLoseNothing(m: Machine, h: Row, i: Row, k: nat, bits: nat)
    requires forall j: nat :: !ClashAt(h, i, j)
    ensures m.LostCarries(h, i, k, bits) == 0
  {
    if bits > 0 {
      NoClashesLoseNothing(m, h, i, k, bits - 1);
      LanesWithoutClash(m, h, i, k, bits - 1, m.lanes);
    }
  }

  lemma {:induction false} LanesWithoutClash(m: Machine, h: Row, i: Row, k: nat, b: nat, l: nat)
    requires forall j: nat :: !ClashAt(h, i, j)
    ensures m.OddLanes(h, i, k, b, l) == 0
  {
    if l > 0 {
      LanesWithoutClash(m, h, i, k, b, l - 1);
      ColumnWithoutClash(m, h, i, k, m.ColumnOf(l - 1, b));
    }
  }

  lemma {:induction false} ColumnWithoutClash(m: Machine, h: Row, i: Row, k: nat, c: nat)
    requires forall j: nat :: !ClashAt(h, i, j)
    ensures !m.OddClashes(h, i, c, k)
  {
    if k > 0 {
      ColumnWithoutClash(m, h, i, k - 1, c);
    }
  }

  lemma LaneAndBit(width: nat, l: nat, b: nat)
    requires b < width
    ensures width * l + b == 0 <==> l == 0 && b == 0
    ensures width * l + b == width <==> l == 1 && b == 0
  {
    if l > 1 {
      assert width * l >= width * 2;
    }
  }

  // Rows that fit one word: the phase is the real one.
  lemma NarrowRowsAreExact(m: Machine, n: nat, h: Row, rh: bool, i: Row, ri: bool)
    requires m.lanes > 0 && m.width > 0 && IsRow(h, n) && IsRow(i, n) && n <= m.width
    ensures Phase(m, n, h, rh, i, ri) == ExactPhase(n, h, rh, i, ri)
  {
    NoLostCarries(m, n, h, i, m.Registers(n), m.width);
    PhaseExactIff(m, n, h, rh, i, ri);
  }

  lemma {:induction false} NoLostCarries(m: Machine, n: nat, h: Row, i: Row, k: nat, bits: nat)
    requires m.lanes > 0 && m.width > 0 && IsRow(h, n) && IsRow(i, n) && n <= m.width
    ensures m.LostCarries(h, i, k, bits) == 0
  {
    if bits > 0 {
      NoLostCarries(m, n, h, i, k, bits - 1);
      AtMostOneOddLane(m, n, h, i, k, bits - 1, m.lanes);
    }
  }

  lemma {:induction false} AtMostOneOddLane(m: Machine, n: nat, h: Row, i: Row, k: nat, b: nat, l: nat)
    requires IsRow(h, n) && IsRow(i, n) && n <= m.width
    ensures m.OddLanes(h, i, k, b, l) <= if l == 0 then 0 else 1
  {
    if l > 0 {
      AtMostOneOddLane(m, n, h, i, k, b, l - 1);
      if l > 1 {
        assert m.width * (l - 1) >= m.width;
        QuietColumn(m, n, h, i, m.ColumnOf(l - 1, b), k);
      }
    }
  }

  // A column with no qubit in it never counts.
  lemma {:induction false} QuietColumn(m: Machine, n: nat, h: Row, i: Row, c: nat, k: nat)
    requires IsRow(h, n) && IsRow(i, n) && n <= c
    ensures !m.OddClashes(h, i, c, k)
  {
    if k > 0 {
      QuietColumn(m, n, h, i, c, k - 1);
    }
  }

  ghost function Exponents(h: Row, i: Row): nat -> int {
    (j: nat) => ExponentAt(h, i, j)
  }

  // The exact exponent of the product: the sum over the qubits.
  ghost function ExactSum(h: Row, i: Row, n: nat): int {
    Sum(Exponents(h, i), n)
  }

  lemma {:induction false} SumSameMod4(f: nat -> int, g: nat -> int, n: nat)
    requires forall j: nat :: j < n ==> f(j) % 4 == g(j) % 4
    ensures Sum(f, n) % 4 == Sum(g, n) % 4
  {
    if n > 0 { SumSameMod4(f, g, n - 1); }
  }

  lemma PositiveProduct(a: nat, b: nat)
    requires a > 0 && b > 0
    ensures a * b > 0
  {
  }

  lemma RoundUp(n: nat, d: nat)
    requires d > 0
    ensures n <= d * ((n + d - 1) / d)
  {
  }
}
