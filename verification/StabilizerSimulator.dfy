// The stabilizer simulator: the tableau in place, the gate cache in front of
// it, measurements and probability queries. Qubits are addressed by index.

module StabilizerSimulation {
  import opened Symplectic
  import opened PauliPhase
  import opened GateCache
  import opened Tableau
  import opened Outcomes
  import opened SetQubits

  // The tableau with the cached gates applied.
  ghost function Flushed(n: nat, tab: seq<Signed>, layers: seq<Layer>): (t: seq<Signed>)
    requires IsStored(n, tab) && LayersOk(layers, n)
    ensures IsTableau(n, t)
  {
    seq(2 * n, i requires 0 <= i < 2 * n => Flush(layers, tab[i], n))
  }

  // Rows 0 to 2n - 1, and the scratch row 2n.
  ghost predicate IsStored(n: nat, tab: seq<Signed>) {
    |tab| == 2 * n + 1 && forall i :: 0 <= i <= 2 * n ==> IsSigned(tab[i], n)
  }

  lemma FlipIsHSSH(n: nat, q: nat, t: seq<Signed>)
    requires IsTableau(n, t) && q < n
    ensures Flipped(n, q, t) == Conjugated(n, H(q), Conjugated(n, S(q), Conjugated(n, S(q), Conjugated(n, H(q), t))))
  {
    forall i | 0 <= i < 2 * n {
      XIsHSSH(q, t[i]);
    }
  }

  lemma RecordedGate(n: nat, tab: seq<Signed>, layers: seq<Layer>, layers': seq<Layer>, g: Gate)
    requires IsStored(n, tab) && Records(n, g, layers, layers')
    ensures Flushed(n, tab, layers') == Conjugated(n, g, Flushed(n, tab, layers))
  {
  }

  lemma EmptyCache(n: nat, tab: seq<Signed>, layers: seq<Layer>)
    requires IsStored(n, tab) && forall d :: 0 <= d < |layers| ==> layers[d] == EMPTY
    ensures LayersOk(layers, n) && Flushed(n, tab, layers) == tab[..2 * n]
  {
    forall i | 0 <= i < 2 * n {
      FlushNothing(layers, tab[i], n);
    }
  }

  // X_i in row i, Z_i in row n + i.
  function InitialStored(n: nat, i: nat): (s: Signed)
    requires i <= 2 * n
    ensures IsSigned(s, n) && !s.sign
    ensures i < 2 * n ==> s.row == InitialRow(n, i)
  {
    Signed(if i < n then XAt(n, i) else if i < 2 * n then ZAt(n, i - n) else Zero(n), false)
  }

  // The kernel's loop after j bits of row a.
  ghost predicate KernelUpTo(hs: set<nat>, ss: set<nat>, a: Row, j: nat, x: seq<bool>, z: seq<bool>, phaseSum: bool) {
    && |a.x| == |a.z| == |x| == |z| && j <= |x|
    && (forall i :: 0 <= i < j ==> x[i] == KernelBit(a.x[i], a.z[i], i in hs, i in ss).0)
    && (forall i :: 0 <= i < j ==> z[i] == KernelBit(a.x[i], a.z[i], i in hs, i in ss).1)
    && (forall i :: j <= i < |x| ==> x[i] == a.x[i])
    && (forall i :: j <= i < |x| ==> z[i] == a.z[i])
    && phaseSum == Parity(KernelPhases(hs, ss, a)[..j])
  }

  lemma KernelStep(hs: set<nat>, ss: set<nat>, a: Row, j: nat, x: seq<bool>, z: seq<bool>, phaseSum: bool)
    requires KernelUpTo(hs, ss, a, j, x, z, phaseSum) && j < |x|
    ensures var (x', z', phase) := KernelBit(x[j], z[j], j in hs, j in ss);
            KernelUpTo(hs, ss, a, j + 1, x[j := x'], z[j := z'], phaseSum != phase)
  {
    var phases := KernelPhases(hs, ss, a);
    assert phases[..j + 1][..j] == phases[..j];
  }

  lemma KernelDone(hs: set<nat>, ss: set<nat>, s: Signed, x: seq<bool>, z: seq<bool>, phaseSum: bool)
    requires KernelUpTo(hs, ss, s.row, |s.row.x|, x, z, phaseSum)
    ensures Kernel(hs, ss, s) == Signed(Row(x, z), s.sign != phaseSum)
  {
    var k, phases := Kernel(hs, ss, s), KernelPhases(hs, ss, s.row);
    assert phases[..|phases|] == phases;
    assert k.row.x == x && k.row.z == z;
  }

  // h_and_s_kernel_: the bits of one row, the phase changes summed on the way.
  method KernelLoop(n: nat, hs: set<nat>, ss: set<nat>, a: Row) returns (x: seq<bool>, z: seq<bool>, phaseSum: bool)
    requires IsRow(a, n)
    ensures KernelUpTo(hs, ss, a, n, x, z, phaseSum)
  {
    x, z, phaseSum := a.x, a.z, false;
    assert KernelPhases(hs, ss, a)[..0] == [];
    for j := 0 to n
      invariant KernelUpTo(hs, ss, a, j, x, z, phaseSum)
    {
      KernelStep(hs, ss, a, j, x, z, phaseSum);
      var bit := KernelBit(x[j], z[j], j in hs, j in ss);
      x, z, phaseSum := x[j := bit.0], z[j := bit.1], phaseSum != bit.2;
    }
  }

  class StabilizerSimulator {
    const m: Hardware
    const n: nat
    // max_storage_depth, 10 in the source.
    const depth: nat
    var tab: seq<Signed>
    var layers: seq<Layer>
    var pos: seq<nat>
    var numGates: nat

    ghost predicate Stored()
      reads this
    {
      && depth > 0 && IsStored(n, tab) && CacheFits(n, depth, layers, pos)
      && (numGates == 0 ==> Synced())
    }

    ghost predicate Synced()
      reads this
    {
      && (forall d :: 0 <= d < |layers| ==> layers[d] == EMPTY)
      && forall q :: 0 <= q < |pos| ==> pos[q] == 0
    }

    ghost predicate Valid()
      reads this
    {
      Stored() && CacheOk(n, depth, layers, pos) && Good(n, Current())
    }

    // The tableau as if every gate had been applied at once.
    ghost function Current(): (t: seq<Signed>)
      requires Stored()
      reads this
    {
      Flushed(n, tab, layers)
    }

    constructor (m: Hardware, n: nat, depth: nat)
      requires depth > 0
      ensures this.m == m && this.n == n && this.depth == depth
      ensures Valid() && Synced() && numGates == 0 && Rows(n, Current()) == InitialRows(n)
      ensures forall i :: 0 <= i < 2 * n ==> !Current()[i].sign
    {
      this.m, this.n, this.depth := m, n, depth;
      tab := seq(2 * n + 1, i requires 0 <= i <= 2 * n => InitialStored(n, i));
      layers := seq(depth, d => EMPTY);
      pos := seq(n, q => 0);
      numGates := 0;
      new;
      EmptyCache(n, tab, layers);
      InitialBasis(n);
      assert Rows(n, Current()) == InitialRows(n);
    }

    // ----- the cache ------------------------------------------------------

    // sync
    method Sync()
      requires Stored()
      modifies this
      ensures Stored() && Synced() && numGates == 0 && CacheOk(n, depth, layers, pos)
      ensures Current() == old(Current()) == tab[..2 * n] && tab[2 * n] == old(tab[2 * n])
    {
      if numGates == 0 {
        EmptyCache(n, tab, layers);
        return;
      }
      ghost var before := tab;
      for stab := 0 to 2 * n
        invariant Stored() && layers == old(layers) && pos == old(pos) && numGates == old(numGates)
        invariant forall i :: 0 <= i < 2 * n ==> tab[i] == if i < stab then Flush(layers, before[i], n) else before[i]
        invariant tab[2 * n] == before[2 * n]
      {
        FlushStabilizer(stab);
      }
      assert tab[..2 * n] == old(Current());
      layers := seq(depth, d => EMPTY);
      pos := seq(n, q => 0);
      numGates := 0;
      EmptyCache(n, tab, layers);
    }

    // One row through all layers.
    method FlushStabilizer(stab: nat)
      requires IsStored(n, tab) && stab < 2 * n && LayersOk(layers, n)
      modifies this`tab
      ensures IsStored(n, tab) && tab == old(tab)[stab := Flush(layers, old(tab[stab]), n)]
    {
      ghost var s := tab[stab];
      for d := 0 to |layers|
        invariant IsStored(n, tab)
        invariant tab == old(tab)[stab := Flush(layers[..d], s, n)]
      {
        FlushDepth(layers[d], stab);
        LastLayer(layers[..d + 1], layers[..d], s, n);
      }
      assert layers[..|layers|] == layers;
    }

    method FlushDepth(l: Layer, stab: nat)
      requires IsStored(n, tab) && stab < 2 * n && l.Ok(n)
      modifies this`tab
      ensures IsStored(n, tab) && tab == old(tab)[stab := FlushLayer(l, old(tab[stab]), n)]
    {
      HAndSKernel(l.h, l.s, stab);
      ghost var s := tab[stab];
      for i := 0 to |l.c|
        invariant IsStored(n, tab)
        invariant tab == old(tab)[stab := Cnots(l.c[..i], s, n)]
      {
        CnotKernel(l.c[i].0, l.c[i].1, stab);
        assert l.c[..i + 1][..i] == l.c[..i];
      }
      assert l.c[..|l.c|] == l.c;
    }

    // h_and_s_kernel_ on row stab.
    method HAndSKernel(hs: set<nat>, ss: set<nat>, stab: nat)
      requires IsStored(n, tab) && stab < 2 * n
      modifies this`tab
      ensures IsStored(n, tab) && tab == old(tab)[stab := Kernel(hs, ss, old(tab[stab]))]
    {
      var x, z, phaseSum := KernelLoop(n, hs, ss, tab[stab].row);
      KernelDone(hs, ss, tab[stab], x, z, phaseSum);
      tab := tab[stab := Signed(Row(x, z), tab[stab].sign != phaseSum)];
    }

    // cnot_kernel_: the bits are read and written one after the other.
    method CnotKernel(control: nat, target: nat, stab: nat)
      requires IsStored(n, tab) && stab < 2 * n && CX(control, target).Ok(n)
      modifies this`tab
      ensures IsStored(n, tab) && tab == old(tab)[stab := Conjugate(CX(control, target), old(tab[stab]))]
    {
      var x, z, sign := tab[stab].row.x, tab[stab].row.z, tab[stab].sign;
      var z1, z2 := z[control], z[target];
      z := z[control := z1 != z2];
      var x1, x2 := x[control], x[target];
      sign := sign != (x1 && z2 && x2 == z1);
      x := x[target := x2 != x1];
      tab := tab[stab := Signed(Row(x, z), sign)];
    }

    // H_, S_ and CNOT_: the gate goes into the layer of its qubits' position.
    method ApplyGate(g: Gate)
      requires Valid() && g.Ok(n)
      modifies this
      ensures Valid() && Current() == Conjugated(n, g, old(Current()))
      // no row is touched until a layer at the last depth is used
      ensures var d := DepthOf(g, old(pos));
              if d + 1 < depth then
                && tab == old(tab) && numGates == old(numGates) + 1
                && layers == old(layers)[d := Record(old(layers)[d], g)] && pos == NewPositions(g, old(pos))
              else Synced() && numGates == 0
    {
      ghost var t := Current();
      RecordGate(n, depth, layers, pos, g);
      var d: nat;
      match g {
        case H(q) =>
          d := pos[q];
          layers := layers[d := layers[d].(h := layers[d].h + {q})];
          pos := pos[q := d + 1];
        case S(q) =>
          d := pos[q];
          layers := layers[d := layers[d].(s := layers[d].s + {q})];
          pos := pos[q := d + 1];
        case CX(c, u) =>
          d := Max(pos[c], pos[u]);
          layers := layers[d := layers[d].(c := layers[d].c + [(c, u)])];
          pos := pos[c := d + 1][u := d + 1];
      }
      assert layers == old(layers)[d := Record(old(layers)[d], g)] && pos == NewPositions(g, old(pos));
      numGates := numGates + 1;
      RecordedGate(n, tab, old(layers), layers, g);
      GateKeepsGood(n, g, t);
      if d + 1 >= depth {
        Sync();
      }
    }

    // X_
    method X(q: nat)
      requires Valid() && q < n
      modifies this
      ensures Valid() && Current() == Flipped(n, q, old(Current()))
    {
      FlipIsHSSH(n, q, Current());
      ApplyGate(H(q));
      ApplyGate(S(q));
      ApplyGate(S(q));
      ApplyGate(H(q));
    }

    // ----- row products and measurements ------------------------------------

    // The tableau in row order, without the scratch row.
    ghost function Table(): (t: seq<Signed>)
      requires IsStored(n, tab)
      reads this
      ensures IsTableau(n, t)
    {
      tab[..2 * n]
    }

    ghost predicate Settled()
      reads this
    {
      Stored() && Synced() && Good(n, Table())
    }

    lemma SettledIsValid()
      requires Settled()
      ensures Valid() && Current() == Table()
    {
      EmptyCache(n, tab, layers);
    }

    // rowsum_
    method RowSumInPlace(h: nat, i: nat)
      requires IsStored(n, tab) && h <= 2 * n && i <= 2 * n
      modifies this`tab
      ensures IsStored(n, tab) && tab == old(tab)[h := RowSum(m, n, old(tab[h]), old(tab[i]))]
    {
      var phase := ComputePhase(m, n, tab[h].row, tab[h].sign, tab[i].row, tab[i].sign);
      tab := tab[h := tab[h].(sign := phase / 2 == 1)];
      tab := tab[h := tab[h].(row := Add(tab[h].row, tab[i].row))];
    }

    // determine_outcome_type_
    method DetermineOutcomeType(q: nat) returns (random: bool, p: nat)
      requires IsStored(n, tab) && q < n
      ensures random <==> !Determined(n, Table(), q)
      ensures p == if random then FirstX(n, Table(), q, n) else 0
    {
      p := n;
      while p < 2 * n && !tab[p].row.x[q]
        invariant n <= p <= 2 * n && FirstX(n, Table(), q, p) == FirstX(n, Table(), q, n)
      {
        p := p + 1;
      }
      random := p != 2 * n;
      p := if random then p else 0;
    }

    // pre_measurement_random_
    method PreMeasurementRandom(q: nat, p: nat)
      requires IsStored(n, tab) && q < n <= p < 2 * n
      modifies this`tab
      ensures IsStored(n, tab) && tab[2 * n] == old(tab[2 * n])
      ensures Table() == Collapsed(m, n, old(Table()), q, p, old(tab[p].sign))
    {
      ghost var t := tab;
      for j := 0 to 2 * n
        invariant IsStored(n, tab) && tab[2 * n] == t[2 * n]
        invariant forall i :: 0 <= i < 2 * n ==>
                    tab[i] == if i < j && i != p && t[i].row.x[q] then RowSum(m, n, t[i], t[p]) else t[i]
      {
        if j != p && tab[j].row.x[q] {
          RowSumInPlace(j, p);
        }
      }
      var d := p - n;
      tab := tab[d := tab[d].(row := tab[p].row)];
      tab := tab[p := tab[p].(row := Zero(n))];
      tab := tab[p := tab[p].(row := Row(tab[p].row.x, tab[p].row.z[q := true]))];
      tab := tab[d := tab[d].(sign := tab[p].sign)];
      assert tab[p].row.z == ZAt(n, q).z;
      forall i | 0 <= i < 2 * n ensures tab[i] == CollapsedRow(m, n, t[..2 * n], q, p, t[p].sign, i) {
      }
    }

    // pre_measurement_deterministic_
    method PreMeasurementDeterministic(q: nat)
      requires IsStored(n, tab) && q < n
      modifies this`tab
      ensures IsStored(n, tab) && tab == old(tab)[2 * n := Product(m, n, old(Table()), q, n)]
    {
      ghost var t := Table();
      tab := tab[2 * n := tab[2 * n].(row := Zero(n))];
      tab := tab[2 * n := tab[2 * n].(sign := false)];
      for l := 0 to n
        invariant IsStored(n, tab) && tab == old(tab)[2 * n := Product(m, n, t, q, l)]
      {
        if tab[l].row.x[q] {
          RowSumInPlace(2 * n, l + n);
        }
      }
    }

    // Row p, now Z at q, gets its sign.
    method SetSign(p: nat, b: bool)
      requires IsStored(n, tab) && p <= 2 * n
      modifies this`tab
      ensures IsStored(n, tab) && tab == old(tab)[p := Signed(old(tab[p]).row, b)]
    {
      tab := tab[p := tab[p].(sign := b)];
    }

    // The random case of measure_, collapse_wavefunction_ and set_qubits_.
    method CollapseTo(q: nat, p: nat, b: bool)
      requires IsStored(n, tab) && q < n <= p < 2 * n
      modifies this`tab
      ensures IsStored(n, tab) && tab[2 * n] == old(tab[2 * n])
      ensures Table() == Collapsed(m, n, old(Table()), q, p, b)
    {
      PreMeasurementRandom(q, p);
      ghost var c := Table();
      SetSign(p, b);
      forall i | 0 <= i < 2 * n ensures tab[i] == CollapsedRow(m, n, old(Table()), q, p, b, i) {
        assert c[i] == CollapsedRow(m, n, old(Table()), q, p, old(tab[p].sign), i);
      }
    }

    // measure_
    method MeasureOne(q: nat, coin: bool) returns (outcome: bool)
      requires Settled() && q < n
      modifies this`tab
      ensures Settled() && (Table(), outcome) == Measured(m, n, old(Table()), q, coin)
    {
      MeasureKeepsGood(m, n, Table(), q, coin);
      var random, p := DetermineOutcomeType(q);
      if random {
        CollapseTo(q, p, coin);
        return coin;
      }
      ghost var t := Table();
      PreMeasurementDeterministic(q);
      assert Table() == t;
      return tab[2 * n].sign;
    }

    // measure_qubits_return; coins[i] is what the random engine draws for qs[i].
    method MeasureQubits(qs: seq<nat>, coins: seq<bool>) returns (outcomes: seq<bool>)
      requires Valid() && |qs| == |coins| && forall i :: 0 <= i < |qs| ==> qs[i] < n
      modifies this
      ensures Valid() && (Current(), outcomes) == MeasuredAll(m, n, old(Current()), qs, coins)
    {
      Sync();
      outcomes := MeasureInOrder(qs, coins);
      SettledIsValid();
    }

    method MeasureInOrder(qs: seq<nat>, coins: seq<bool>) returns (outcomes: seq<bool>)
      requires Settled() && |qs| == |coins| && forall i :: 0 <= i < |qs| ==> qs[i] < n
      modifies this`tab
      ensures Settled() && (Table(), outcomes) == MeasuredAll(m, n, old(Table()), qs, coins)
    {
      ghost var t := Table();
      ContinuesStart(m, n, t, qs, coins);
      outcomes := [];
      for i := 0 to |qs|
        invariant Settled() && Continues(m, n, t, qs, coins, Table(), outcomes, i)
      {
        ghost var t' := Table();
        var b := MeasureOne(qs[i], coins[i]);
        ContinuesStep(m, n, t, qs, coins, t', outcomes, i, Table(), b);
        outcomes := outcomes + [b];
      }
      ContinuesDone(m, n, t, qs, coins, Table(), outcomes);
    }

    // ----- forcing outcomes -----------------------------------------------

    // collapse_wavefunction_; !ok is the exception.
    method CollapseOne(q: nat, b: bool) returns (ok: bool)
      requires Settled() && q < n
      modifies this`tab
      ensures ok <==> Forced(m, n, old(Table()), q, b).Some?
      ensures ok ==> Settled() && Table() == Forced(m, n, old(Table()), q, b).value
      ensures !ok ==> IsStored(n, tab) && Table() == old(Table())
    {
      var random, p := DetermineOutcomeType(q);
      if random {
        ForceKeepsGood(m, n, Table(), q, b);
        CollapseTo(q, p, b);
        return true;
      }
      ghost var t := Table();
      PreMeasurementDeterministic(q);
      assert Table() == t;
      return tab[2 * n].sign == b;
    }

    // collapse_wavefunction; on failure the rows saved after the flush are restored.
    method CollapseWavefunction(qs: seq<nat>, bits: seq<bool>) returns (ok: bool)
      requires Valid() && |qs| == |bits| && forall i :: 0 <= i < |qs| ==> qs[i] < n
      modifies this
      ensures Valid() && (ok <==> ForcedAll(m, n, old(Current()), qs, bits).Some?)
      ensures Current() == if ok then ForcedAll(m, n, old(Current()), qs, bits).value else old(Current())
      ensures !ok ==> tab[2 * n] == old(tab[2 * n])
    {
      Sync();
      SettledIsValid();
      var saved := tab;
      ghost var t := Table();
      for i := 0 to |qs|
        invariant Settled()
        invariant ForcedAll(m, n, t, qs, bits) == ForcedAll(m, n, Table(), qs[i..], bits[i..])
      {
        assert qs[i..][1..] == qs[i + 1..] && bits[i..][1..] == bits[i + 1..];
        ok := CollapseOne(qs[i], bits[i]);
        if !ok {
          tab := saved;
          SettledIsValid();
          return;
        }
      }
      SettledIsValid();
      return true;
    }

    // ----- probabilities --------------------------------------------------

    // get_probability_recursive_: collapses on the way down, restores on the way up.
    method ProbabilityRecursive(qs: seq<nat>, bits: seq<bool>) returns (prob: real)
      requires IsStored(n, tab) && |qs| == |bits| > 0 && forall i :: 0 <= i < |qs| ==> qs[i] < n
      modifies this`tab
      ensures tab == old(tab) && prob == Probability(m, n, old(Table()), qs, bits)
      decreases |qs|
    {
      ghost var t := Table();
      var q, b := qs[0], bits[0];
      var random, p := DetermineOutcomeType(q);
      if random {
        if |qs| == 1 {
          LastQubit(m, n, t, qs, bits);
          return 0.5;
        }
        var saved := tab;
        CollapseTo(q, p, b);
        prob := ProbabilityRecursive(qs[1..], bits[1..]);
        prob := 0.5 * prob;
        tab := saved;
      } else {
        var saved := tab[2 * n];
        PreMeasurementDeterministic(q);
        assert Table() == t;
        prob := if tab[2 * n].sign == b then 1.0 else 0.0;
        if |qs| == 1 {
          LastQubit(m, n, t, qs, bits);
        } else if prob != 0.0 {
          prob := ProbabilityRecursive(qs[1..], bits[1..]);
        }
        tab := tab[2 * n := saved];
      }
    }

    // get_probability
    method GetProbability(qs: seq<nat>, bits: seq<bool>) returns (prob: real)
      requires Valid() && |qs| == |bits| && forall i :: 0 <= i < |qs| ==> qs[i] < n
      modifies this
      ensures Valid() && Synced() && Current() == old(Current()) && tab[2 * n] == old(tab[2 * n])
      ensures prob == Probability(m, n, old(Current()), qs, bits)
    {
      Sync();
      if bits == [] {
        return 1.0;
      }
      prob := ProbabilityRecursive(qs, bits);
    }

    // ----- setting and releasing qubits -----------------------------------

    // set_qubits_: whether the qubit is left with the opposite outcome.
    method SetOne(q: nat, b: bool) returns (invert: bool)
      requires Settled() && q < n
      modifies this`tab
      ensures Settled() && (Table(), invert) == SetStep(m, n, old(Table()), q, b)
      ensures invert ==> tab[2 * n] == old(tab[2 * n])
    {
      var random, p := DetermineOutcomeType(q);
      if random {
        CollapseKeepsGood(m, n, Table(), q, p, b);
        CollapseTo(q, p, b);
      } else {
        ghost var t := Table();
        var saved := tab[2 * n];
        PreMeasurementDeterministic(q);
        assert Table() == t;
        if tab[2 * n].sign != b {
          tab := tab[2 * n := saved];
          assert Table() == t;
          return true;
        }
      }
      return false;
    }

    // set_qubits
    method SetQubits(qs: seq<nat>, bits: seq<bool>)
      requires Valid() && |qs| == |bits| && forall i :: 0 <= i < |qs| ==> qs[i] < n
      modifies this
      ensures Valid()
      ensures var r := SetSteps(m, n, old(Current()), qs, bits, |qs|); Current() == FlippedAll(n, r.1, r.0)
    {
      Sync();
      var inverts := SetInOrder(qs, bits);
      SettledIsValid();
      InvertAll(inverts);
    }

    method SetInOrder(qs: seq<nat>, bits: seq<bool>) returns (inverts: seq<nat>)
      requires Settled() && |qs| == |bits| && forall i :: 0 <= i < |qs| ==> qs[i] < n
      modifies this`tab
      ensures Settled() && (Table(), inverts) == SetSteps(m, n, old(Table()), qs, bits, |qs|)
    {
      ghost var t := Table();
      inverts := [];
      for i := 0 to |qs|
        invariant Settled() && SetUpTo(m, n, t, qs, bits, i, Table(), inverts)
      {
        ghost var t' := Table();
        var invert := SetOne(qs[i], bits[i]);
        SetOneMore(m, n, t, qs, bits, i, t', inverts, Table(), invert);
        inverts := inverts + if invert then [qs[i]] else [];
      }
    }

    method InvertAll(inverts: seq<nat>)
      requires Valid() && forall k :: 0 <= k < |inverts| ==> inverts[k] < n
      modifies this
      ensures Valid() && Current() == FlippedAll(n, inverts, old(Current()))
    {
      ghost var t := Current();
      for k := 0 to |inverts|
        invariant Valid() && Current() == FlippedAll(n, inverts[..k], t)
      {
        FlipOneMore(n, inverts, k, t);
        X(inverts[k]);
      }
      assert inverts[..|inverts|] == inverts;
    }
  }

  lemma LastQubit(m: Hardware, n: nat, t: seq<Signed>, qs: seq<nat>, bits: seq<bool>)
    requires Query(n, t, qs, bits) && |qs| == 1
    ensures Probability(m, n, t, qs, bits)
            == if !Determined(n, t, qs[0]) then 0.5 else if Outcome(m, n, t, qs[0]) == bits[0] then 1.0 else 0.0
  {
  }

  // After i measurements of qs from t: what is left to do.
  ghost predicate Continues(m: Hardware, n: nat, t: seq<Signed>, qs: seq<nat>, coins: seq<bool>,
                            t': seq<Signed>, outcomes: seq<bool>, i: nat) {
    && Query(n, t, qs, coins) && i <= |qs| && Query(n, t', qs[i..], coins[i..])
    && var rest := MeasuredAll(m, n, t', qs[i..], coins[i..]);
       MeasuredAll(m, n, t, qs, coins) == (rest.0, outcomes + rest.1)
  }

  lemma ContinuesStart(m: Hardware, n: nat, t: seq<Signed>, qs: seq<nat>, coins: seq<bool>)
    requires Query(n, t, qs, coins)
    ensures Continues(m, n, t, qs, coins, t, [], 0)
  {
    assert qs[0..] == qs && coins[0..] == coins;
    assert [] + MeasuredAll(m, n, t, qs, coins).1 == MeasuredAll(m, n, t, qs, coins).1;
  }

  lemma ContinuesStep(m: Hardware, n: nat, t: seq<Signed>, qs: seq<nat>, coins: seq<bool>,
                      t': seq<Signed>, outcomes: seq<bool>, i: nat, t'': seq<Signed>, b: bool)
    requires Continues(m, n, t, qs, coins, t', outcomes, i) && i < |qs|
    requires Measured(m, n, t', qs[i], coins[i]) == (t'', b)
    ensures Continues(m, n, t, qs, coins, t'', outcomes + [b], i + 1)
  {
    assert qs[i..][1..] == qs[i + 1..] && coins[i..][1..] == coins[i + 1..];
    var rest := MeasuredAll(m, n, t'', qs[i + 1..], coins[i + 1..]);
    assert outcomes + ([b] + rest.1) == (outcomes + [b]) + rest.1;
  }

  lemma ContinuesDone(m: Hardware, n: nat, t: seq<Signed>, qs: seq<nat>, coins: seq<bool>,
                      t': seq<Signed>, outcomes: seq<bool>)
    requires Continues(m, n, t, qs, coins, t', outcomes, |qs|)
    ensures MeasuredAll(m, n, t, qs, coins) == (t', outcomes)
  {
    assert qs[|qs|..] == [];
    assert outcomes + [] == outcomes;
  }
}
