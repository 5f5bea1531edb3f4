// What the actions of a circuit do to the amplitudes, and that gates on
// different qubits commute: the order the scheduler chooses gives the same state.

module CircuitMeaning {
  import opened Sequences
  import opened Bits
  import opened Complexes
  import opened Operators
  import opened Circuits

  // A state as a table, so that states with equal amplitudes are equal.
  type State = imap<set<nat>, Complex>

  ghost function Table(psi: Wave): State {
    imap a: set<nat> {:trigger psi(a)} :: psi(a)
  }

  ghost function Amplitudes(st: State): Wave {
    (a: set<nat>) => if a in st then st[a] else ZERO
  }

  const MINUS_ONE := Complex(-1.0, 0.0)
  const Z_MATRIX: Matrix := [[ONE, ZERO], [ZERO, MINUS_ONE]]

  // Changes the sign of the amplitudes in which all these qubits are 1.
  ghost function SignFlip(on: set<nat>, psi: Wave): Wave {
    (a: set<nat>) => if on <= a then Mul(MINUS_ONE, psi(a)) else psi(a)
  }

  // `matrices` gives the matrix that a command's name stands for, `observe`
  // what a measurement, an allocation or a flush does; it may be anything.
  ghost function Perform(matrices: nat -> Matrix, observe: (Cmd, State) -> State, action: Action, st: State): State {
    match action
    case SymmetricZ(_, on) => Table(SignFlip(on, Amplitudes(st)))
    case Apply(c) => Table(Gate(matrices(c.name), c.targets, Elements(c.controls), Amplitudes(st)))
    case Barrier(c) => observe(c, st)
  }

  ghost function Semantics(matrices: nat -> Matrix, observe: (Cmd, State) -> State): (Action, State) -> State {
    (action: Action, st: State) => Perform(matrices, observe, action, st)
  }

  // ----- the controlled Z -------------------------------------------------

  // Whichever qubit is called the target, a controlled Z changes the sign where
  // all its qubits are 1.
  lemma ControlledZIsSymmetric(t: nat, ctrls: set<nat>, psi: Wave, a: set<nat>)
    ensures Operators.Gate(Z_MATRIX, [t], ctrls, psi)(a) == SignFlip(ctrls + {t}, psi)(a)
  {
    ZAlone(t, psi, a);
    assert ctrls + {t} <= a <==> ctrls <= a && t in a;
  }

  lemma ZAlone(t: nat, psi: Wave, a: set<nat>)
    ensures Operators.Apply(Z_MATRIX, [t], psi)(a) == if t in a then Mul(MINUS_ONE, psi(a)) else psi(a)
  {
    var f, x := Terms(Z_MATRIX, [t], psi, a), if t in a then 1 else 0;
    OneBit(a, t);
    ZTerms(f, x, psi, a, t);
    SumOfOne(f, 2, x);
    MulUnits(psi(a));
  }

  lemma OneBit(a: set<nat>, t: nat)
    ensures Pow2(|[t]|) == 2 && Local(a, [t]) == if t in a then 1 else 0
  {
    var x := Local(a, [t]);
    LocalBits(a, [t], 0);
    assert Pow2(1) == 2 * Pow2(0);
    assert Bit(x, 0) == (x % 2 == 1);
  }

  lemma ZTerms(f: nat -> Complex, x: nat, psi: Wave, a: set<nat>, t: nat)
    requires f == Terms(Z_MATRIX, [t], psi, a) && x == Local(a, [t]) < 2
    ensures f(x) == Mul(if x == 1 then MINUS_ONE else ONE, psi(a))
    ensures forall j: nat :: j < 2 && j != x ==> f(j) == ZERO
  {
    WithLocal(a, [t]);
    forall j: nat | j < 2 && j != x ensures f(j) == ZERO {
      MulUnits(psi(With(a, [t], j)));
    }
  }

  // A controlled Z command is the controlled gate with Z's matrix, and every
  // other gate the one with its own.
  lemma ActionIsGate(matrices: nat -> Matrix, observe: (Cmd, State) -> State, c: Cmd, st: State)
    requires c.kind.ZGate? ==> |c.targets| == 1 && matrices(c.name) == Z_MATRIX
    requires !c.kind.Immediate?
    ensures Perform(matrices, observe, c.Action(), st)
            == Table(Operators.Gate(matrices(c.name), c.targets, Elements(c.controls), Amplitudes(st)))
  {
    if c.kind.ZGate? {
      var psi := Amplitudes(st);
      assert c.targets == [c.targets[0]];
      assert c.Qubits() == Elements(c.controls) + {c.targets[0]};
      forall a ensures SignFlip(c.Qubits(), psi)(a)
                       == Operators.Gate(Z_MATRIX, c.targets, Elements(c.controls), psi)(a) {
        ControlledZIsSymmetric(c.targets[0], Elements(c.controls), psi, a);
      }
    }
  }

  // ----- gates on different qubits ----------------------------------------

  lemma WithCommutes(a: set<nat>, idx: seq<nat>, j: nat, idx': seq<nat>, k: nat)
    requires Elements(idx) !! Elements(idx')
    ensures With(With(a, idx, j), idx', k) == With(With(a, idx', k), idx, j)
  {
    assert Spelled(idx, j) <= Elements(idx) && Spelled(idx', k) <= Elements(idx');
    forall q ensures q in With(With(a, idx, j), idx', k) <==> q in With(With(a, idx', k), idx, j) {
      assert q in idx <==> q in Elements(idx);
      assert q in idx' <==> q in Elements(idx');
    }
  }

  lemma LocalElsewhere(a: set<nat>, idx: seq<nat>, j: nat, idx': seq<nat>)
    requires Elements(idx) !! Elements(idx')
    ensures Local(With(a, idx, j), idx') == Local(a, idx')
  {
    var b := With(a, idx, j);
    forall l: nat ensures Bit(Local(b, idx'), l) == Bit(Local(a, idx'), l) {
      LocalBits(a, idx', l);
      LocalBits(b, idx', l);
      if l < |idx'| {
        assert idx'[l] in Elements(idx');
      }
    }
    SameBits(Local(b, idx'), Local(a, idx'));
  }

  // The entries and the amplitude that meet in the product of two gates.
  ghost function Both(m: Matrix, idx: seq<nat>, m': Matrix, idx': seq<nat>, psi: Wave, a: set<nat>): (nat, nat) -> Complex {
    (j: nat, k: nat) =>
      Mul(Entry(m, Local(a, idx), j), Mul(Entry(m', Local(a, idx'), k), psi(With(With(a, idx, j), idx', k))))
  }

  // One matrix after the other is a sum over both indices.
  lemma ApplyBoth(m: Matrix, idx: seq<nat>, m': Matrix, idx': seq<nat>, psi: Wave, a: set<nat>)
    requires Elements(idx) !! Elements(idx')
    ensures Operators.Apply(m, idx, Operators.Apply(m', idx', psi))(a)
            == Sum(RowSums(Both(m, idx, m', idx', psi, a), Pow2(|idx'|)), Pow2(|idx|))
  {
    var both, n, n' := Both(m, idx, m', idx', psi, a), Pow2(|idx|), Pow2(|idx'|);
    var f := Terms(m, idx, Operators.Apply(m', idx', psi), a);
    forall j: nat | j < n ensures f(j) == RowSums(both, n')(j) {
      var b := With(a, idx, j);
      LocalElsewhere(a, idx, j, idx');
      SumScaled(Entry(m, Local(a, idx), j), Terms(m', idx', psi, b), Row(both, j), n');
    }
    SumSame(f, RowSums(both, n'), n);
  }

  lemma AppliesCommute(m: Matrix, idx: seq<nat>, m': Matrix, idx': seq<nat>, psi: Wave, a: set<nat>)
    requires Elements(idx) !! Elements(idx')
    ensures Operators.Apply(m, idx, Operators.Apply(m', idx', psi))(a)
            == Operators.Apply(m', idx', Operators.Apply(m, idx, psi))(a)
  {
    var f, g, n, n' := Both(m, idx, m', idx', psi, a), Both(m', idx', m, idx, psi, a), Pow2(|idx|), Pow2(|idx'|);
    ApplyBoth(m, idx, m', idx', psi, a);
    ApplyBoth(m', idx', m, idx, psi, a);
    SumsExchange(f, n, n');
    forall k: nat | k < n' ensures ColumnSums(f, n)(k) == RowSums(g, n)(k) {
      forall j: nat | j < n ensures Column(f, k)(j) == Row(g, k)(j) {
        WithCommutes(a, idx, j, idx', k);
        MulSwaps(Entry(m, Local(a, idx), j), Entry(m', Local(a, idx'), k), psi(With(With(a, idx, j), idx', k)));
      }
      SumSame(Column(f, k), Row(g, k), n);
    }
    SumSame(ColumnSums(f, n), RowSums(g, n), n');
  }

  lemma MulSwaps(x: Complex, y: Complex, z: Complex)
    ensures Mul(x, Mul(y, z)) == Mul(y, Mul(x, z))
  {
    MulAssociates(x, y, z);
    MulCommutes(x, y);
    MulAssociates(y, x, z);
  }

  // Under its controls a gate on other qubits is the bare matrix throughout.
  lemma InsideIsBare(m: Matrix, idx: seq<nat>, m': Matrix, idx': seq<nat>, ctrls': set<nat>, psi: Wave, a: set<nat>)
    requires Elements(idx) !! ctrls'
    ensures Operators.Apply(m, idx, Operators.Gate(m', idx', ctrls', psi))(a)
            == if ctrls' <= a then Operators.Apply(m, idx, Operators.Apply(m', idx', psi))(a)
               else Operators.Apply(m, idx, psi)(a)
  {
    var gate := Operators.Gate(m', idx', ctrls', psi);
    forall j: nat | j < Pow2(|idx|)
      ensures gate(With(a, idx, j))
              == if ctrls' <= a then Operators.Apply(m', idx', psi)(With(a, idx, j)) else psi(With(a, idx, j))
    {
      ControlsElsewhere(a, idx, j, ctrls');
    }
    if ctrls' <= a {
      ApplySame(m, idx, gate, Operators.Apply(m', idx', psi), a);
    } else {
      ApplySame(m, idx, gate, psi, a);
    }
  }

  lemma ControlsElsewhere(a: set<nat>, idx: seq<nat>, j: nat, ctrls: set<nat>)
    requires Elements(idx) !! ctrls
    ensures ctrls <= With(a, idx, j) <==> ctrls <= a
  {
    forall q | q in ctrls ensures q in With(a, idx, j) <==> q in a {
      assert q !in Elements(idx);
    }
  }

  // Controlled gates without a common qubit commute.
  lemma GatesCommute(m: Matrix, idx: seq<nat>, ctrls: set<nat>, m': Matrix, idx': seq<nat>, ctrls': set<nat>,
                     psi: Wave, a: set<nat>)
    requires Elements(idx) + ctrls !! Elements(idx') + ctrls'
    ensures Operators.Gate(m, idx, ctrls, Operators.Gate(m', idx', ctrls', psi))(a)
            == Operators.Gate(m', idx', ctrls', Operators.Gate(m, idx, ctrls, psi))(a)
  {
    InsideIsBare(m, idx, m', idx', ctrls', psi, a);
    InsideIsBare(m', idx', m, idx, ctrls, psi, a);
    AppliesCommute(m, idx, m', idx', psi, a);
  }

  // ----- the scheduler's order --------------------------------------------

  // The matrix, the targets and the controls of an action that is a gate.
  datatype GateOf = GateOf(m: Matrix, idx: seq<nat>, ctrls: set<nat>)

  ghost function AsGate(matrices: nat -> Matrix, action: Action): GateOf
    requires !action.Barrier? && action.Qubits() != iset{}
  {
    match action
    case SymmetricZ(_, on) => var q :| action.Touches(q); GateOf(Z_MATRIX, [q], on)
    case Apply(c) => GateOf(matrices(c.name), c.targets, Elements(c.controls))
  }

  lemma PerformIsGate(matrices: nat -> Matrix, observe: (Cmd, State) -> State, action: Action, st: State)
    requires !action.Barrier? && action.Qubits() != iset{}
    ensures var g := AsGate(matrices, action);
            && (forall q :: q in Elements(g.idx) + g.ctrls <==> q in action.Qubits())
            && Perform(matrices, observe, action, st) == Table(Operators.Gate(g.m, g.idx, g.ctrls, Amplitudes(st)))
  {
    var g, psi := AsGate(matrices, action), Amplitudes(st);
    if action.SymmetricZ? {
      assert action.on + {g.idx[0]} == action.on;
      forall a ensures SignFlip(action.on, psi)(a) == Operators.Gate(g.m, g.idx, g.ctrls, psi)(a) {
        ControlledZIsSymmetric(g.idx[0], action.on, psi, a);
      }
    }
  }

  lemma ActionsCommute(matrices: nat -> Matrix, observe: (Cmd, State) -> State, x: Action, y: Action, st: State)
    requires x.Qubits() !! y.Qubits() && x.Qubits() != iset{} && y.Qubits() != iset{}
    ensures Perform(matrices, observe, x, Perform(matrices, observe, y, st))
            == Perform(matrices, observe, y, Perform(matrices, observe, x, st))
  {
    var p, q :| p in x.Qubits() && q in y.Qubits();
    assert x.Barrier? ==> q in x.Qubits();
    assert y.Barrier? ==> p in y.Qubits();
    var g, h, psi := AsGate(matrices, x), AsGate(matrices, y), Amplitudes(st);
    var xSt, ySt := Perform(matrices, observe, x, st), Perform(matrices, observe, y, st);
    PerformIsGate(matrices, observe, x, st);
    PerformIsGate(matrices, observe, y, st);
    PerformIsGate(matrices, observe, x, ySt);
    PerformIsGate(matrices, observe, y, xSt);
    forall a ensures Operators.Gate(g.m, g.idx, g.ctrls, Amplitudes(ySt))(a)
                     == Operators.Gate(h.m, h.idx, h.ctrls, Amplitudes(xSt))(a) {
      GateReadsTable(g, Operators.Gate(h.m, h.idx, h.ctrls, psi), a);
      GateReadsTable(h, Operators.Gate(g.m, g.idx, g.ctrls, psi), a);
      GatesCommute(g.m, g.idx, g.ctrls, h.m, h.idx, h.ctrls, psi, a);
    }
  }

  lemma GateReadsTable(g: GateOf, psi: Wave, a: set<nat>)
    ensures Operators.Gate(g.m, g.idx, g.ctrls, Amplitudes(Table(psi)))(a) == Operators.Gate(g.m, g.idx, g.ctrls, psi)(a)
  {
    ApplySame(g.m, g.idx, Amplitudes(Table(psi)), psi, a);
  }

  // The gates of a circuit, as operators on amplitudes, meet the condition
  // under which reordering keeps the meaning.
  lemma GateSemanticsCommutes(matrices: nat -> Matrix, observe: (Cmd, State) -> State)
    ensures DisjointActionsCommute(Semantics(matrices, observe))
  {
    var sem := Semantics(matrices, observe);
    forall x: Action, y: Action, st: State
      | x.Qubits() !! y.Qubits() && x.Qubits() != iset{} && y.Qubits() != iset{}
      ensures sem(x, sem(y, st)) == sem(y, sem(x, st))
    {
      ActionsCommute(matrices, observe, x, y, st);
    }
  }

  // Whatever a scheduler sends, if it is the received circuit reordered, the
  // amplitudes at the end are those of the received circuit.
  lemma ReorderedState(matrices: nat -> Matrix, observe: (Cmd, State) -> State,
                       sent: seq<Action>, received: seq<Action>, st: State)
    requires Reordered(sent, received)
    ensures Run(Semantics(matrices, observe), sent, st) == Run(Semantics(matrices, observe), received, st)
  {
    GateSemanticsCommutes(matrices, observe);
    ReorderedRuns(Semantics(matrices, observe), sent, received, st);
  }
}
