// Clifford gates on tableau rows, and the layered cache that delays them.

module GateCache {
  import opened Symplectic

  // A tableau row with its sign bit.
  datatype Signed = Signed(row: Row, sign: bool)

  ghost predicate IsSigned(s: Signed, n: nat) { IsRow(s.row, n) }

  datatype Gate = H(q: nat) | S(q: nat) | CX(control: nat, target: nat) {
    ghost function Qubits(): set<nat> {
      if CX? then {control, target} else {q}
    }

    ghost predicate Ok(n: nat) {
      if CX? then control < n && target < n && control != target else q < n
    }
  }

  function GateRow(g: Gate, a: Row): (r: Row)
    requires |a.x| == |a.z| && g.Ok(|a.x|)
    ensures |r.x| == |r.z| == |a.x|
  {
    match g
    case H(q) => Row(a.x[q := a.z[q]], a.z[q := a.x[q]])
    case S(q) => Row(a.x, a.z[q := a.x[q] != a.z[q]])
    case CX(c, t) => Row(a.x[t := a.x[t] != a.x[c]], a.z[c := a.z[c] != a.z[t]])
  }

  predicate FlipsSign(g: Gate, a: Row)
    requires |a.x| == |a.z| && g.Ok(|a.x|)
  {
    match g
    case H(q) => a.x[q] && a.z[q]
    case S(q) => a.x[q] && a.z[q]
    case CX(c, t) => a.x[c] && a.z[t] && a.x[t] == a.z[c]
  }

  // The row of g P g^-1 when s is the row of P.
  function Conjugate(g: Gate, s: Signed): (r: Signed)
    requires |s.row.x| == |s.row.z| && g.Ok(|s.row.x|)
    ensures |r.row.x| == |r.row.z| == |s.row.x|
  {
    Signed(GateRow(g, s.row), s.sign != FlipsSign(g, s.row))
  }

  ghost function ConjugateAll(gates: seq<Gate>, s: Signed, n: nat): (r: Signed)
    requires IsSigned(s, n) && forall i :: 0 <= i < |gates| ==> gates[i].Ok(n)
    ensures IsSigned(r, n)
  {
    if gates == [] then s else
    Conjugate(gates[|gates| - 1], ConjugateAll(gates[..|gates| - 1], s, n))
  }

  // ----- what gates do to products ----------------------------------------

  lemma GateKeepsProduct(g: Gate, a: Row, b: Row)
    requires |a.x| == |a.z| == |b.x| == |b.z| && g.Ok(|a.x|)
    ensures Sp(GateRow(g, a), GateRow(g, b)) == Sp(a, b)
  {
    match g
    case H(q) => assert Clashes(GateRow(g, a), GateRow(g, b)) == Clashes(a, b);
    case S(q) => assert Clashes(GateRow(g, a), GateRow(g, b)) == Clashes(a, b);
    case CX(c, t) => CXKeepsProduct(c, t, a, b);
  }

  lemma CXKeepsProduct(c: nat, t: nat, a: Row, b: Row)
    requires |a.x| == |a.z| == |b.x| == |b.z| && CX(c, t).Ok(|a.x|)
    ensures Sp(GateRow(CX(c, t), a), GateRow(CX(c, t), b)) == Sp(a, b)
  {
    var a', b' := GateRow(CX(c, t), a), GateRow(CX(c, t), b);
    var k := Clashes(a, b);
    CXClashes(c, t, a, b);
    ParityUpdate(k, c, Clash(a', b', c));
    ParityUpdate(k[c := Clash(a', b', c)], t, Clash(a', b', t));
  }

  // Only two qubits change, and the number of clashes there keeps its parity.
  lemma CXClashes(c: nat, t: nat, a: Row, b: Row)
    requires |a.x| == |a.z| == |b.x| == |b.z| && CX(c, t).Ok(|a.x|)
    ensures var a', b', k := GateRow(CX(c, t), a), GateRow(CX(c, t), b), Clashes(a, b);
            && (Clash(a', b', c) != Clash(a', b', t)) == (k[c] != k[t])
            && Clashes(a', b') == k[c := Clash(a', b', c)][t := Clash(a', b', t)]
  {
    var a', b', k := GateRow(CX(c, t), a), GateRow(CX(c, t), b), Clashes(a, b);
    forall j | 0 <= j < |a.x| && j != c && j != t ensures Clash(a', b', j) == k[j] {
    }
  }

  lemma GateTwice(g: Gate, a: Row)
    requires |a.x| == |a.z| && g.Ok(|a.x|)
    ensures GateRow(g, GateRow(g, a)) == a
  {
    var b := GateRow(g, GateRow(g, a));
    assert b.x == a.x && b.z == a.z;
  }

  ghost function GateRows(g: Gate, rows: seq<Row>, n: nat): (r: seq<Row>)
    requires AreRows(rows, n) && g.Ok(n)
    ensures |r| == |rows| && AreRows(r, n)
    ensures forall i :: 0 <= i < |rows| ==> r[i] == GateRow(g, rows[i])
  {
    seq(|rows|, i requires 0 <= i < |rows| => GateRow(g, rows[i]))
  }

  lemma GateKeepsBasis(g: Gate, rows: seq<Row>, n: nat)
    requires SymplecticBasis(n, rows) && g.Ok(n)
    ensures SymplecticBasis(n, GateRows(g, rows, n))
  {
    forall i, j | 0 <= i < 2 * n && 0 <= j < 2 * n {
      GateKeepsProduct(g, rows[i], rows[j]);
    }
    forall v: Row | IsRow(v, n) && Orthogonal(n, GateRows(g, rows, n), v) {
      GateKeepsComplete(g, rows, n, v);
    }
  }

  lemma GateKeepsComplete(g: Gate, rows: seq<Row>, n: nat, v: Row)
    requires SymplecticBasis(n, rows) && g.Ok(n)
    requires IsRow(v, n) && Orthogonal(n, GateRows(g, rows, n), v)
    ensures v == Zero(n)
  {
    var w := GateRow(g, v);
    GateTwice(g, v);
    forall i | 0 <= i < 2 * n ensures !Sp(w, rows[i]) {
      GateKeepsProduct(g, w, rows[i]);
      assert GateRows(g, rows, n)[i] == GateRow(g, rows[i]);
    }
    assert Orthogonal(n, rows, w);
    assert GateRow(g, Zero(n)) == Zero(n) by {
      assert GateRow(g, Zero(n)).x == Zero(n).x && GateRow(g, Zero(n)).z == Zero(n).z;
    }
  }

  // X is H S S H: it flips the sign of the rows with a z bit.
  lemma XIsHSSH(q: nat, s: Signed)
    requires |s.row.x| == |s.row.z| && q < |s.row.x|
    ensures Conjugate(H(q), Conjugate(S(q), Conjugate(S(q), Conjugate(H(q), s))))
            == Signed(s.row, s.sign != s.row.z[q])
  {
    var r := Conjugate(H(q), Conjugate(S(q), Conjugate(S(q), Conjugate(H(q), s))));
    assert r.row.x == s.row.x && r.row.z == s.row.z;
  }

  // ----- the kernels ------------------------------------------------------

  // h_and_s_kernel_iter_ for one bit: the new x and z, and the change of phase.
  function KernelBit(x: bool, z: bool, h: bool, s: bool): (bool, bool, bool) {
    var sx := x && s;
    var phase := sx && z;
    var z1 := z != sx;
    var phase1 := phase != (h && x && z1);
    var x1 := x != z1;
    var z2 := z1 != (x1 && h);
    (x1 != z2, z2, phase1)
  }

  ghost function KernelPhases(hs: set<nat>, ss: set<nat>, a: Row): seq<bool>
    requires |a.x| == |a.z|
  {
    seq(|a.x|, j requires 0 <= j < |a.x| => KernelBit(a.x[j], a.z[j], j in hs, j in ss).2)
  }

  // One layer of H and S gates, all qubits at once.
  ghost function Kernel(hs: set<nat>, ss: set<nat>, s: Signed): (r: Signed)
    requires |s.row.x| == |s.row.z|
    ensures |r.row.x| == |r.row.z| == |s.row.x|
  {
    var a := s.row;
    Signed(Row(seq(|a.x|, j requires 0 <= j < |a.x| => KernelBit(a.x[j], a.z[j], j in hs, j in ss).0),
               seq(|a.x|, j requires 0 <= j < |a.x| => KernelBit(a.x[j], a.z[j], j in hs, j in ss).1)),
           s.sign != Parity(KernelPhases(hs, ss, a)))
  }

  lemma EmptyKernel(s: Signed)
    requires |s.row.x| == |s.row.z|
    ensures Kernel({}, {}, s) == s
  {
    ParityOfNone(KernelPhases({}, {}, s.row));
    assert Kernel({}, {}, s).row.x == s.row.x && Kernel({}, {}, s).row.z == s.row.z;
  }

  // Adding a qubit to the H mask is applying H after the layer.
  lemma KernelWithH(hs: set<nat>, ss: set<nat>, q: nat, s: Signed)
    requires |s.row.x| == |s.row.z| && q < |s.row.x| && q !in hs && q !in ss
    ensures Kernel(hs + {q}, ss, s) == Conjugate(H(q), Kernel(hs, ss, s))
  {
    var a := s.row;
    assert KernelPhases(hs + {q}, ss, a) == KernelPhases(hs, ss, a)[q := a.x[q] && a.z[q]];
    ParityUpdate(KernelPhases(hs, ss, a), q, a.x[q] && a.z[q]);
    assert !KernelPhases(hs, ss, a)[q];
    var l, r := Kernel(hs + {q}, ss, s), Conjugate(H(q), Kernel(hs, ss, s));
    assert l.row.x == r.row.x && l.row.z == r.row.z;
  }

  lemma KernelWithS(hs: set<nat>, ss: set<nat>, q: nat, s: Signed)
    requires |s.row.x| == |s.row.z| && q < |s.row.x| && q !in hs && q !in ss
    ensures Kernel(hs, ss + {q}, s) == Conjugate(S(q), Kernel(hs, ss, s))
  {
    var a := s.row;
    assert KernelPhases(hs, ss + {q}, a) == KernelPhases(hs, ss, a)[q := a.x[q] && a.z[q]];
    ParityUpdate(KernelPhases(hs, ss, a), q, a.x[q] && a.z[q]);
    assert !KernelPhases(hs, ss, a)[q];
    var l, r := Kernel(hs, ss + {q}, s), Conjugate(S(q), Kernel(hs, ss, s));
    assert l.row.x == r.row.x && l.row.z == r.row.z;
  }

  // A gate on other qubits commutes with the layer.
  lemma KernelCommutes(hs: set<nat>, ss: set<nat>, g: Gate, s: Signed)
    requires |s.row.x| == |s.row.z| && g.Ok(|s.row.x|) && g.Qubits() !! hs && g.Qubits() !! ss
    ensures Kernel(hs, ss, Conjugate(g, s)) == Conjugate(g, Kernel(hs, ss, s))
  {
    assert KernelPhases(hs, ss, Conjugate(g, s).row) == KernelPhases(hs, ss, s.row);
    var l, r := Kernel(hs, ss, Conjugate(g, s)), Conjugate(g, Kernel(hs, ss, s));
    assert l.row.x == r.row.x && l.row.z == r.row.z;
  }

  lemma GatesCommute(g: Gate, g': Gate, s: Signed)
    requires |s.row.x| == |s.row.z| && g.Ok(|s.row.x|) && g'.Ok(|s.row.x|) && g.Qubits() !! g'.Qubits()
    ensures Conjugate(g, Conjugate(g', s)) == Conjugate(g', Conjugate(g, s))
  {
    RowsCommute(g, g', s.row);
    SignUnchanged(g, g', s.row);
    SignUnchanged(g', g, s.row);
  }

  lemma SignUnchanged(g: Gate, g': Gate, a: Row)
    requires |a.x| == |a.z| && g.Ok(|a.x|) && g'.Ok(|a.x|) && g.Qubits() !! g'.Qubits()
    ensures FlipsSign(g, GateRow(g', a)) == FlipsSign(g, a)
  {
    Untouched(g', a, g.Qubits());
    if g.CX? {
      assert g.control in g.Qubits() && g.target in g.Qubits();
    } else {
      assert g.q in g.Qubits();
    }
  }

  lemma Untouched(g: Gate, a: Row, qs: set<nat>)
    requires |a.x| == |a.z| && g.Ok(|a.x|) && g.Qubits() !! qs
    ensures forall q :: q in qs && q < |a.x| ==> GateRow(g, a).x[q] == a.x[q] && GateRow(g, a).z[q] == a.z[q]
  {
    if g.CX? {
      assert g.control in g.Qubits() && g.target in g.Qubits();
    } else {
      assert g.q in g.Qubits();
    }
  }

  // The bits a gate writes depend on its own qubits only.
  lemma Touched(g: Gate, a: Row, b: Row)
    requires |a.x| == |a.z| == |b.x| == |b.z| && g.Ok(|a.x|)
    requires forall q :: q in g.Qubits() ==> q < |a.x| && a.x[q] == b.x[q] && a.z[q] == b.z[q]
    ensures forall q :: q in g.Qubits() ==> q < |a.x| && GateRow(g, a).x[q] == GateRow(g, b).x[q] && GateRow(g, a).z[q] == GateRow(g, b).z[q]
  {
    if g.CX? {
      assert g.control in g.Qubits() && g.target in g.Qubits();
    } else {
      assert g.q in g.Qubits();
    }
  }

  lemma RowsCommute(g: Gate, g': Gate, a: Row)
    requires |a.x| == |a.z| && g.Ok(|a.x|) && g'.Ok(|a.x|) && g.Qubits() !! g'.Qubits()
    ensures GateRow(g, GateRow(g', a)) == GateRow(g', GateRow(g, a))
  {
    var n := |a.x|;
    var l, r := GateRow(g, GateRow(g', a)), GateRow(g', GateRow(g, a));
    forall q | 0 <= q < n ensures l.x[q] == r.x[q] && l.z[q] == r.z[q] {
      if q in g.Qubits() {
        OneSideWrites(g, g', a, q);
      } else if q in g'.Qubits() {
        OneSideWrites(g', g, a, q);
      } else {
        Untouched(g, a, {q});
        Untouched(g', a, {q});
        Untouched(g, GateRow(g', a), {q});
        Untouched(g', GateRow(g, a), {q});
      }
    }
    assert l.x == r.x && l.z == r.z;
  }

  lemma OneSideWrites(g: Gate, g': Gate, a: Row, q: nat)
    requires |a.x| == |a.z| && g.Ok(|a.x|) && g'.Ok(|a.x|) && g.Qubits() !! g'.Qubits()
    requires q < |a.x| && q in g.Qubits()
    ensures GateRow(g, GateRow(g', a)).x[q] == GateRow(g', GateRow(g, a)).x[q]
    ensures GateRow(g, GateRow(g', a)).z[q] == GateRow(g', GateRow(g, a)).z[q]
  {
    Untouched(g', a, g.Qubits());
    Untouched(g', GateRow(g, a), g.Qubits());
    assert forall k :: k in g.Qubits() ==> k < |a.x|;
    Touched(g, GateRow(g', a), a);
  }

  // ----- the cache --------------------------------------------------------

  // For each depth the H and S masks and the CNOTs to apply after them.
  datatype Layer = Layer(h: set<nat>, s: set<nat>, c: seq<(nat, nat)>) {
    ghost predicate Ok(n: nat) {
      forall i :: 0 <= i < |c| ==> CX(c[i].0, c[i].1).Ok(n)
    }

    ghost predicate Free(q: nat) {
      q !in h && q !in s && forall i :: 0 <= i < |c| ==> q != c[i].0 && q != c[i].1
    }
  }

  const EMPTY := Layer({}, {}, [])

  ghost function Cnots(c: seq<(nat, nat)>, s: Signed, n: nat): (r: Signed)
    requires IsSigned(s, n) && forall i :: 0 <= i < |c| ==> CX(c[i].0, c[i].1).Ok(n)
    ensures IsSigned(r, n)
  {
    if c == [] then s else
    var last := c[|c| - 1];
    Conjugate(CX(last.0, last.1), Cnots(c[..|c| - 1], s, n))
  }

  ghost function FlushLayer(l: Layer, s: Signed, n: nat): (r: Signed)
    requires l.Ok(n) && IsSigned(s, n)
    ensures IsSigned(r, n)
  {
    Cnots(l.c, Kernel(l.h, l.s, s), n)
  }

  ghost predicate LayersOk(layers: seq<Layer>, n: nat) {
    forall d :: 0 <= d < |layers| ==> layers[d].Ok(n)
  }

  // sync for one row: the layers up to depth d, shallowest first.
  ghost function Flush(layers: seq<Layer>, s: Signed, n: nat): (r: Signed)
    requires LayersOk(layers, n) && IsSigned(s, n)
    ensures IsSigned(r, n)
  {
    if layers == [] then s else
    FlushLayer(layers[|layers| - 1], Flush(layers[..|layers| - 1], s, n), n)
  }

  lemma {:induction false} CnotsCommute(c: seq<(nat, nat)>, g: Gate, s: Signed, n: nat)
    requires IsSigned(s, n) && g.Ok(n) && forall i :: 0 <= i < |c| ==> CX(c[i].0, c[i].1).Ok(n)
    requires forall i :: 0 <= i < |c| ==> c[i].0 !in g.Qubits() && c[i].1 !in g.Qubits()
    ensures Cnots(c, Conjugate(g, s), n) == Conjugate(g, Cnots(c, s, n))
  {
    if c != [] {
      var m := |c| - 1;
      CnotsCommute(c[..m], g, s, n);
      GatesCommute(CX(c[m].0, c[m].1), g, Cnots(c[..m], s, n));
    }
  }

  lemma LayerCommutes(l: Layer, g: Gate, s: Signed, n: nat)
    requires l.Ok(n) && IsSigned(s, n) && g.Ok(n) && FreeOf(l, g)
    ensures FlushLayer(l, Conjugate(g, s), n) == Conjugate(g, FlushLayer(l, s, n))
  {
    KernelCommutes(l.h, l.s, g, s);
    CnotsCommute(l.c, g, Kernel(l.h, l.s, s), n);
  }

  ghost predicate FreeOf(l: Layer, g: Gate) {
    forall q :: q in g.Qubits() ==> l.Free(q)
  }

  // The gate recorded in a layer that was free of its qubits.
  function Record(l: Layer, g: Gate): Layer {
    match g
    case H(q) => l.(h := l.h + {q})
    case S(q) => l.(s := l.s + {q})
    case CX(c, t) => l.(c := l.c + [(c, t)])
  }

  lemma RecordInLayer(l: Layer, g: Gate, s: Signed, n: nat)
    requires l.Ok(n) && IsSigned(s, n) && g.Ok(n) && FreeOf(l, g)
    ensures Record(l, g).Ok(n) && FlushLayer(Record(l, g), s, n) == Conjugate(g, FlushLayer(l, s, n))
  {
    var k := Kernel(l.h, l.s, s);
    match g
    case H(q) =>
      assert l.Free(q);
      KernelWithH(l.h, l.s, q, s);
      CnotsCommute(l.c, g, k, n);
    case S(q) =>
      assert l.Free(q);
      KernelWithS(l.h, l.s, q, s);
      CnotsCommute(l.c, g, k, n);
    case CX(c, t) =>
      assert (l.c + [(c, t)])[..|l.c|] == l.c;
  }

  // Recording a gate at depth d, where its qubits are free from d on, is
  // applying it after everything recorded so far.
  lemma {:induction false} RecordIsApply(layers: seq<Layer>, d: nat, g: Gate, s: Signed, n: nat)
    requires LayersOk(layers, n) && IsSigned(s, n) && g.Ok(n) && d < |layers|
    requires forall e :: d <= e < |layers| ==> FreeOf(layers[e], g)
    ensures LayersOk(layers[d := Record(layers[d], g)], n)
    ensures Flush(layers[d := Record(layers[d], g)], s, n) == Conjugate(g, Flush(layers, s, n))
  {
    if d == |layers| - 1 {
      RecordOnTop(layers, d, g, s, n);
    } else {
      RecordIsApply(layers[..|layers| - 1], d, g, s, n);
      RecordBelow(layers, layers[..|layers| - 1], d, g, s, n);
    }
  }

  lemma RecordOnTop(layers: seq<Layer>, d: nat, g: Gate, s: Signed, n: nat)
    requires LayersOk(layers, n) && IsSigned(s, n) && g.Ok(n) && d == |layers| - 1 && FreeOf(layers[d], g)
    ensures LayersOk(layers[d := Record(layers[d], g)], n)
    ensures Flush(layers[d := Record(layers[d], g)], s, n) == Conjugate(g, Flush(layers, s, n))
  {
    var recorded, below := layers[d := Record(layers[d], g)], layers[..d];
    RecordOk(layers[d], g, n);
    LastLayer(layers, below, s, n);
    assert recorded[..d] == below;
    LastLayer(recorded, below, s, n);
    RecordInLayer(layers[d], g, Flush(below, s, n), n);
  }

  lemma RecordBelow(layers: seq<Layer>, below: seq<Layer>, d: nat, g: Gate, s: Signed, n: nat)
    requires LayersOk(layers, n) && IsSigned(s, n) && g.Ok(n) && d < |layers| - 1
    requires below == layers[..|layers| - 1] && FreeOf(layers[|layers| - 1], g)
    requires LayersOk(below, n) && LayersOk(below[d := Record(below[d], g)], n)
    requires Flush(below[d := Record(below[d], g)], s, n) == Conjugate(g, Flush(below, s, n))
    ensures LayersOk(layers[d := Record(layers[d], g)], n)
    ensures Flush(layers[d := Record(layers[d], g)], s, n) == Conjugate(g, Flush(layers, s, n))
  {
    var recorded, m := layers[d := Record(layers[d], g)], |layers| - 1;
    RecordOk(layers[d], g, n);
    LastLayer(layers, below, s, n);
    assert recorded[..m] == below[d := Record(below[d], g)];
    LastLayer(recorded, below[d := Record(below[d], g)], s, n);
    LayerCommutes(layers[m], g, Flush(below, s, n), n);
  }

  lemma LastLayer(layers: seq<Layer>, below: seq<Layer>, s: Signed, n: nat)
    requires layers != [] && LayersOk(layers, n) && IsSigned(s, n)
    requires below == layers[..|layers| - 1]
    ensures LayersOk(below, n)
    ensures Flush(layers, s, n) == FlushLayer(layers[|layers| - 1], Flush(below, s, n), n)
  {
  }

  lemma RecordOk(l: Layer, g: Gate, n: nat)
    requires l.Ok(n) && g.Ok(n)
    ensures Record(l, g).Ok(n)
  {
    if g.CX? {
      assert forall i :: 0 <= i < |l.c| ==> Record(l, g).c[i] == l.c[i];
    }
  }

  lemma {:induction false} FlushNothing(layers: seq<Layer>, s: Signed, n: nat)
    requires IsSigned(s, n) && forall d :: 0 <= d < |layers| ==> layers[d] == EMPTY
    ensures LayersOk(layers, n) && Flush(layers, s, n) == s
  {
    if layers != [] {
      FlushNothing(layers[..|layers| - 1], s, n);
      EmptyKernel(s);
    }
  }

  // ----- positions --------------------------------------------------------

  // pos[q] is the first depth at which qubit q may still be used.
  ghost predicate CacheFits(n: nat, depth: nat, layers: seq<Layer>, pos: seq<nat>) {
    && |layers| == depth && |pos| == n && LayersOk(layers, n)
    && forall q, e {:trigger layers[e].Free(q)} :: 0 <= q < n && pos[q] <= e < depth ==> layers[e].Free(q)
  }

  ghost predicate CacheOk(n: nat, depth: nat, layers: seq<Layer>, pos: seq<nat>) {
    CacheFits(n, depth, layers, pos) && forall q :: 0 <= q < n ==> pos[q] < depth
  }

  ghost predicate Records(n: nat, g: Gate, layers: seq<Layer>, layers': seq<Layer>) {
    && LayersOk(layers, n) && LayersOk(layers', n) && g.Ok(n)
    && forall s :: IsSigned(s, n) ==> Flush(layers', s, n) == Conjugate(g, Flush(layers, s, n))
  }

  function Max(a: nat, b: nat): nat { if a < b then b else a }

  // The depth at which a gate is recorded.
  ghost function DepthOf(g: Gate, pos: seq<nat>): nat
    requires g.Ok(|pos|)
  {
    if g.CX? then Max(pos[g.control], pos[g.target]) else pos[g.q]
  }

  ghost function NewPositions(g: Gate, pos: seq<nat>): seq<nat>
    requires g.Ok(|pos|)
  {
    var d := DepthOf(g, pos) + 1;
    if g.CX? then pos[g.control := d][g.target := d] else pos[g.q := d]
  }

  lemma RecordGate(n: nat, depth: nat, layers: seq<Layer>, pos: seq<nat>, g: Gate)
    requires CacheOk(n, depth, layers, pos) && g.Ok(n)
    ensures DepthOf(g, pos) < depth
    ensures var layers' := layers[DepthOf(g, pos) := Record(layers[DepthOf(g, pos)], g)];
            CacheFits(n, depth, layers', NewPositions(g, pos)) && Records(n, g, layers, layers')
  {
    var d := DepthOf(g, pos);
    RecordOk(layers[d], g, n);
    var layers' := layers[d := Record(layers[d], g)];
    forall e | d <= e < depth ensures FreeOf(layers[e], g) {
      forall q | q in g.Qubits() ensures layers[e].Free(q) {
        assert q < n && pos[q] <= e;
      }
    }
    forall s | IsSigned(s, n) ensures Flush(layers', s, n) == Conjugate(g, Flush(layers, s, n)) {
      RecordIsApply(layers, d, g, s, n);
    }
    forall q, e | 0 <= q < n && NewPositions(g, pos)[q] <= e < depth ensures layers'[e].Free(q) {
      StaysFree(layers[d], g, q);
      assert layers[e].Free(q);
    }
  }

  lemma StaysFree(l: Layer, g: Gate, q: nat)
    ensures l.Free(q) && q !in g.Qubits() ==> Record(l, g).Free(q)
  {
    if l.Free(q) && q !in g.Qubits() && g.CX? {
      var c := Record(l, g).c;
      forall i | 0 <= i < |c| ensures q != c[i].0 && q != c[i].1 {
        assert i < |l.c| ==> c[i] == l.c[i];
      }
    }
  }
}
