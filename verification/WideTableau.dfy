// A circuit on more qubits than a word has bits whose last measurement has a
// sure outcome, and the tableau answers with the other one.

module WideTableau {
  import opened Symplectic
  import opened PauliPhase
  import opened GateCache
  import opened Tableau
  import opened StabilizerGroup
  import opened StabilizerState

  // ----- running gates ----------------------------------------------------

  // The constructor's rows, with plus signs.
  ghost function Initial(n: nat): (t: seq<Signed>)
    ensures Good(n, t)
    ensures forall i :: 0 <= i < n ==> t[i] == Signed(XAt(n, i), false) && t[i + n] == Signed(ZAt(n, i), false)
  {
    InitialBasis(n);
    var t := seq(2 * n, i requires 0 <= i < 2 * n => Signed(InitialRows(n)[i], false));
    assert Rows(n, t) == InitialRows(n);
    t
  }

  ghost predicate AllOk(gates: seq<Gate>, n: nat) {
    forall i :: 0 <= i < |gates| ==> gates[i].Ok(n)
  }

  ghost function AfterGates(n: nat, gates: seq<Gate>, t: seq<Signed>): (r: seq<Signed>)
    requires IsTableau(n, t) && AllOk(gates, n)
    ensures IsTableau(n, r)
  {
    seq(2 * n, i requires 0 <= i < 2 * n => ConjugateAll(gates, t[i], n))
  }

  lemma {:induction false} GatesKeepGood(n: nat, gates: seq<Gate>, t: seq<Signed>)
    requires Good(n, t) && AllOk(gates, n)
    ensures Good(n, AfterGates(n, gates, t))
  {
    if gates == [] {
      assert AfterGates(n, gates, t) == t;
    } else {
      var last := |gates| - 1;
      GatesKeepGood(n, gates[..last], t);
      GateKeepsGood(n, gates[last], AfterGates(n, gates[..last], t));
      assert AfterGates(n, gates, t) == Conjugated(n, gates[last], AfterGates(n, gates[..last], t));
    }
  }

  // ----- rows on three qubits ---------------------------------------------

  // The operator of a row at one qubit.
  datatype Part = Part(x: bool, z: bool)

  const I := Part(false, false)
  const X := Part(true, false)
  const Y := Part(true, true)
  const Z := Part(false, true)

  // Rows over w + 2 qubits that act on qubits 0, w and w + 1.
  function PartAt(w: nat, a: Part, b: Part, c: Part, j: nat): Part {
    if j == 0 then a else if j == w then b else if j == w + 1 then c else I
  }

  function On(w: nat, a: Part, b: Part, c: Part, sign: bool): (s: Signed)
    ensures |s.row.x| == |s.row.z| == w + 2
  {
    Signed(Row(seq(w + 2, j requires 0 <= j => PartAt(w, a, b, c, j).x), seq(w + 2, j requires 0 <= j => PartAt(w, a, b, c, j).z)), sign)
  }

  ghost predicate Reads(s: Signed, w: nat, a: Part, b: Part, c: Part) {
    && |s.row.x| == |s.row.z| == w + 2
    && forall j :: 0 <= j < w + 2 ==> Part(s.row.x[j], s.row.z[j]) == PartAt(w, a, b, c, j)
  }

  lemma ReadsIsOn(s: Signed, w: nat, a: Part, b: Part, c: Part)
    requires Reads(s, w, a, b, c)
    ensures s == On(w, a, b, c, s.sign)
  {
    var t := On(w, a, b, c, s.sign);
    assert s.row.x == t.row.x && s.row.z == t.row.z;
  }

  function AfterH(a: Part): Part { Part(a.z, a.x) }
  function AfterS(a: Part): Part { Part(a.x, a.x != a.z) }

  lemma HFirst(w: nat, a: Part, b: Part, c: Part, sign: bool)
    requires w > 0
    ensures Conjugate(H(0), On(w, a, b, c, sign)) == On(w, AfterH(a), b, c, sign != (a == Y))
  {
    var s := Conjugate(H(0), On(w, a, b, c, sign));
    assert Reads(s, w, AfterH(a), b, c);
    ReadsIsOn(s, w, AfterH(a), b, c);
  }

  lemma HSecond(w: nat, a: Part, b: Part, c: Part, sign: bool)
    requires w > 0
    ensures Conjugate(H(w), On(w, a, b, c, sign)) == On(w, a, AfterH(b), c, sign != (b == Y))
  {
    var s := Conjugate(H(w), On(w, a, b, c, sign));
    assert Reads(s, w, a, AfterH(b), c);
    ReadsIsOn(s, w, a, AfterH(b), c);
  }

  lemma SFirst(w: nat, a: Part, b: Part, c: Part, sign: bool)
    requires w > 0
    ensures Conjugate(S(0), On(w, a, b, c, sign)) == On(w, AfterS(a), b, c, sign != (a == Y))
  {
    var s := Conjugate(S(0), On(w, a, b, c, sign));
    assert Reads(s, w, AfterS(a), b, c);
    ReadsIsOn(s, w, AfterS(a), b, c);
  }

  lemma SSecond(w: nat, a: Part, b: Part, c: Part, sign: bool)
    requires w > 0
    ensures Conjugate(S(w), On(w, a, b, c, sign)) == On(w, a, AfterS(b), c, sign != (b == Y))
  {
    var s := Conjugate(S(w), On(w, a, b, c, sign));
    assert Reads(s, w, a, AfterS(b), c);
    ReadsIsOn(s, w, a, AfterS(b), c);
  }

  // Control and target after a CX, and whether the sign changes.
  function Controlled(a: Part, b: Part): Part { Part(a.x, a.z != b.z) }
  function Target(a: Part, b: Part): Part { Part(b.x != a.x, b.z) }
  predicate Negates(a: Part, b: Part) { a.x && b.z && b.x == a.z }

  lemma CXFirstSecond(w: nat, a: Part, b: Part, c: Part, sign: bool)
    requires w > 0
    ensures Conjugate(CX(0, w), On(w, a, b, c, sign)) == On(w, Controlled(a, b), Target(a, b), c, sign != Negates(a, b))
  {
    var s := Conjugate(CX(0, w), On(w, a, b, c, sign));
    assert Reads(s, w, Controlled(a, b), Target(a, b), c);
    ReadsIsOn(s, w, Controlled(a, b), Target(a, b), c);
  }

  lemma CXFirstThird(w: nat, a: Part, b: Part, c: Part, sign: bool)
    requires w > 0
    ensures Conjugate(CX(0, w + 1), On(w, a, b, c, sign)) == On(w, Controlled(a, c), b, Target(a, c), sign != Negates(a, c))
  {
    var s := Conjugate(CX(0, w + 1), On(w, a, b, c, sign));
    assert Reads(s, w, Controlled(a, c), b, Target(a, c));
    ReadsIsOn(s, w, Controlled(a, c), b, Target(a, c));
  }

  lemma CXSecondThird(w: nat, a: Part, b: Part, c: Part, sign: bool)
    requires w > 0
    ensures Conjugate(CX(w, w + 1), On(w, a, b, c, sign)) == On(w, a, Controlled(b, c), Target(b, c), sign != Negates(b, c))
  {
    var s := Conjugate(CX(w, w + 1), On(w, a, b, c, sign));
    assert Reads(s, w, a, Controlled(b, c), Target(b, c));
    ReadsIsOn(s, w, a, Controlled(b, c), Target(b, c));
  }

  // ----- the circuit ------------------------------------------------------

  // A Bell pair on qubits 0 and w.
  function Bell(w: nat): seq<Gate> {
    [H(0)] + [CX(0, w)]
  }

  // The parity of Y on both of them is read into qubit w + 1.
  function Circuit(w: nat): seq<Gate> {
    Bell(w) + [S(0)] + [S(w)] + [H(0)] + [H(w)] + [CX(0, w + 1)] + [CX(w, w + 1)]
  }

  // What a gate makes of a row on the three qubits.
  datatype Triple = Triple(a: Part, b: Part, c: Part, sign: bool) {
    function Signed(w: nat): (s: Signed)
      ensures |s.row.x| == |s.row.z| == w + 2
    {
      On(w, a, b, c, sign)
    }

    function AfterBell(): Triple {
      var h := Triple(AfterH(a), b, c, sign != (a == Y));
      Triple(Controlled(h.a, h.b), Target(h.a, h.b), h.c, h.sign != Negates(h.a, h.b))
    }

    function Turned(): Triple {
      var s := Triple(AfterS(a), AfterS(b), c, (sign != (a == Y)) != (b == Y));
      Triple(AfterH(s.a), AfterH(s.b), c, (s.sign != (s.a == Y)) != (s.b == Y))
    }

    function Parity(): Triple {
      var u := Triple(Controlled(a, c), b, Target(a, c), sign != Negates(a, c));
      Triple(u.a, Controlled(u.b, u.c), Target(u.b, u.c), u.sign != Negates(u.b, u.c))
    }
  }

  lemma {:induction false} ConjugateMore(gates: seq<Gate>, g: Gate, s: Signed, n: nat)
    requires IsSigned(s, n) && AllOk(gates, n) && g.Ok(n)
    ensures AllOk(gates + [g], n)
    ensures ConjugateAll(gates + [g], s, n) == Conjugate(g, ConjugateAll(gates, s, n))
  {
    assert (gates + [g])[..|gates|] == gates;
  }

  lemma BellOnRow(w: nat, r: Triple)
    requires w > 0
    ensures AllOk(Bell(w), w + 2) && ConjugateAll(Bell(w), r.Signed(w), w + 2) == r.AfterBell().Signed(w)
  {
    var n, s := w + 2, r.Signed(w);
    assert [] + [H(0)] == [H(0)];
    ConjugateMore([], H(0), s, n);
    ConjugateMore([H(0)], CX(0, w), s, n);
    HFirst(w, r.a, r.b, r.c, r.sign);
    CXFirstSecond(w, AfterH(r.a), r.b, r.c, r.sign != (r.a == Y));
  }

  lemma TurnOnRow(w: nat, r: Triple)
    requires w > 0
    ensures Conjugate(H(w), Conjugate(H(0), Conjugate(S(w), Conjugate(S(0), r.Signed(w))))) == r.Turned().Signed(w)
  {
    var s1 := r.sign != (r.a == Y);
    var s2 := s1 != (r.b == Y);
    var a, b := AfterS(r.a), AfterS(r.b);
    SFirst(w, r.a, r.b, r.c, r.sign);
    SSecond(w, a, r.b, r.c, s1);
    HFirst(w, a, b, r.c, s2);
    HSecond(w, AfterH(a), b, r.c, s2 != (a == Y));
  }

  lemma ParityOnRow(w: nat, r: Triple)
    requires w > 0
    ensures Conjugate(CX(w, w + 1), Conjugate(CX(0, w + 1), r.Signed(w))) == r.Parity().Signed(w)
  {
    CXFirstThird(w, r.a, r.b, r.c, r.sign);
    CXSecondThird(w, Controlled(r.a, r.c), r.b, Target(r.a, r.c), r.sign != Negates(r.a, r.c));
  }

  lemma CircuitUnrolled(w: nat, s: Signed)
    requires w > 0 && IsSigned(s, w + 2)
    ensures AllOk(Bell(w), w + 2) && AllOk(Circuit(w), w + 2)
    ensures ConjugateAll(Circuit(w), s, w + 2)
            == Conjugate(CX(w, w + 1), Conjugate(CX(0, w + 1), Conjugate(H(w), Conjugate(H(0), Conjugate(S(w),
               Conjugate(S(0), ConjugateAll(Bell(w), s, w + 2)))))))
  {
    var n, g := w + 2, Bell(w);
    ConjugateMore(g, S(0), s, n);
    ConjugateMore(g + [S(0)], S(w), s, n);
    ConjugateMore(g + [S(0)] + [S(w)], H(0), s, n);
    ConjugateMore(g + [S(0)] + [S(w)] + [H(0)], H(w), s, n);
    ConjugateMore(g + [S(0)] + [S(w)] + [H(0)] + [H(w)], CX(0, w + 1), s, n);
    ConjugateMore(g + [S(0)] + [S(w)] + [H(0)] + [H(w)] + [CX(0, w + 1)], CX(w, w + 1), s, n);
  }

  lemma CircuitOnRow(w: nat, r: Triple)
    requires w > 0
    ensures AllOk(Circuit(w), w + 2)
    ensures ConjugateAll(Circuit(w), r.Signed(w), w + 2) == r.AfterBell().Turned().Parity().Signed(w)
  {
    BellOnRow(w, r);
    CircuitUnrolled(w, r.Signed(w));
    TurnOnRow(w, r.AfterBell());
    ParityOnRow(w, r.AfterBell().Turned());
  }

  // ----- rows the circuit does not touch ----------------------------------

  ghost predicate IdleAt(s: Signed, q: nat)
    requires |s.row.x| == |s.row.z|
  {
    q < |s.row.x| ==> !s.row.x[q] && !s.row.z[q]
  }

  ghost predicate Idle(gates: seq<Gate>, s: Signed)
    requires |s.row.x| == |s.row.z|
  {
    forall i, q :: 0 <= i < |gates| && q in gates[i].Qubits() ==> IdleAt(s, q)
  }

  lemma GateElsewhere(g: Gate, s: Signed, n: nat)
    requires IsSigned(s, n) && g.Ok(n) && forall q :: q in g.Qubits() ==> IdleAt(s, q)
    ensures Conjugate(g, s) == s
  {
    match g
    case H(q) => assert IdleAt(s, q); assert GateRow(g, s.row).x == s.row.x && GateRow(g, s.row).z == s.row.z;
    case S(q) => assert IdleAt(s, q); assert GateRow(g, s.row).z == s.row.z;
    case CX(c, t) =>
      assert IdleAt(s, c) && IdleAt(s, t);
      assert GateRow(g, s.row).x == s.row.x && GateRow(g, s.row).z == s.row.z;
  }

  lemma {:induction false} GatesElsewhere(gates: seq<Gate>, s: Signed, n: nat)
    requires IsSigned(s, n) && AllOk(gates, n) && Idle(gates, s)
    ensures ConjugateAll(gates, s, n) == s
  {
    if gates != [] {
      var last := |gates| - 1;
      assert Idle(gates[..last], s);
      GatesElsewhere(gates[..last], s, n);
      GateElsewhere(gates[last], s, n);
    }
  }

  // ----- the tableau after the circuit ------------------------------------

  ghost function Final(w: nat): (t: seq<Signed>)
    requires w > 0
    ensures Good(w + 2, t)
  {
    CircuitUnrolled(w, On(w, I, I, I, false));
    GatesKeepGood(w + 2, Circuit(w), Initial(w + 2));
    AfterGates(w + 2, Circuit(w), Initial(w + 2))
  }

  lemma FinalRow(w: nat, i: nat, r: Triple)
    requires w > 0 && i < 2 * (w + 2) && Initial(w + 2)[i] == r.Signed(w)
    ensures Final(w)[i] == r.AfterBell().Turned().Parity().Signed(w)
  {
    CircuitOnRow(w, r);
  }

  // Destabilizers and stabilizers of the three qubits.
  lemma FinalRows(w: nat)
    requires w > 1
    ensures var t, n := Final(w), w + 2;
            && t[0] == On(w, X, I, X, false) && t[n] == On(w, Y, Y, I, false)
            && t[w] == On(w, I, Y, X, true) && t[w + n] == On(w, X, X, I, false)
            && t[w + 1] == On(w, I, I, X, false) && t[w + 1 + n] == On(w, Z, Z, Z, false)
  {
    InitialOn(w);
    var n := w + 2;
    FinalRow(w, 0, Triple(X, I, I, false));
    FinalRow(w, w, Triple(I, X, I, false));
    FinalRow(w, w + 1, Triple(I, I, X, false));
    FinalRow(w, n, Triple(Z, I, I, false));
    FinalRow(w, w + n, Triple(I, Z, I, false));
    FinalRow(w, w + 1 + n, Triple(I, I, Z, false));
  }

  lemma InitialOn(w: nat)
    requires w > 1
    ensures var t, n := Initial(w + 2), w + 2;
            && t[0] == On(w, X, I, I, false) && t[n] == On(w, Z, I, I, false)
            && t[w] == On(w, I, X, I, false) && t[w + n] == On(w, I, Z, I, false)
            && t[w + 1] == On(w, I, I, X, false) && t[w + 1 + n] == On(w, I, I, Z, false)
  {
    var t, n := Initial(w + 2), w + 2;
    assert t[0 + n] == Signed(ZAt(n, 0), false);
    ReadsIsOn(Signed(XAt(n, 0), false), w, X, I, I);
    ReadsIsOn(Signed(XAt(n, w), false), w, I, X, I);
    ReadsIsOn(Signed(XAt(n, w + 1), false), w, I, I, X);
    ReadsIsOn(Signed(ZAt(n, 0), false), w, Z, I, I);
    ReadsIsOn(Signed(ZAt(n, w), false), w, I, Z, I);
    ReadsIsOn(Signed(ZAt(n, w + 1), false), w, I, I, Z);
  }

  lemma CircuitElsewhere(w: nat, s: Signed)
    requires w > 1 && IsSigned(s, w + 2) && IdleAt(s, 0) && IdleAt(s, w) && IdleAt(s, w + 1)
    ensures AllOk(Circuit(w), w + 2) && ConjugateAll(Circuit(w), s, w + 2) == s
  {
    CircuitUnrolled(w, s);
    forall k, q | 0 <= k < 8 && q in Circuit(w)[k].Qubits() ensures IdleAt(s, q) {
      CircuitQubits(w, k, q);
    }
    GatesElsewhere(Circuit(w), s, w + 2);
  }

  lemma CircuitQubits(w: nat, k: nat, q: nat)
    requires k < 8 && q in Circuit(w)[k].Qubits()
    ensures q == 0 || q == w || q == w + 1
  {
  }

  lemma OtherRows(w: nat, j: nat)
    requires 0 < j < w
    ensures !Final(w)[j].row.x[w + 1] && !Final(w)[j + w + 2].row.x[w + 1]
  {
    var n, t := w + 2, Initial(w + 2);
    assert t[j] == Signed(XAt(n, j), false) && t[j + n] == Signed(ZAt(n, j), false);
    CircuitElsewhere(w, t[j]);
    CircuitElsewhere(w, t[j + n]);
  }

  // ----- the measurement --------------------------------------------------

  // An x bit at the ancilla: in three destabilizers, in no stabilizer.
  lemma AncillaBits(w: nat, j: nat)
    requires w > 1 && j < w + 2
    ensures Final(w)[j].row.x[w + 1] <==> j == 0 || j == w || j == w + 1
    ensures !Final(w)[j + w + 2].row.x[w + 1]
  {
    FinalRows(w);
    if 0 < j < w {
      OtherRows(w, j);
    }
  }

  lemma SureOutcome(w: nat)
    requires w > 1
    ensures Determined(w + 2, Final(w), w + 1)
  {
    var n, t := w + 2, Final(w);
    forall i | n <= i < 2 * n ensures !t[i].row.x[w + 1] {
      AncillaBits(w, i - n);
    }
  }

  function Times(a: Part, b: Part): Part { Part(a.x != b.x, a.z != b.z) }

  lemma AddOn(w: nat, h: Signed, i: Signed, a: Part, b: Part, c: Part, a': Part, b': Part, c': Part)
    requires Reads(h, w, a, b, c) && Reads(i, w, a', b', c')
    ensures Reads(Signed(Add(h.row, i.row), h.sign), w, Times(a, a'), Times(b, b'), Times(c, c'))
  {
    var r := Signed(Add(h.row, i.row), h.sign);
    var u, v, t := Times(a, a'), Times(b, b'), Times(c, c');
    forall j | 0 <= j < w + 2
      ensures Part(r.row.x[j], r.row.z[j]) == PartAt(w, u, v, t, j)
    {
      assert Part(r.row.x[j], r.row.z[j]) == Times(Part(h.row.x[j], h.row.z[j]), Part(i.row.x[j], i.row.z[j]));
      TimesAt(w, a, b, c, a', b', c', j);
    }
    assert Reads(r, w, u, v, t);
  }

  lemma TimesAt(w: nat, a: Part, b: Part, c: Part, a': Part, b': Part, c': Part, j: nat)
    ensures PartAt(w, Times(a, a'), Times(b, b'), Times(c, c'), j)
            == Times(PartAt(w, a, b, c, j), PartAt(w, a', b', c', j))
  {
  }

  // The product is Y Y from the first row until row w joins, then Z Z; only
  // that step drops a carry.
  ghost predicate OnTheWay(m: Hardware, w: nat, l: nat)
    requires w > 1 && 0 < l <= w + 1
  {
    var h := Product(m, w + 2, Final(w), w + 1, l);
    && (if l <= w then Reads(h, w, Y, Y, I) else Reads(h, w, Z, Z, I))
    && LostOnTheWay(m, w + 2, Final(w), w + 1, l) == if l <= w then 0 else 1
  }

  lemma FirstRow(m: Hardware, w: nat)
    requires w > 1
    ensures OnTheWay(m, w, 1)
  {
    var n, t, q := w + 2, Final(w), w + 1;
    FinalRows(w);
    AncillaBits(w, 0);
    NoClashesLoseNothing(m, Zero(n), t[n].row, m.Registers(n), m.width);
    assert LostOnTheWay(m, n, t, q, 0) == 0 && Product(m, n, t, q, 0) == Signed(Zero(n), false);
    AddOn(w, Signed(Zero(n), false), t[n], I, I, I, Y, Y, I);
  }

  lemma SecondRow(m: Hardware, w: nat)
    requires m.lanes > 1 && w == m.width > 1 && OnTheWay(m, w, w)
    ensures OnTheWay(m, w, w + 1)
  {
    var n, t, q := w + 2, Final(w), w + 1;
    var h, i := Product(m, n, t, q, w), t[w + n];
    FinalRows(w);
    AncillaBits(w, w);
    WideRegisters(m, n);
    YYMeetsXX(w, h.row, i.row);
    TwoClashesLoseOne(m, h.row, i.row, m.width);
    AddOn(w, h, i, Y, Y, I, X, X, I);
    assert LostOnTheWay(m, n, t, q, w + 1) == 1;
  }

  lemma YYMeetsXX(w: nat, h: Row, i: Row)
    requires w > 1 && Reads(Signed(h, false), w, Y, Y, I) && Reads(Signed(i, false), w, X, X, I)
    ensures ClashTwice(h, i, w)
  {
  }

  lemma {:induction false} ProductOfCircuit(m: Hardware, w: nat, l: nat)
    requires m.lanes > 1 && w == m.width > 1 && 0 < l <= w + 1
    ensures OnTheWay(m, w, l)
  {
    if l == 1 {
      FirstRow(m, w);
    } else {
      ProductOfCircuit(m, w, l - 1);
      if l == w + 1 {
        SecondRow(m, w);
      } else {
        AncillaBits(w, l - 1);
      }
    }
  }

  // The parity of the Bell pair is sure: one of the two signed Z of the
  // ancilla stabilizes the state. The tableau answers with the other.
  lemma WideOutcomeIsWrong(m: Hardware, w: nat)
    requires m.lanes > 1 && w == m.width > 1
    ensures var n, t, q := w + 2, Final(w), w + 1;
            && Determined(n, t, q)
            && Stabilized(n, t, SignedZ(n, q, !Outcome(m, n, t, q)))
            && !Stabilized(n, t, SignedZ(n, q, Outcome(m, n, t, q)))
  {
    var n, t, q := w + 2, Final(w), w + 1;
    FinalRows(w);
    AncillaBits(w, w + 1);
    SureOutcome(w);
    ProductOfCircuit(m, w, w + 1);
    NoClashesLoseNothing(m, Product(m, n, t, q, w + 1).row, t[w + 1 + n].row, m.Registers(n), m.width);
    assert LostOnTheWay(m, n, t, q, n) == 1;
    OutcomeExactIff(m, n, t, q);
  }
}
