// Setting qubits to given values: collapse what is random, then flip what came
// out wrong.

module SetQubits {
  import opened Sequences
  import opened Symplectic
  import opened PauliPhase
  import opened GateCache
  import opened Tableau
  import opened Outcomes
  import opened StabilizerGroup
  import opened StabilizerState

  // set_qubits_ on the table: the collapsed table and whether to invert.
  ghost function SetStep(m: Hardware, n: nat, t: seq<Signed>, q: nat, b: bool): (r: (seq<Signed>, bool))
    requires IsTableau(n, t) && q < n
    ensures IsTableau(n, r.0)
  {
    if Determined(n, t, q) then (t, Outcome(m, n, t, q) != b)
    else (Collapsed(m, n, t, q, FirstX(n, t, q, n), b), false)
  }

  // ... for the first k qubits.
  ghost function SetSteps(m: Hardware, n: nat, t: seq<Signed>, qs: seq<nat>, bits: seq<bool>, k: nat): (r: (seq<Signed>, seq<nat>))
    requires Query(n, t, qs, bits) && k <= |qs|
    ensures IsTableau(n, r.0) && forall i :: 0 <= i < |r.1| ==> r.1[i] < n
  {
    if k == 0 then (t, []) else
    var r := SetSteps(m, n, t, qs, bits, k - 1);
    var s := SetStep(m, n, r.0, qs[k - 1], bits[k - 1]);
    (s.0, r.1 + if s.1 then [qs[k - 1]] else [])
  }

  ghost function FlippedAll(n: nat, inverts: seq<nat>, t: seq<Signed>): (r: seq<Signed>)
    requires IsTableau(n, t) && forall i :: 0 <= i < |inverts| ==> inverts[i] < n
    ensures IsTableau(n, r)
  {
    if inverts == [] then t else
    var k := |inverts| - 1;
    Flipped(n, inverts[k], FlippedAll(n, inverts[..k], t))
  }

  ghost predicate SetUpTo(m: Hardware, n: nat, t: seq<Signed>, qs: seq<nat>, bits: seq<bool>, k: nat,
                          t': seq<Signed>, inverts: seq<nat>) {
    Query(n, t, qs, bits) && k <= |qs| && IsTableau(n, t') && SetSteps(m, n, t, qs, bits, k) == (t', inverts)
  }

  lemma SetOneMore(m: Hardware, n: nat, t: seq<Signed>, qs: seq<nat>, bits: seq<bool>, k: nat,
                   t': seq<Signed>, inverts: seq<nat>, t'': seq<Signed>, invert: bool)
    requires SetUpTo(m, n, t, qs, bits, k, t', inverts) && k < |qs|
    requires SetStep(m, n, t', qs[k], bits[k]) == (t'', invert)
    ensures SetUpTo(m, n, t, qs, bits, k + 1, t'', inverts + if invert then [qs[k]] else [])
  {
  }

  lemma FlipOneMore(n: nat, inverts: seq<nat>, k: nat, t: seq<Signed>)
    requires IsTableau(n, t) && k < |inverts| && forall i :: 0 <= i < |inverts| ==> inverts[i] < n
    ensures FlippedAll(n, inverts[..k + 1], t) == Flipped(n, inverts[k], FlippedAll(n, inverts[..k], t))
  {
    assert inverts[..k + 1][..k] == inverts[..k];
  }

  // Setting one qubit, for any number of qubits: it is determined and has the
  // requested value.
  lemma SetOneQubit(m: Hardware, n: nat, t: seq<Signed>, q: nat, b: bool)
    requires Good(n, t) && q < n
    ensures var r := SetStep(m, n, t, q, b);
            var t' := FlippedAll(n, if r.1 then [q] else [], r.0);
            Good(n, t') && Determined(n, t', q) && Outcome(m, n, t', q) == b
  {
    if Determined(n, t, q) {
      if Outcome(m, n, t, q) != b {
        FlipNegates(m, n, t, q);
        FlipKeepsGood(n, q, t);
        assert [q][..0] == [];
        assert FlippedAll(n, [q][..0], t) == t;
      }
    } else {
      var p := FirstX(n, t, q, n);
      CollapseKeepsGood(m, n, t, q, p, b);
      CollapsedIsDetermined(m, n, t, q, p, b);
      CollapsedOutcome(m, n, t, q, p, b);
    }
  }

  // ----- several qubits ---------------------------------------------------

  // Z_q', with its sign turned by the inversion of the given qubits.
  ghost function Turned(n: nat, q: nat, b: bool, inverts: seq<nat>): Pauli {
    SignedZ(n, q, b != (q in inverts))
  }

  ghost predicate SetSoFar(n: nat, t: seq<Signed>, qs: seq<nat>, bits: seq<bool>, k: nat, inverts: seq<nat>)
  {
    && k <= |qs| == |bits| && Good(n, t)
    && (forall i :: 0 <= i < |qs| ==> qs[i] < n)
    && (forall i :: 0 <= i < k ==> Stabilized(n, t, Turned(n, qs[i], bits[i], inverts)))
    && (forall j :: 0 <= j < |inverts| ==> inverts[j] in qs[..k])
    && Distinct(inverts)
  }

  lemma {:induction false} StepsSet(m: Hardware, n: nat, t: seq<Signed>, qs: seq<nat>, bits: seq<bool>, k: nat)
    requires n <= m.width && Good(n, t) && Distinct(qs) && Query(n, t, qs, bits) && k <= |qs|
    ensures SetSoFar(n, SetSteps(m, n, t, qs, bits, k).0, qs, bits, k, SetSteps(m, n, t, qs, bits, k).1)
  {
    if k == 0 {
      NothingSet(n, t, qs, bits);
    } else {
      StepsSet(m, n, t, qs, bits, k - 1);
      OneMoreSet(m, n, t, qs, bits, k - 1);
    }
  }

  lemma OneMoreSet(m: Hardware, n: nat, t: seq<Signed>, qs: seq<nat>, bits: seq<bool>, k: nat)
    requires n <= m.width && Distinct(qs) && Query(n, t, qs, bits) && k < |qs|
    requires SetSoFar(n, SetSteps(m, n, t, qs, bits, k).0, qs, bits, k, SetSteps(m, n, t, qs, bits, k).1)
    ensures SetSoFar(n, SetSteps(m, n, t, qs, bits, k + 1).0, qs, bits, k + 1, SetSteps(m, n, t, qs, bits, k + 1).1)
  {
    var r, r' := SetSteps(m, n, t, qs, bits, k), SetSteps(m, n, t, qs, bits, k + 1);
    LastStep(m, n, t, qs, bits, k + 1);
    StepSets(m, n, r.0, qs, bits, k, r.1, r'.0, r'.1);
  }

  lemma NothingSet(n: nat, t: seq<Signed>, qs: seq<nat>, bits: seq<bool>)
    requires Good(n, t) && Query(n, t, qs, bits)
    ensures SetSoFar(n, t, qs, bits, 0, [])
  {
  }

  lemma LastStep(m: Hardware, n: nat, t: seq<Signed>, qs: seq<nat>, bits: seq<bool>, k: nat)
    requires Query(n, t, qs, bits) && 0 < k <= |qs|
    ensures var r := SetSteps(m, n, t, qs, bits, k - 1);
            var s := SetStep(m, n, r.0, qs[k - 1], bits[k - 1]);
            SetSteps(m, n, t, qs, bits, k) == (s.0, r.1 + if s.1 then [qs[k - 1]] else [])
  {
  }

  lemma StepSets(m: Hardware, n: nat, t: seq<Signed>, qs: seq<nat>, bits: seq<bool>, k: nat, inverts: seq<nat>,
                 t': seq<Signed>, inverts': seq<nat>)
    requires n <= m.width && SetSoFar(n, t, qs, bits, k, inverts) && Distinct(qs) && k < |qs|
    requires var s := SetStep(m, n, t, qs[k], bits[k]);
             t' == s.0 && inverts' == inverts + if s.1 then [qs[k]] else []
    ensures SetSoFar(n, t', qs, bits, k + 1, inverts')
  {
    var s := SetStep(m, n, t, qs[k], bits[k]);
    assert qs[k] !in qs[..k];
    assert qs[..k + 1] == qs[..k] + [qs[k]];
    ThisQubitSet(m, n, t, qs[k], bits[k]);
    forall i | 0 <= i < k + 1 ensures Stabilized(n, t', Turned(n, qs[i], bits[i], inverts')) {
      if i < k {
        assert (qs[i] in inverts') == (qs[i] in inverts);
        OtherQubitKept(m, n, t, qs[k], bits[k], qs[i], bits[i] != (qs[i] in inverts));
      } else {
        assert (qs[k] in inverts') == s.1;
      }
    }
  }

  lemma ThisQubitSet(m: Hardware, n: nat, t: seq<Signed>, q: nat, b: bool)
    requires n <= m.width && Good(n, t) && q < n
    ensures var s := SetStep(m, n, t, q, b); Good(n, s.0) && Stabilized(n, s.0, SignedZ(n, q, b != s.1))
  {
    if Determined(n, t, q) {
      OutcomeStabilizes(m, n, t, q);
    } else {
      CollapseKeepsGood(m, n, t, q, FirstX(n, t, q, n), b);
      CollapseAdds(m, n, t, q, FirstX(n, t, q, n), b);
    }
  }

  lemma OtherQubitKept(m: Hardware, n: nat, t: seq<Signed>, q: nat, b: bool, q': nat, b': bool)
    requires n <= m.width && Good(n, t) && q < n && q' < n && Stabilized(n, t, SignedZ(n, q', b'))
    ensures Stabilized(n, SetStep(m, n, t, q, b).0, SignedZ(n, q', b'))
  {
    if !Determined(n, t, q) {
      SpUnits(ZAt(n, q'), n, q);
      NarrowSumsAreExact(m, n, t, q, FirstX(n, t, q, n));
      CollapseKeeps(m, n, t, q, FirstX(n, t, q, n), b, SignedZ(n, q', b'));
    }
  }

  lemma FlipTurns(n: nat, t: seq<Signed>, q: nat, b: bool, v: nat)
    requires q < n && v < n && Stabilized(n, t, SignedZ(n, q, b))
    ensures Stabilized(n, Flipped(n, v, t), SignedZ(n, q, b != (q == v)))
  {
    FlipFlips(n, t, v, SignedZ(n, q, b));
    FlippedZ(n, q, b, v);
  }

  lemma FlippedZ(n: nat, q: nat, b: bool, v: nat)
    requires q < n && v < n
    ensures FlippedPauli(n, SignedZ(n, q, b), v) == SignedZ(n, q, b != (q == v))
  {
  }

  lemma {:induction false} FlipsTurn(n: nat, t: seq<Signed>, q: nat, b: bool, inverts: seq<nat>)
    requires q < n && Stabilized(n, t, SignedZ(n, q, b)) && Distinct(inverts)
    requires forall i :: 0 <= i < |inverts| ==> inverts[i] < n
    ensures Stabilized(n, FlippedAll(n, inverts, t), Turned(n, q, b, inverts))
  {
    if inverts != [] {
      var k := |inverts| - 1;
      FlipsTurn(n, t, q, b, inverts[..k]);
      FlipTurns(n, FlippedAll(n, inverts[..k], t), q, b != (q in inverts[..k]), inverts[k]);
      LastIsNew(inverts, q);
    }
  }

  lemma LastIsNew(s: seq<nat>, q: nat)
    requires s != [] && Distinct(s)
    ensures var k := |s| - 1; (q in s) == (q in s[..k] || q == s[k]) && !(q in s[..k] && q == s[k])
  {
    assert s == s[..|s| - 1] + [s[|s| - 1]];
  }

  // Setting several distinct qubits, when the rows fit one word: each of them
  // is then determined and has the requested value.
  lemma SetManyQubits(m: Hardware, n: nat, t: seq<Signed>, qs: seq<nat>, bits: seq<bool>)
    requires n <= m.width && Good(n, t) && Query(n, t, qs, bits) && Distinct(qs)
    ensures var r := SetSteps(m, n, t, qs, bits, |qs|);
            var t' := FlippedAll(n, r.1, r.0);
            forall i :: 0 <= i < |qs| ==> Determined(n, t', qs[i]) && Outcome(m, n, t', qs[i]) == bits[i]
  {
    var r := SetSteps(m, n, t, qs, bits, |qs|);
    StepsSet(m, n, t, qs, bits, |qs|);
    forall i | 0 <= i < |qs|
      ensures Determined(n, FlippedAll(n, r.1, r.0), qs[i]) && Outcome(m, n, FlippedAll(n, r.1, r.0), qs[i]) == bits[i]
    {
      FlipsTurn(n, r.0, qs[i], bits[i] != (qs[i] in r.1), r.1);
      OutcomeIsThatOfGroup(m, n, FlippedAll(n, r.1, r.0), qs[i], bits[i]);
    }
  }
}
