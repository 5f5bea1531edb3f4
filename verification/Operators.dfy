// Gates as operators on states: a state gives every set of qubits (those that
// are 1) its amplitude.

module Operators {
  import opened Sequences
  import opened Bits
  import opened QubitSwap
  import opened Complexes

  type Wave = set<nat> -> Complex
  type Matrix = seq<seq<Complex>>

  predicate IsMatrix(m: Matrix, k: nat) {
    |m| == Pow2(k) && forall i :: 0 <= i < |m| ==> |m[i]| == Pow2(k)
  }

  function Entry(m: Matrix, i: nat, j: nat): Complex {
    if i < |m| && j < |m[i]| then m[i][j] else ZERO
  }

  // The number the qubits idx spell in state a.
  ghost function Local(a: set<nat>, idx: seq<nat>): (x: nat)
    ensures x < Pow2(|idx|)
  {
    Address(a, idx, |idx|)
  }

  ghost function Spelled(idx: seq<nat>, j: nat): set<nat> {
    set l | 0 <= l < |idx| && Bit(j, l) :: idx[l]
  }

  // State a with the qubits idx set to spell j.
  ghost function With(a: set<nat>, idx: seq<nat>, j: nat): set<nat> {
    (set q | q in a && q !in idx) + Spelled(idx, j)
  }

  ghost function Terms(m: Matrix, idx: seq<nat>, psi: Wave, a: set<nat>): nat -> Complex {
    (j: nat) => Mul(Entry(m, Local(a, idx), j), psi(With(a, idx, j)))
  }

  // The matrix on the qubits idx, bit l of its indices being qubit idx[l].
  ghost function Apply(m: Matrix, idx: seq<nat>, psi: Wave): Wave {
    (a: set<nat>) => Sum(Terms(m, idx, psi, a), Pow2(|idx|))
  }

  // The controlled gate.
  ghost function Gate(m: Matrix, idx: seq<nat>, ctrls: set<nat>, psi: Wave): Wave {
    (a: set<nat>) => if ctrls <= a then Apply(m, idx, psi)(a) else psi(a)
  }

  ghost function Scaled(c: Complex, psi: Wave): Wave {
    (a: set<nat>) => Mul(c, psi(a))
  }

  // ----- states -----------------------------------------------------------

  lemma LocalBits(a: set<nat>, idx: seq<nat>, l: nat)
    ensures Bit(Local(a, idx), l) <==> l < |idx| && idx[l] in a
  {
    AddressBits(a, idx, |idx|, l);
  }

  lemma WithElements(a: set<nat>, idx: seq<nat>, j: nat, q: nat)
    requires Distinct(idx)
    ensures q !in idx ==> (q in With(a, idx, j) <==> q in a)
    ensures forall l :: 0 <= l < |idx| && idx[l] == q ==> (q in With(a, idx, j) <==> Bit(j, l))
  {
  }

  lemma WithLocal(a: set<nat>, idx: seq<nat>)
    requires Distinct(idx)
    ensures With(a, idx, Local(a, idx)) == a
  {
    forall q ensures q in With(a, idx, Local(a, idx)) <==> q in a {
      WithElements(a, idx, Local(a, idx), q);
      if q in idx {
        var l :| 0 <= l < |idx| && idx[l] == q;
        LocalBits(a, idx, l);
      }
    }
  }

  lemma LocalWith(a: set<nat>, idx: seq<nat>, j: nat)
    requires Distinct(idx) && j < Pow2(|idx|)
    ensures Local(With(a, idx, j), idx) == j
  {
    forall l: nat ensures Bit(Local(With(a, idx, j), idx), l) == Bit(j, l) {
      LocalBits(With(a, idx, j), idx, l);
      if l < |idx| {
        WithElements(a, idx, j, idx[l]);
      } else {
        HighBits(j, |idx|, l);
      }
    }
    SameBits(Local(With(a, idx, j), idx), j);
  }

  // Setting some of the qubits first makes no difference.
  lemma WithWithin(a: set<nat>, idx: seq<nat>, j: nat, list: seq<nat>, k: nat)
    requires Distinct(idx) && Distinct(list) && forall q :: q in idx ==> q in list
    ensures With(With(a, idx, j), list, k) == With(a, list, k)
  {
    forall q ensures q in With(With(a, idx, j), list, k) <==> q in With(a, list, k) {
      WithElements(With(a, idx, j), list, k, q);
      WithElements(a, list, k, q);
      WithElements(a, idx, j, q);
    }
  }

  // ----- operators --------------------------------------------------------

  // An operator reads the state only where idx is changed.
  lemma ApplySame(m: Matrix, idx: seq<nat>, psi: Wave, psi': Wave, a: set<nat>)
    requires forall j: nat :: j < Pow2(|idx|) ==> psi(With(a, idx, j)) == psi'(With(a, idx, j))
    ensures Apply(m, idx, psi)(a) == Apply(m, idx, psi')(a)
  {
    SumSame(Terms(m, idx, psi, a), Terms(m, idx, psi', a), Pow2(|idx|));
  }

  lemma ApplyScaled(m: Matrix, idx: seq<nat>, c: Complex, psi: Wave, a: set<nat>)
    ensures Apply(m, idx, Scaled(c, psi))(a) == Mul(c, Apply(m, idx, psi)(a))
  {
    var f, g := Terms(m, idx, psi, a), Terms(m, idx, Scaled(c, psi), a);
    forall j: nat | j < Pow2(|idx|) ensures g(j) == Mul(c, f(j)) {
      var e, x := Entry(m, Local(a, idx), j), psi(With(a, idx, j));
      MulAssociates(e, c, x);
      MulCommutes(e, c);
      MulAssociates(c, e, x);
    }
    SumScaled(c, f, g, Pow2(|idx|));
  }

  lemma ApplyZero(m: Matrix, idx: seq<nat>, psi: Wave, a: set<nat>)
    requires forall j: nat :: j < Pow2(|idx|) ==> psi(With(a, idx, j)) == ZERO
    ensures Apply(m, idx, psi)(a) == ZERO
  {
    forall j: nat | j < Pow2(|idx|) ensures Terms(m, idx, psi, a)(j) == ZERO {
      MulUnits(Entry(m, Local(a, idx), j));
    }
    SumOfZeros(Terms(m, idx, psi, a), Pow2(|idx|));
  }

  // A state that is 1 at one place and 0 elsewhere picks out one entry.
  lemma ApplyPoint(m: Matrix, idx: seq<nat>, psi: Wave, a: set<nat>, j: nat)
    requires j < Pow2(|idx|) && psi(With(a, idx, j)) == ONE
    requires forall j': nat :: j' < Pow2(|idx|) && j' != j ==> psi(With(a, idx, j')) == ZERO
    ensures Apply(m, idx, psi)(a) == Entry(m, Local(a, idx), j)
  {
    forall j': nat | j' < Pow2(|idx|) && j' != j ensures Terms(m, idx, psi, a)(j') == ZERO {
      MulUnits(Entry(m, Local(a, idx), j'));
    }
    SumOfOne(Terms(m, idx, psi, a), Pow2(|idx|), j);
    MulUnits(Entry(m, Local(a, idx), j));
  }
}
