// Gates as the two schedulers see them, and the declarative notion of
// "a set of gates that may be pulled to the front of the circuit".

module Gates {

  // A qubit mask: the set of positions whose bit is 1.
  type Mask = set<nat>

  datatype Gate = Gate(targets: Mask, controls: Mask, diag: bool) {
    function Qubits(): Mask { controls + targets }
  }

  // The gate can run without communication while `locals` are the local qubits.
  predicate Runnable(g: Gate, locals: Mask) {
    g.diag || g.targets <= locals
  }

  // `a` names gates of the list, and a gate is in `a` only together with every
  // earlier gate it shares a qubit with.
  ghost predicate DependencyClosed(gates: seq<Gate>, a: set<nat>) {
    && (forall i :: i in a ==> i < |gates|)
    && (forall i, j :: i in a && 0 <= j < i && j !in a ==> gates[i].Qubits() !! gates[j].Qubits())
  }

  // `a` can be executed first, in list order, under these local qubits.
  ghost predicate Plan(gates: seq<Gate>, a: set<nat>, locals: Mask) {
    && DependencyClosed(gates, a)
    && forall i :: i in a ==> Runnable(gates[i], locals)
  }

  // All qubits of the list are among `known`.
  ghost predicate Within(gates: seq<Gate>, known: Mask) {
    forall i :: 0 <= i < |gates| ==> gates[i].Qubits() <= known
  }

  // A set of positions below `n`, all of them if it has `n` members.
  lemma CardinalityBelow(a: set<nat>, n: nat)
    requires forall i :: i in a ==> i < n
    ensures |a| <= n
  {
    if n == 0 {
      assert a == {};
    } else {
      CardinalityBelow(a - {n - 1}, n - 1);
    }
  }

  lemma SubsetCardinality<T>(a: set<T>, b: set<T>)
    requires a <= b
    ensures |a| <= |b|
    ensures |a| == |b| ==> a == b
  {
    assert b == a + (b - a);
    assert |b| == |a| + |b - a|;
  }

  // The smallest member of a plan depends on no other gate.
  lemma FrontOfPlan(gates: seq<Gate>, a: set<nat>) returns (i: nat)
    requires DependencyClosed(gates, a) && a != {}
    ensures i in a && forall j :: 0 <= j < i ==> j !in a && gates[i].Qubits() !! gates[j].Qubits()
  {
    i :| i in a;
    while exists j :: j in a && j < i
      invariant i in a
      decreases i
    {
      var j :| j in a && j < i;
      i := j;
    }
  }

  ghost function UpperBound(s: Mask): (r: nat)
    ensures forall l :: l in s ==> l < r
  {
    if s == {} then 0 else
    var l :| l in s;
    var r := UpperBound(s - {l});
    assert forall l' :: l' in s ==> l' == l || l' in s - {l};
    if l < r then r else l + 1
  }
}
