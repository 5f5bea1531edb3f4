// Commands, what they do to which qubits, and when two orders of a circuit
// mean the same.

module Circuits {

  datatype Kind = ZGate | Unitary | Deallocate | Immediate

  // A command of the compiler: `name` stands for the gate's matrix.
  datatype Cmd = Cmd(kind: Kind, name: nat, targets: seq<nat>, controls: seq<nat>, diag: bool) {
    ghost function Qubits(): set<nat> {
      (set q | q in targets) + (set q | q in controls)
    }

    // A controlled Z acts in the same way whichever of its qubits is called
    // the target, so only its set of qubits is part of the action. Nothing may
    // be moved across a command that is passed on at once.
    ghost function Action(): Action {
      match kind
      case ZGate => SymmetricZ(name, Qubits())
      case Immediate => Barrier(this)
      case _ => Apply(this)
    }
  }

  datatype Action = SymmetricZ(name: nat, on: set<nat>) | Apply(cmd: Cmd) | Barrier(cmd: Cmd) {
    ghost predicate Touches(q: nat) {
      match this
      case SymmetricZ(_, on) => q in on
      case Apply(cmd) => q in cmd.Qubits()
      case Barrier(_) => true
    }

    // The qubits whose order of actions this action is part of.
    ghost function Qubits(): iset<nat> {
      iset q: nat | Touches(q)
    }
  }

  ghost function Actions(s: seq<Cmd>): seq<Action> {
    seq(|s|, i requires 0 <= i < |s| => s[i].Action())
  }

  lemma ActionsConcat(s: seq<Cmd>, t: seq<Cmd>)
    ensures Actions(s + t) == Actions(s) + Actions(t)
  {
  }

  // ----- orders that respect every qubit ----------------------------------

  // The actions that touch q, in order.
  ghost function On(s: seq<Action>, q: nat): seq<Action> {
    if s == [] then [] else
    On(s[..|s| - 1], q) + if q in s[|s| - 1].Qubits() then [s[|s| - 1]] else []
  }

  // Each qubit sees the same actions in the same order.
  ghost predicate Equivalent(s: seq<Action>, t: seq<Action>) {
    forall q :: On(s, q) == On(t, q)
  }

  ghost predicate AllTouchQubits(s: seq<Action>) {
    forall i :: 0 <= i < |s| ==> s[i].Qubits() != iset{}
  }

  lemma {:induction false} OnConcat(s: seq<Action>, t: seq<Action>, q: nat)
    ensures On(s + t, q) == On(s, q) + On(t, q)
  {
    if t == [] {
      assert s + t == s;
    } else {
      var m := |t| - 1;
      assert (s + t)[..|s + t| - 1] == s + t[..m];
      OnConcat(s, t[..m], q);
    }
  }

  lemma EquivalentConcat(s: seq<Action>, s': seq<Action>, t: seq<Action>, t': seq<Action>)
    requires Equivalent(s, s') && Equivalent(t, t')
    ensures Equivalent(s + t, s' + t')
  {
    forall q ensures On(s + t, q) == On(s' + t', q) {
      OnConcat(s, t, q);
      OnConcat(s', t', q);
    }
  }

  lemma EquivalentTrans(s: seq<Action>, t: seq<Action>, u: seq<Action>)
    requires Equivalent(s, t) && Equivalent(t, u)
    ensures Equivalent(s, u)
  {
  }

  // Appending the same command to equivalent histories.
  lemma EquivalentAppend(s: seq<Cmd>, t: seq<Action>, c: Cmd)
    requires Equivalent(Actions(s), t)
    ensures Equivalent(Actions(s + [c]), t + [c.Action()])
    ensures Actions(s + [c]) == Actions(s) + [c.Action()]
  {
    ActionsConcat(s, [c]);
    assert Actions([c]) == [c.Action()];
    EquivalentConcat(Actions(s), t, [c.Action()], [c.Action()]);
  }

  lemma {:induction false} OnUntouched(s: seq<Action>, q: nat)
    requires forall i :: 0 <= i < |s| ==> q !in s[i].Qubits()
    ensures On(s, q) == []
  {
    if s != [] {
      OnUntouched(s[..|s| - 1], q);
    }
  }

  // What follows the same beginning is equivalent by itself.
  lemma EquivalentCancel(a: seq<Action>, s: seq<Action>, t: seq<Action>)
    requires Equivalent(a + s, a + t)
    ensures Equivalent(s, t)
  {
    forall q ensures On(s, q) == On(t, q) {
      OnConcat(a, s, q);
      OnConcat(a, t, q);
      assert (On(a, q) + On(s, q))[|On(a, q)|..] == On(s, q);
      assert (On(a, q) + On(t, q))[|On(a, q)|..] == On(t, q);
    }
  }

  // ----- meaning ----------------------------------------------------------

  // Runs the actions from left to right.
  ghost function Run<S>(sem: (Action, S) -> S, s: seq<Action>, st: S): S {
    if s == [] then st else Run(sem, s[1..], sem(s[0], st))
  }

  ghost predicate DisjointActionsCommute<S(!new)>(sem: (Action, S) -> S) {
    forall a: Action, b: Action, st: S {:trigger sem(a, sem(b, st))} ::
      a.Qubits() !! b.Qubits() && a.Qubits() != iset{} && b.Qubits() != iset{}
      ==> sem(a, sem(b, st)) == sem(b, sem(a, st))
  }

  lemma {:induction false} RunConcat<S>(sem: (Action, S) -> S, s: seq<Action>, t: seq<Action>, st: S)
    ensures Run(sem, s + t, st) == Run(sem, t, Run(sem, s, st))
  {
    if s == [] {
      assert s + t == t;
    } else {
      assert (s + t)[1..] == s[1..] + t;
      RunConcat(sem, s[1..], t, sem(s[0], st));
    }
  }

  // An action moves in front of actions it shares no qubit with.
  lemma {:induction false} MoveToFront<S(!new)>(sem: (Action, S) -> S, s: seq<Action>, a: Action, st: S)
    requires DisjointActionsCommute(sem)
    requires AllTouchQubits(s) && a.Qubits() != iset{}
    requires forall i :: 0 <= i < |s| ==> s[i].Qubits() !! a.Qubits()
    ensures sem(a, Run(sem, s, st)) == Run(sem, s, sem(a, st))
  {
    if s != [] {
      MoveToFront(sem, s[1..], a, sem(s[0], st));
      assert sem(a, sem(s[0], st)) == sem(s[0], sem(a, st));
    }
  }

  lemma {:induction false} OnFirst(s: seq<Action>, k: nat, q: nat)
    requires k < |s| && q in s[k].Qubits()
    requires forall i :: 0 <= i < k ==> q !in s[i].Qubits()
    ensures On(s, q) == [s[k]] + On(s[k + 1..], q)
  {
    OnUntouched(s[..k], q);
    OnConcat(s[..k], [s[k]], q);
    assert s[..k] + [s[k]] == s[..k + 1];
    assert s[..k + 1] + s[k + 1..] == s;
    OnConcat(s[..k + 1], s[k + 1..], q);
    assert [s[k]][..0] == [];
    assert On([s[k]], q) == [s[k]];
  }

  lemma {:induction false} OnSomewhere(s: seq<Action>, q: nat) returns (k: nat)
    requires On(s, q) != []
    ensures k < |s| && q in s[k].Qubits()
  {
    k := |s| - 1;
    if q !in s[k].Qubits() {
      k := OnSomewhere(s[..k], q);
    }
  }

  // The first action of t that shares a qubit with the head of s is that head.
  lemma HeadOccursFirst(s: seq<Action>, t: seq<Action>) returns (k: nat)
    requires Equivalent(s, t) && s != [] && s[0].Qubits() != iset{}
    ensures k < |t| && t[k] == s[0]
    ensures forall i :: 0 <= i < k ==> t[i].Qubits() !! s[0].Qubits()
  {
    var h := s[0];
    var q0 :| q0 in h.Qubits();
    OnFirst(s, 0, q0);
    var p := OnSomewhere(t, q0);
    k := 0;
    while t[k].Qubits() !! h.Qubits()
      invariant k <= p
      invariant forall i :: 0 <= i < k ==> t[i].Qubits() !! h.Qubits()
      decreases p - k
    {
      k := k + 1;
    }
    var q :| q in t[k].Qubits() && q in h.Qubits();
    OnFirst(t, k, q);
    OnFirst(s, 0, q);
    assert On(t, q)[0] == On(s, q)[0];
  }

  ghost function Except(s: seq<Action>, k: nat): seq<Action>
    requires k < |s|
  {
    s[..k] + s[k + 1..]
  }

  // Removing the first action on q, or an action that does not touch q.
  lemma OnExcept(s: seq<Action>, k: nat, q: nat)
    requires k < |s|
    requires q in s[k].Qubits() ==> forall i :: 0 <= i < k ==> q !in s[i].Qubits()
    ensures On(s, q) == (if q in s[k].Qubits() then [s[k]] else []) + On(Except(s, k), q)
  {
    OnConcat(s[..k], s[k + 1..], q);
    if q in s[k].Qubits() {
      OnUntouched(s[..k], q);
      OnFirst(s, k, q);
      assert On(Except(s, k), q) == On(s[k + 1..], q);
    } else {
      assert s == s[..k + 1] + s[k + 1..];
      OnConcat(s[..k + 1], s[k + 1..], q);
      assert s[..k + 1][..k] == s[..k];
      assert On(s[..k + 1], q) == On(s[..k], q);
    }
  }

  lemma RemoveHead(s: seq<Action>, t: seq<Action>, k: nat)
    requires Equivalent(s, t) && s != [] && k < |t| && t[k] == s[0]
    requires forall i :: 0 <= i < k ==> t[i].Qubits() !! s[0].Qubits()
    ensures Equivalent(s[1..], Except(t, k))
  {
    assert s[1..] == Except(s, 0);
    forall q ensures On(s[1..], q) == On(Except(t, k), q) {
      OnExcept(s, 0, q);
      OnExcept(t, k, q);
      var head := if q in s[0].Qubits() then [s[0]] else [];
      assert (head + On(s[1..], q))[|head|..] == On(s[1..], q);
      assert (head + On(Except(t, k), q))[|head|..] == On(Except(t, k), q);
    }
  }

  lemma NothingLeft(t: seq<Action>)
    requires Equivalent([], t) && AllTouchQubits(t)
    ensures t == []
  {
    if t != [] {
      var q :| q in t[0].Qubits();
      OnFirst(t, 0, q);
    }
  }

  // Nothing is lost and nothing is added.
  lemma {:induction false} EquivalentIsPermutation(s: seq<Action>, t: seq<Action>)
    requires Equivalent(s, t) && AllTouchQubits(s) && AllTouchQubits(t)
    ensures multiset(s) == multiset(t)
  {
    if s == [] {
      NothingLeft(t);
    } else {
      var k := HeadOccursFirst(s, t);
      RemoveHead(s, t, k);
      EquivalentIsPermutation(s[1..], Except(t, k));
      assert s == [s[0]] + s[1..];
      assert t == t[..k] + ([t[k]] + t[k + 1..]);
    }
  }

  // Reordering that respects every qubit keeps the meaning of a circuit, under
  // any semantics in which actions on disjoint qubits commute.
  lemma {:induction false} SameMeaning<S(!new)>(sem: (Action, S) -> S, s: seq<Action>, t: seq<Action>, st: S)
    requires Equivalent(s, t) && DisjointActionsCommute(sem)
    requires AllTouchQubits(s) && AllTouchQubits(t)
    ensures Run(sem, s, st) == Run(sem, t, st)
  {
    if s == [] {
      NothingLeft(t);
    } else {
      var k := HeadOccursFirst(s, t);
      RemoveHead(s, t, k);
      var a, b := t[..k], t[k + 1..];
      assert t == a + ([t[k]] + b);
      RunConcat(sem, a, [t[k]] + b, st);
      assert ([t[k]] + b)[1..] == b;
      MoveToFront(sem, a, t[k], st);
      RunConcat(sem, a, b, sem(t[k], st));
      SameMeaning(sem, s[1..], a + b, sem(s[0], st));
    }
  }

  // The same actions, in an order that no qubit can tell from the other.
  ghost predicate Reordered(s: seq<Action>, t: seq<Action>) {
    Equivalent(s, t) && AllTouchQubits(s) && AllTouchQubits(t)
  }

  // A reordering is a permutation, and gives the same result under every
  // semantics in which actions on different qubits commute.
  lemma ReorderedRuns<S(!new)>(sem: (Action, S) -> S, s: seq<Action>, t: seq<Action>, st: S)
    requires Reordered(s, t) && DisjointActionsCommute(sem)
    ensures multiset(s) == multiset(t) && Run(sem, s, st) == Run(sem, t, st)
  {
    EquivalentIsPermutation(s, t);
    SameMeaning(sem, s, t, st);
  }
}
