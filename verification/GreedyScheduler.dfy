// hiq/projectq/cengines/_greedyscheduler.py: the compiler engine that reorders
// the cached circuit into clusters and qubit exchanges.

module GreedyScheduling {
  import opened Gates
  import opened Circuits
  import opened Sequences
  import ClusterScheduling
  import SwapScheduling

  // What the engine sends on to the simulator.
  datatype Event =
    | Send(cmd: Cmd)
    | Flush
    | Exchange(gToL: seq<nat>, lToG: seq<nat>)
    | Relabel(gToL: seq<nat>, lToG: seq<nat>)
    | Pass(cmd: Cmd, localsAfter: set<nat>)   // an allocation, deallocation or barrier

  function Masked(c: Cmd): Gate {
    Gate(Elements(c.targets), Elements(c.controls), c.diag)
  }

  function MaskedList(s: seq<Cmd>): (r: seq<Gate>)
    ensures |r| == |s| && forall i :: 0 <= i < |s| ==> r[i] == Masked(s[i])
  {
    seq(|s|, i requires 0 <= i < |s| => Masked(s[i]))
  }

  // ----- what has been sent -----------------------------------------------

  ghost function SentCmds(log: seq<Event>): seq<Cmd> {
    if log == [] then [] else
    var last := log[|log| - 1];
    SentCmds(log[..|log| - 1]) + if last.Send? || last.Pass? then [last.cmd] else []
  }

  ghost function LocalsAfterEvent(locals: set<nat>, e: Event): set<nat> {
    if e.Exchange? || e.Relabel? then (locals - Elements(e.lToG)) + Elements(e.gToL)
    else if e.Pass? then e.localsAfter
    else locals
  }

  ghost function LocalsAfter(locals: set<nat>, log: seq<Event>): set<nat> {
    if log == [] then locals else
    LocalsAfterEvent(LocalsAfter(locals, log[..|log| - 1]), log[|log| - 1])
  }

  // Every gate in the log was sent while it could run: it is diagonal or all
  // its targets were local.
  ghost predicate AllRunnable(locals: set<nat>, log: seq<Event>) {
    log == [] ||
    (AllRunnable(locals, log[..|log| - 1])
     && (log[|log| - 1].Send? ==> Runnable(Masked(log[|log| - 1].cmd), LocalsAfter(locals, log[..|log| - 1]))))
  }

  // The gates sent since the last other event.
  ghost function OpenSends(log: seq<Event>): seq<Cmd> {
    if log == [] || !log[|log| - 1].Send? then [] else OpenSends(log[..|log| - 1]) + [log[|log| - 1].cmd]
  }

  ghost function LocalQubits(cmds: seq<Cmd>, locals: set<nat>): set<nat> {
    set q | q in locals && exists c :: c in cmds && q in c.Qubits()
  }

  // One gate, or gates that share few enough local qubits to be fused.
  ghost predicate FitsCluster(cmds: seq<Cmd>, locals: set<nat>, size: int) {
    cmds != [] && (|cmds| == 1 || |LocalQubits(cmds, locals)| <= size)
  }

  // Gates are sent in clusters, and a flush closes every one of them before
  // anything else is sent.
  ghost predicate Clustered(locals: set<nat>, size: int, log: seq<Event>) {
    log == [] ||
    var before, e := log[..|log| - 1], log[|log| - 1];
    && Clustered(locals, size, before)
    && (e.Flush? ==> FitsCluster(OpenSends(before), LocalsAfter(locals, before), size))
    && (!e.Flush? && !e.Send? ==> OpenSends(before) == [])
  }

  lemma OneMoreInCluster(locals: set<nat>, size: int, log: seq<Event>, e: Event)
    ensures OpenSends(log + [e]) == if e.Send? then OpenSends(log) + [e.cmd] else []
    ensures Clustered(locals, size, log + [e])
            <==> && Clustered(locals, size, log)
                 && (e.Flush? ==> FitsCluster(OpenSends(log), LocalsAfter(locals, log), size))
                 && (!e.Flush? && !e.Send? ==> OpenSends(log) == [])
  {
    var log' := log + [e];
    assert log'[..|log'| - 1] == log;
  }

  lemma OneMoreEvent(locals: set<nat>, log: seq<Event>, e: Event)
    ensures SentCmds(log + [e]) == SentCmds(log) + if e.Send? || e.Pass? then [e.cmd] else []
    ensures LocalsAfter(locals, log + [e]) == LocalsAfterEvent(LocalsAfter(locals, log), e)
    ensures AllRunnable(locals, log + [e])
            <==> AllRunnable(locals, log) && (e.Send? ==> Runnable(Masked(e.cmd), LocalsAfter(locals, log)))
  {
    var log' := log + [e];
    assert log'[..|log'| - 1] == log;
  }

  lemma {:induction false} SentConcat(before: seq<Event>, more: seq<Event>)
    ensures SentCmds(before + more) == SentCmds(before) + SentCmds(more)
  {
    if more == [] {
      assert before + more == before;
    } else {
      var m := |more| - 1;
      assert (before + more)[..|before + more| - 1] == before + more[..m];
      SentConcat(before, more[..m]);
    }
  }

  // What the log has gained since it was `before`.
  ghost function SentSince(before: seq<Event>, log: seq<Event>): seq<Action>
    requires before <= log
  {
    Actions(SentCmds(log[|before|..]))
  }

  lemma SentSplits(before: seq<Event>, log: seq<Event>)
    requires before <= log
    ensures Actions(SentCmds(log)) == Actions(SentCmds(before)) + SentSince(before, log)
    ensures SentCmds(log) == SentCmds(before) + SentCmds(log[|before|..])
  {
    assert log == before + log[|before|..];
    SentConcat(before, log[|before|..]);
    ActionsConcat(SentCmds(before), SentCmds(log[|before|..]));
  }

  lemma Regroup<T>(a: seq<T>, b: seq<T>, c: seq<T>)
    ensures (a + b) + c == a + (b + c)
  {
  }

  ghost predicate Acts(c: Cmd) {
    c.Qubits() != {} || c.kind.Immediate?
  }

  ghost predicate AllAct(s: seq<Cmd>) {
    forall c :: c in s ==> Acts(c)
  }

  lemma AllTouch(s: seq<Cmd>)
    requires AllAct(s)
    ensures AllTouchQubits(Actions(s))
  {
    forall i | 0 <= i < |s| ensures s[i].Action().Qubits() != iset{} {
      var c := s[i];
      assert c in s;
      var q := if c.kind.Immediate? then 0 else var q :| q in c.Qubits(); q;
      assert q in c.Action().Qubits();
    }
  }

  // If the whole circuit kept its meaning and the log only grew, then what was
  // sent since, followed by what is left, is what was pending, reordered.
  lemma SentAndLeft(before: seq<Event>, pending: seq<Cmd>, log: seq<Event>, left: seq<Cmd>)
    requires before <= log
    requires AllAct(pending) && AllAct(left) && AllAct(SentCmds(log))
    requires Equivalent(Actions(SentCmds(log)) + Actions(left), Actions(SentCmds(before)) + Actions(pending))
    ensures Reordered(SentSince(before, log) + Actions(left), Actions(pending))
  {
    var first, since := Actions(SentCmds(before)), SentSince(before, log);
    SentSplits(before, log);
    Regroup(first, since, Actions(left));
    EquivalentCancel(first, since + Actions(left), Actions(pending));
    AllTouch(SentCmds(log[|before|..]));
    AllTouch(left);
    AllTouch(pending);
  }

  lemma AllSent(before: seq<Event>, pending: seq<Cmd>, log: seq<Event>)
    requires before <= log && AllAct(pending) && AllAct(SentCmds(log))
    requires Equivalent(Actions(SentCmds(log)), Actions(SentCmds(before)) + Actions(pending))
    ensures Reordered(SentSince(before, log), Actions(pending))
  {
    assert Actions(SentCmds(log)) + Actions([]) == Actions(SentCmds(log));
    SentAndLeft(before, pending, log, []);
    assert SentSince(before, log) + Actions([]) == SentSince(before, log);
  }

  // ----- taking gates out of a list ---------------------------------------

  ghost function Select(s: seq<Cmd>, a: set<nat>): seq<Cmd> {
    if s == [] then [] else
    var m := |s| - 1;
    Select(s[..m], a) + if m in a then [s[m]] else []
  }

  ghost function Reject(s: seq<Cmd>, a: set<nat>): seq<Cmd> {
    if s == [] then [] else
    var m := |s| - 1;
    Reject(s[..m], a) + if m in a then [] else [s[m]]
  }

  lemma {:induction false} RejectedAre(s: seq<Cmd>, a: set<nat>)
    ensures forall c :: c in Reject(s, a) <==> exists j :: 0 <= j < |s| && j !in a && s[j] == c
  {
    if s != [] {
      var m := |s| - 1;
      RejectedAre(s[..m], a);
      forall c ensures c in Reject(s, a) <==> exists j :: 0 <= j < |s| && j !in a && s[j] == c {
        if j :| 0 <= j < |s| && j !in a && s[j] == c {
          assert j < m ==> s[..m][j] == c;
        }
        if c in Reject(s[..m], a) {
          var j :| 0 <= j < m && j !in a && s[..m][j] == c;
          assert s[j] == c;
        }
      }
    }
  }

  // Gates of the set share no qubit with earlier ones outside it.
  ghost predicate EarlierApart(s: seq<Cmd>, a: set<nat>) {
    forall i, j :: i in a && i < |s| && 0 <= j < i && j !in a ==> s[i].Action().Qubits() !! s[j].Action().Qubits()
  }

  // Sending a dependency-closed set of gates first reorders only gates that
  // share no qubit.
  lemma {:induction false} PullingForwardIsEquivalent(s: seq<Cmd>, a: set<nat>)
    requires EarlierApart(s, a)
    ensures Equivalent(Actions(Select(s, a)) + Actions(Reject(s, a)), Actions(s))
  {
    if s != [] {
      var m := |s| - 1;
      var c, s0 := s[m], s[..m];
      PullingForwardIsEquivalent(s0, a);
      var sel, rej, x := Actions(Select(s0, a)), Actions(Reject(s0, a)), Actions([c]);
      assert s == s0 + [c];
      assert Actions(s) == Actions(s0) + x;
      EquivalentConcat(sel + rej, Actions(s0), x, x);
      if m in a {
        assert Actions(Select(s, a)) == sel + x;
        assert Actions(Reject(s, a)) == rej;
        RejectedDisjoint(s, a, c);
        InsertBefore(sel, rej, x, c.Action().Qubits());
      } else {
        assert Actions(Select(s, a)) == sel;
        assert Actions(Reject(s, a)) == rej + x;
        assert sel + (rej + x) == sel + rej + x;
      }
    }
  }

  ghost predicate Apart(t: seq<Action>, on: iset<nat>) {
    forall i :: 0 <= i < |t| ==> t[i].Qubits() !! on
  }

  lemma RejectedDisjoint(s: seq<Cmd>, a: set<nat>, c: Cmd)
    requires s != [] && |s| - 1 in a && c == s[|s| - 1]
    requires EarlierApart(s, a)
    ensures Apart(Actions(Reject(s[..|s| - 1], a)), c.Action().Qubits())
  {
    var s0 := s[..|s| - 1];
    RejectedAre(s0, a);
    var r := Reject(s0, a);
    forall i | 0 <= i < |r| ensures r[i].Action().Qubits() !! c.Action().Qubits() {
      assert r[i] in r;
    }
  }

  // Actions on other qubits may stand on either side of x.
  lemma InsertBefore(s: seq<Action>, t: seq<Action>, x: seq<Action>, on: iset<nat>)
    requires |x| == 1 && x[0].Qubits() == on
    requires Apart(t, on)
    ensures Equivalent(s + x + t, s + t + x)
  {
    forall q {
      OnSwapped(s, t, x, on, q);
    }
  }

  lemma OnSwapped(s: seq<Action>, t: seq<Action>, x: seq<Action>, on: iset<nat>, q: nat)
    requires |x| == 1 && x[0].Qubits() == on && Apart(t, on)
    ensures On(s + x + t, q) == On(s + t + x, q)
  {
    OnConcat(s + x, t, q);
    OnConcat(s, x, q);
    OnConcat(s + t, x, q);
    OnConcat(s, t, q);
    if q in on {
      OnUntouched(t, q);
      assert On(t, q) == [];
      assert On(s, q) + On(x, q) + [] == On(s, q) + [] + On(x, q);
    } else {
      OnUntouched(x, q);
      assert On(x, q) == [];
      assert On(s, q) + [] + On(t, q) == On(s, q) + On(t, q) + [];
    }
  }

  // Gate i depends on no earlier gate, and its targets are local or can be
  // made so by exchanging a control.
  ghost predicate CanStart(list: seq<Cmd>, i: nat, locals: set<nat>, globals: set<nat>) {
    && i < |list| && (Elements(list[i].targets) <= locals || Swappable(list[i], locals, globals))
    && forall j :: 0 <= j < i ==> list[i].Qubits() !! list[j].Qubits()
  }

  // Nothing in the list can run without an exchange.
  ghost predicate Stuck(list: seq<Cmd>, locals: set<nat>) {
    forall a :: Plan(MaskedList(list), a, locals) ==> a == {}
  }

  // Gate i depends on no earlier gate, and its targets are among `qubits`.
  ghost predicate FrontWithin(list: seq<Cmd>, i: nat, qubits: set<nat>) {
    && i < |list| && Elements(list[i].targets) <= qubits
    && forall j :: 0 <= j < i ==> list[i].Qubits() !! list[j].Qubits()
  }

  lemma FrontIsNotStuck(list: seq<Cmd>, i: nat, locals: set<nat>)
    requires FrontWithin(list, i, locals)
    ensures !Stuck(list, locals)
  {
    assert Plan(MaskedList(list), {i}, locals);
    assert i in {i};
  }

  // ----- preparing a controlled Z -----------------------------------------

  // The place of the first local control, or the number of controls.
  function FirstLocal(ctrls: seq<nat>, locals: set<nat>): (i: nat)
    ensures i <= |ctrls| && (i < |ctrls| ==> ctrls[i] in locals)
    ensures forall k :: 0 <= k < i ==> ctrls[k] !in locals
  {
    if ctrls == [] || ctrls[0] in locals then 0 else 1 + FirstLocal(ctrls[1..], locals)
  }

  // A controlled Z on a global target has it exchanged with its first local control.
  function Prepared(c: Cmd, locals: set<nat>, globals: set<nat>): Cmd {
    if c.kind.ZGate? && |c.targets| == 1 && c.targets[0] in globals then
      var i := FirstLocal(c.controls, locals);
      if i < |c.controls| then c.(targets := [c.controls[i]], controls := c.controls[i := c.targets[0]]) else c
    else c
  }

  ghost function PreparedList(list: seq<Cmd>, locals: set<nat>, globals: set<nat>): (r: seq<Cmd>)
    ensures |r| == |list| && forall i :: 0 <= i < |list| ==> r[i] == Prepared(list[i], locals, globals)
  {
    seq(|list|, i requires 0 <= i < |list| => Prepared(list[i], locals, globals))
  }

  // It acts as before on the same qubits. If it can have a local target it has one.
  lemma PreparedIs(c: Cmd, locals: set<nat>, globals: set<nat>)
    ensures var c' := Prepared(c, locals, globals);
            && c'.kind == c.kind && |c'.targets| == |c.targets|
            && c'.Action() == c.Action() && c'.Qubits() == c.Qubits()
            && |Elements(c'.targets)| == |Elements(c.targets)|
            && (locals !! globals && Elements(c.targets) <= locals ==> c' == c)
            && (Swappable(c, locals, globals) ==> Elements(c'.targets) <= locals)
            && (!Swappable(c, locals, globals) ==> c' == c)
  {
    if Swappable(c, locals, globals) {
      var i := FirstLocal(c.controls, locals);
      var q :| q in c.controls && q in locals;
      var k :| 0 <= k < |c.controls| && c.controls[k] == q;
      assert k >= i;
      ExchangedSame(c, Prepared(c, locals, globals), i);
      assert c.targets[0] in Elements(c.targets);
    }
  }

  ghost predicate Swappable(c: Cmd, locals: set<nat>, globals: set<nat>) {
    c.kind.ZGate? && |c.targets| == 1 && c.targets[0] in globals && exists q :: q in c.controls && q in locals
  }

  // ----- sending clusters -------------------------------------------------

  function Sends(cmds: seq<Cmd>): seq<Event> {
    seq(|cmds|, i requires 0 <= i < |cmds| => Send(cmds[i]))
  }

  // What is left of the list, and what has been sent, after these clusters.
  ghost function Remaining(list: seq<Cmd>, clusters: seq<set<nat>>): seq<Cmd> {
    if clusters == [] then list else
    Reject(Remaining(list, clusters[..|clusters| - 1]), clusters[|clusters| - 1])
  }

  ghost function ClusterEvents(list: seq<Cmd>, clusters: seq<set<nat>>): seq<Event> {
    if clusters == [] then [] else
    var k := |clusters| - 1;
    ClusterEvents(list, clusters[..k]) + ClusterEvent(Remaining(list, clusters[..k]), clusters[k])
  }

  ghost function ClusterEvent(list: seq<Cmd>, a: set<nat>): seq<Event> {
    Sends(Select(list, a)) + [Flush]
  }

  lemma Appended(log: seq<Event>, more: seq<Event>, mid: seq<Event>, rest: seq<Event>, log': seq<Event>)
    requires mid == log + more && log' == mid + rest
    ensures log' == log + (more + rest)
  {
  }

  lemma SendsMore(cmds: seq<Cmd>, c: Cmd)
    ensures Sends(cmds + [c]) == Sends(cmds) + [Send(c)]
  {
  }

  ghost predicate IsBest(list: seq<Cmd>, locals: set<nat>, size: int, a: set<nat>) {
    ClusterScheduling.Problem(MaskedList(list), locals, size).BestCluster(a)
  }

  // Each cluster was the best there was: as many gates as can be fused, on as
  // few qubits, or the first gate that can run when none fits a cluster.
  ghost predicate AllBest(list: seq<Cmd>, locals: set<nat>, size: int, clusters: seq<set<nat>>) {
    clusters == [] ||
    var k := |clusters| - 1;
    AllBest(list, locals, size, clusters[..k]) && IsBest(Remaining(list, clusters[..k]), locals, size, clusters[k])
  }

  lemma OneMoreCluster(list: seq<Cmd>, locals: set<nat>, size: int, clusters: seq<set<nat>>, a: set<nat>)
    ensures var more := clusters + [a];
            && Remaining(list, more) == Reject(Remaining(list, clusters), a)
            && ClusterEvents(list, more) == ClusterEvents(list, clusters) + ClusterEvent(Remaining(list, clusters), a)
            && (AllBest(list, locals, size, more)
                <==> AllBest(list, locals, size, clusters) && IsBest(Remaining(list, clusters), locals, size, a))
  {
    assert (clusters + [a])[..|clusters|] == clusters;
  }

  // The best cluster fits, so the flush that closes it is in order.
  lemma BestFits(list: seq<Cmd>, locals: set<nat>, size: int, avail: seq<nat>)
    requires IsBest(list, locals, size, Elements(avail)) && Increasing(avail)
    ensures FitsCluster(Select(list, Elements(avail)), locals, size)
  {
    var p, a := ClusterScheduling.Problem(MaskedList(list), locals, size), Elements(avail);
    var sel := Select(list, a);
    SelectedAre(list, a);
    CountElements(avail);
    SelectSize(list, avail);
    if c :| p.Largest(c, a) {
      forall q | q in LocalQubits(sel, locals) ensures q in c {
        var x :| x in sel && q in x.Qubits();
        var i :| 0 <= i < |list| && i in a && list[i] == x;
        assert p.gates[i].Qubits() == x.Qubits();
      }
      assert LocalQubits(sel, locals) <= c;
      SubsetCardinality(LocalQubits(sel, locals), c);
    }
  }

  lemma SelectSize(list: seq<Cmd>, avail: seq<nat>)
    requires Increasing(avail) && forall i :: i in Elements(avail) ==> i < |list|
    ensures |Select(list, Elements(avail))| == |avail|
  {
    assert forall i :: 0 <= i < |avail| ==> avail[i] in Elements(avail);
    SelectByPlaces(list, avail);
  }

  lemma {:induction false} SelectedAre(s: seq<Cmd>, a: set<nat>)
    ensures forall c :: c in Select(s, a) ==> exists j :: 0 <= j < |s| && j in a && s[j] == c
  {
    if s != [] {
      var m := |s| - 1;
      SelectedAre(s[..m], a);
      forall c | c in Select(s, a) ensures exists j :: 0 <= j < |s| && j in a && s[j] == c {
        if c in Select(s[..m], a) {
          var j :| 0 <= j < m && j in a && s[..m][j] == c;
          assert s[j] == c;
        } else {
          assert s[m] == c;
        }
      }
    }
  }

  // ----- choosing an exchange ---------------------------------------------

  ghost function PlainProblem(gates: seq<Gate>, numLocals: nat): SwapScheduling.Problem {
    SwapScheduling.Problem(gates, seq(|gates|, _ => 1), numLocals)
  }

  ghost function FusedProblem(gates: seq<Gate>, numLocals: nat): (p: SwapScheduling.Problem)
    ensures |p.gates| == |p.weights|
  {
    SwapScheduling.Problem(SwapScheduling.FusedList(gates).0, SwapScheduling.FusedList(gates).1, numLocals)
  }

  // The fused list is searched first, the list itself only if that finds no
  // qubit to make local.
  ghost function SearchedProblem(gates: seq<Gate>, splits: nat, numLocals: nat): (p: SwapScheduling.Problem)
    ensures |p.gates| == |p.weights|
  {
    if FusedProblem(gates, numLocals).Search(0, {}, {}, splits).locals != {} then FusedProblem(gates, numLocals)
    else PlainProblem(gates, numLocals)
  }

  // The qubits the search wants local, and how many gates can run with them.
  ghost function Wanted(gates: seq<Gate>, splits: nat, numLocals: nat): SwapScheduling.Found {
    SearchedProblem(gates, splits, numLocals).Search(0, {}, {}, splits)
  }

  // The gates of a, as many as the search found, can run on these local
  // qubits; they are no fewer than the greedy choice allows, and with splits
  // enough no plan of the searched list weighs more.
  ghost predicate Enables(gates: seq<Gate>, splits: nat, numLocals: nat, locals: set<nat>, a: set<nat>) {
    && Plan(gates, a, locals) && |a| == Wanted(gates, splits, numLocals).gain
    && SwapScheduling.Promised(SearchedProblem(gates, splits, numLocals), splits, |a|)
  }

  ghost predicate ExchangeIs(list: seq<Cmd>, locals: set<nat>, splits: nat, gToL: seq<nat>, lToG: seq<nat>) {
    var want := Wanted(MaskedList(list), splits, |locals|).locals;
    && Increasing(gToL) && Elements(gToL) == want - locals
    && |lToG| == |gToL| && FirstOf(lToG, locals - want)
  }

  // The smallest elements of a set, ascending.
  ghost predicate FirstOf(s: seq<nat>, a: set<nat>) {
    && Increasing(s) && Elements(s) <= a
    && forall q, i :: q in a && q !in Elements(s) && 0 <= i < |s| ==> s[i] < q
  }

  lemma PrefixIsFirst(lst: seq<nat>, a: set<nat>, k: nat)
    requires Increasing(lst) && Elements(lst) == a && k <= |lst|
    ensures FirstOf(lst[..k], a)
  {
    forall j | 0 <= j < k ensures lst[j] in Elements(lst[..k]) {
      assert lst[..k][j] == lst[j];
    }
    forall q, i | q in a && q !in Elements(lst[..k]) && 0 <= i < k ensures lst[i] < q {
      assert q in Elements(lst);
      var j :| 0 <= j < |lst| && lst[j] == q;
    }
  }

  ghost function LocalsWith(locals: set<nat>, gToL: seq<nat>, lToG: seq<nat>): set<nat> {
    (locals - Elements(lToG)) + Elements(gToL)
  }

  // ----- stages -----------------------------------------------------------

  datatype State = State(list: seq<Cmd>, locals: set<nat>, globals: set<nat>)

  // An exchange and the clusters sent after it.
  datatype Stage = Stage(gToL: seq<nat>, lToG: seq<nat>, clusters: seq<set<nat>>)

  ghost function Traded(s: State, gToL: seq<nat>, lToG: seq<nat>): State {
    State(s.list, LocalsWith(s.locals, gToL, lToG), LocalsWith(s.globals, lToG, gToL))
  }

  ghost function PreparedIn(s: State): seq<Cmd> {
    PreparedList(s.list, s.locals, s.globals)
  }

  ghost function AfterClusters(s: State, clusters: seq<set<nat>>): State {
    s.(list := Remaining(PreparedIn(s), clusters))
  }

  // The best clusters one after the other, until nothing can run.
  ghost predicate ClustersOk(s: State, size: int, clusters: seq<set<nat>>) {
    AllBest(PreparedIn(s), s.locals, size, clusters) && Stuck(AfterClusters(s, clusters).list, s.locals)
  }

  ghost function AfterStage(s: State, stage: Stage): State {
    AfterClusters(Traded(s, stage.gToL, stage.lToG), stage.clusters)
  }

  ghost predicate ExchangeOk(s: State, splits: nat, stage: Stage) {
    && ExchangeIs(s.list, s.locals, splits, stage.gToL, stage.lToG)
    && exists a :: Enables(MaskedList(s.list), splits, |s.locals|, LocalsWith(s.locals, stage.gToL, stage.lToG), a)
  }

  ghost predicate StageOk(s: State, size: int, splits: nat, stage: Stage) {
    ExchangeOk(s, splits, stage) && ClustersOk(Traded(s, stage.gToL, stage.lToG), size, stage.clusters)
  }

  ghost function StageEvents(s: State, event: Event, stage: Stage): seq<Event> {
    [event] + ClusterEvents(PreparedIn(Traded(s, stage.gToL, stage.lToG)), stage.clusters)
  }

  // A sequence of stages: the state after it, what it sends, and whether every
  // exchange and every cluster is the one that the searches choose.
  ghost function StateAfter(s: State, stages: seq<Stage>): State {
    if stages == [] then s else AfterStage(StateAfter(s, stages[..|stages| - 1]), stages[|stages| - 1])
  }

  ghost function EventsOf(s: State, stages: seq<Stage>): seq<Event> {
    if stages == [] then [] else
    var k := |stages| - 1;
    EventsOf(s, stages[..k])
    + StageEvents(StateAfter(s, stages[..k]), Exchange(stages[k].gToL, stages[k].lToG), stages[k])
  }

  ghost predicate StagesOk(s: State, size: int, splits: nat, stages: seq<Stage>) {
    stages == [] ||
    var k := |stages| - 1;
    StagesOk(s, size, splits, stages[..k]) && StageOk(StateAfter(s, stages[..k]), size, splits, stages[k])
  }

  lemma OneMoreStage(s: State, size: int, splits: nat, stages: seq<Stage>, stage: Stage)
    ensures var more, t := stages + [stage], StateAfter(s, stages);
            && StateAfter(s, more) == AfterStage(t, stage)
            && EventsOf(s, more) == EventsOf(s, stages) + StageEvents(t, Exchange(stage.gToL, stage.lToG), stage)
            && (StagesOk(s, size, splits, more) <==> StagesOk(s, size, splits, stages) && StageOk(t, size, splits, stage))
  {
    assert (stages + [stage])[..|stages|] == stages;
  }

  // The whole schedule. The first time the qubits are relabelled before the
  // first clusters, later there is no exchange before them.
  datatype Schedule = Schedule(first: Stage, stages: seq<Stage>)

  ghost predicate FirstOk(s: State, wasScheduling: bool, size: int, splits: nat, first: Stage) {
    && (if wasScheduling then first.gToL == [] && first.lToG == [] else ExchangeOk(s, splits, first))
    && ClustersOk(Traded(s, first.gToL, first.lToG), size, first.clusters)
  }

  ghost predicate ScheduleOk(s: State, wasScheduling: bool, size: int, splits: nat, x: Schedule) {
    && FirstOk(s, wasScheduling, size, splits, x.first)
    && StagesOk(AfterStage(s, x.first), size, splits, x.stages)
    && StateAfter(AfterStage(s, x.first), x.stages).list == []
  }

  ghost function Relabelling(wasScheduling: bool, gToL: seq<nat>, lToG: seq<nat>): seq<Event> {
    if wasScheduling then [] else [Relabel(gToL, lToG)]
  }

  ghost function FirstEvents(s: State, wasScheduling: bool, first: Stage): seq<Event> {
    Relabelling(wasScheduling, first.gToL, first.lToG)
    + ClusterEvents(PreparedIn(Traded(s, first.gToL, first.lToG)), first.clusters)
  }

  ghost function ScheduleEvents(s: State, wasScheduling: bool, x: Schedule): seq<Event> {
    FirstEvents(s, wasScheduling, x.first) + EventsOf(AfterStage(s, x.first), x.stages)
  }

  // ----- the engine -------------------------------------------------------

  class GreedyScheduler {
    const numSplits: nat
    const clusterSize: int
    ghost const locals0: set<nat>   // the local qubits when the log was empty
    var cmdList: seq<Cmd>
    var wasScheduling: bool
    var deallocations: seq<Cmd>
    var locals: set<nat>
    var globals: set<nat>
    var log: seq<Event>

    constructor (numSplits: nat, clusterSize: int, locals: set<nat>, globals: set<nat>)
      requires locals !! globals
      ensures Valid() && log == [] && cmdList == [] && deallocations == []
    {
      this.numSplits, this.clusterSize := numSplits, clusterSize;
      this.locals, this.globals, locals0 := locals, globals, locals;
      cmdList, wasScheduling, deallocations, log := [], false, [], [];
    }

    ghost predicate Valid()
      reads this
    {
      Consistent() && OpenSends(log) == []
    }

    // What holds also while a cluster is being sent.
    ghost predicate Consistent()
      reads this
    {
      && locals !! globals
      && Clustered(locals0, clusterSize, log)
      && locals == LocalsAfter(locals0, log) && AllRunnable(locals0, log)
      && AllAct(SentCmds(log))
      && (forall i :: 0 <= i < |cmdList| ==> CmdOk(cmdList[i]))
    }

    // A cached gate acts on allocated qubits; a Z gate has a single target.
    ghost predicate CmdOk(c: Cmd)
      reads this
    {
      && c.Qubits() != {} && c.Qubits() <= locals + globals
      && (c.kind.ZGate? ==> |c.targets| == 1)
      && (c.kind.ZGate? || c.kind.Unitary?)
    }

    ghost function Now(): State
      reads this
    {
      State(cmdList, locals, globals)
    }

    // The whole circuit: what was sent followed by what is still cached.
    ghost function Circuit(): seq<Action>
      reads this
    {
      Actions(SentCmds(log)) + Actions(cmdList)
    }

    method SendGate(c: Cmd)
      requires Consistent() && Runnable(Masked(c), locals) && CmdOk(c)
      modifies this`log
      ensures Consistent() && log == old(log) + [Send(c)]
      ensures SentCmds(log) == old(SentCmds(log)) + [c] && OpenSends(log) == old(OpenSends(log)) + [c]
    {
      OneMoreEvent(locals0, log, Send(c));
      OneMoreInCluster(locals0, clusterSize, log, Send(c));
      log := log + [Send(c)];
    }

    // Closes a cluster.
    method SendFlush()
      requires Consistent() && FitsCluster(OpenSends(log), locals, clusterSize)
      modifies this`log
      ensures Valid() && log == old(log) + [Flush]
      ensures SentCmds(log) == old(SentCmds(log))
    {
      OneMoreEvent(locals0, log, Flush);
      OneMoreInCluster(locals0, clusterSize, log, Flush);
      log := log + [Flush];
    }

    // The simulator exchanges the qubits pairwise as soon as it is told to.
    method SendExchange(gToL: seq<nat>, lToG: seq<nat>, event: Event)
      requires Valid() && Elements(gToL) <= globals && Elements(lToG) <= locals
      requires event == Exchange(gToL, lToG) || event == Relabel(gToL, lToG)
      modifies this`log, this`locals, this`globals
      ensures Valid() && log == old(log) + [event]
      ensures SentCmds(log) == old(SentCmds(log))
      ensures Now() == Traded(old(Now()), gToL, lToG)
    {
      OneMoreEvent(locals0, log, event);
      OneMoreInCluster(locals0, clusterSize, log, event);
      log := log + [event];
      locals, globals := (locals - Elements(lToG)) + Elements(gToL), (globals - Elements(gToL)) + Elements(lToG);
      assert locals + globals == old(locals + globals);
    }

    // A controlled Z on a global target with a local control has the two exchanged.
    method PrepareControlledZ()
      requires Valid()
      modifies this`cmdList
      ensures Valid() && cmdList == PreparedList(old(cmdList), locals, globals)
      ensures Actions(cmdList) == old(Actions(cmdList))
      // its target is local then; every other command stays as it is
      ensures forall i :: 0 <= i < |cmdList| && Swappable(old(cmdList)[i], locals, globals)
                          ==> Elements(cmdList[i].targets) <= locals
      ensures forall i :: 0 <= i < |cmdList| && !Swappable(old(cmdList)[i], locals, globals)
                          ==> cmdList[i] == old(cmdList)[i]
    {
      for i := 0 to |cmdList|
        invariant Valid() && |cmdList| == |old(cmdList)|
        invariant forall k :: 0 <= k < |cmdList|
                              ==> cmdList[k] == if k < i then Prepared(old(cmdList)[k], locals, globals) else old(cmdList)[k]
      {
        PreparedIs(cmdList[i], locals, globals);
        if cmdList[i].kind.ZGate? {
          var c := ExchangeTarget(cmdList[i]);
          cmdList := cmdList[i := c];
        }
      }
      forall i | 0 <= i < |cmdList|
        ensures cmdList[i].Action() == old(cmdList)[i].Action()
        ensures Swappable(old(cmdList)[i], locals, globals) ==> Elements(cmdList[i].targets) <= locals
        ensures !Swappable(old(cmdList)[i], locals, globals) ==> cmdList[i] == old(cmdList)[i]
      {
        PreparedIs(old(cmdList)[i], locals, globals);
      }
    }

    method ExchangeTarget(c: Cmd) returns (r: Cmd)
      requires c.kind.ZGate? && |c.targets| == 1
      ensures r == Prepared(c, locals, globals)
    {
      r := c;
      if c.targets[0] in globals {
        for i := 0 to |c.controls|
          invariant FirstLocal(c.controls, locals) == i + FirstLocal(c.controls[i..], locals)
        {
          if c.controls[i] in locals {
            r := c.(targets := [c.controls[i]], controls := c.controls[i := c.targets[0]]);
            return;
          }
          assert c.controls[i..][1..] == c.controls[i + 1..];
        }
      }
    }

    // Sends clusters until nothing can run on the local qubits.
    method CallClusterScheduler() returns (ghost clusters: seq<set<nat>>)
      requires Valid()
      modifies this`cmdList, this`log
      ensures Valid() && Equivalent(Circuit(), old(Circuit()))
      // each of these clusters was the best, and a flush closes it
      ensures ClustersOk(old(Now()), clusterSize, clusters) && Now() == AfterClusters(old(Now()), clusters)
      ensures log == old(log) + ClusterEvents(PreparedIn(old(Now())), clusters)
      ensures |cmdList| <= |old(cmdList)| && forall size :: Fits(old(cmdList), size) ==> Fits(cmdList, size)
      // a gate at the front of its qubits is sent if its targets are local, or
      // can be made so by exchanging a control
      ensures (exists i :: old(CanStart(cmdList, i, locals, globals))) ==> |cmdList| < |old(cmdList)|
    {
      PrepareControlledZ();
      ghost var prepared := cmdList;
      clusters := [];
      assert log == old(log) + [];
      while true
        invariant Valid() && cmdList == Remaining(prepared, clusters) && AllBest(prepared, locals, clusterSize, clusters)
        invariant cmdList == prepared || |cmdList| < |prepared|
        invariant forall c :: c in cmdList ==> c in prepared
        invariant log == old(log) + ClusterEvents(prepared, clusters)
        invariant Equivalent(Circuit(), old(Circuit()))
        decreases |cmdList|
      {
        var p := ClusterScheduling.Problem(MaskedList(cmdList), locals, clusterSize);
        var scheduler := new ClusterScheduling.ClusterScheduler(p);
        var avail := scheduler.ScheduleCluster();
        if |avail| == 0 {
          break;
        }
        OneMoreCluster(prepared, locals, clusterSize, clusters, Elements(avail));
        ghost var before := log;
        SendCluster(avail);
        Appended(old(log), ClusterEvents(prepared, clusters), before, ClusterEvent(Remaining(prepared, clusters), Elements(avail)), log);
        clusters := clusters + [Elements(avail)];
      }
      PreparedFits(old(cmdList), locals, globals);
      if i :| old(CanStart(cmdList, i, locals, globals)) {
        StartIsNotStuck(old(cmdList), i, locals, globals);
      }
    }

    // Sends the gates at these places and removes them from the list.
    method SendCluster(avail: seq<nat>)
      requires Valid() && avail != [] && Increasing(avail)
      requires IsBest(cmdList, locals, clusterSize, Elements(avail))
      modifies this`cmdList, this`log
      ensures Valid() && |cmdList| == |old(cmdList)| - |avail|
      ensures log == old(log) + ClusterEvent(old(cmdList), Elements(avail))
      ensures cmdList == Reject(old(cmdList), Elements(avail))
      ensures Equivalent(Circuit(), old(Circuit()))
      ensures forall c :: c in cmdList ==> c in old(cmdList)
    {
      ghost var a, list, sent := Elements(avail), cmdList, SentCmds(log);
      SendPlaces(avail);
      BestFits(cmdList, locals, clusterSize, avail);
      ghost var mid := log;
      SendFlush();
      Appended(old(log), Sends(Select(list, a)), mid, [Flush], log);
      cmdList := RemovePlaces(cmdList, avail);
      TakingOut(sent, list, a);
      RejectedAre(list, a);
      forall i | 0 <= i < |cmdList| ensures CmdOk(cmdList[i]) {
        assert cmdList[i] in Reject(list, a);
      }
    }

    // The gates at these places can be sent.
    ghost predicate PlacesOk(avail: seq<nat>)
      reads this
    {
      forall k :: 0 <= k < |avail| ==>
        avail[k] < |cmdList| && Runnable(Masked(cmdList[avail[k]]), locals) && CmdOk(cmdList[avail[k]])
    }

    lemma PlacesRunnable(avail: seq<nat>)
      requires Consistent() && Plan(MaskedList(cmdList), Elements(avail), locals)
      ensures PlacesOk(avail)
    {
      forall k | 0 <= k < |avail|
        ensures avail[k] < |cmdList| && Runnable(Masked(cmdList[avail[k]]), locals) && CmdOk(cmdList[avail[k]])
      {
        assert avail[k] in Elements(avail);
      }
    }

    // The first k of them have been sent since the log was log0.
    ghost predicate PlacesSent(log0: seq<Event>, avail: seq<nat>, k: nat)
      requires PlacesOk(avail) && k <= |avail|
      reads this
    {
      var picked := Pick(cmdList, avail[..k]);
      && log == log0 + Sends(picked) && OpenSends(log) == picked
      && SentCmds(log) == SentCmds(log0) + picked
    }

    method SendPlaces(avail: seq<nat>)
      requires Valid() && Increasing(avail)
      requires Plan(MaskedList(cmdList), Elements(avail), locals)
      modifies this`log
      ensures Consistent() && forall i :: 0 <= i < |avail| ==> avail[i] < |cmdList|
      ensures log == old(log) + Sends(Select(cmdList, Elements(avail)))
      ensures SentCmds(log) == old(SentCmds(log)) + Select(cmdList, Elements(avail))
      ensures OpenSends(log) == Select(cmdList, Elements(avail))
    {
      PlacesRunnable(avail);
      assert log == old(log) + Sends(Pick(cmdList, avail[..0]));
      for k := 0 to |avail|
        invariant Consistent() && PlacesOk(avail) && PlacesSent(old(log), avail, k)
      {
        SendPlace(avail, k, old(log));
      }
      assert avail[..|avail|] == avail;
      SelectByPlaces(cmdList, avail);
    }

    method SendPlace(avail: seq<nat>, k: nat, ghost log0: seq<Event>)
      requires Consistent() && k < |avail| && PlacesOk(avail) && PlacesSent(log0, avail, k)
      modifies this`log
      ensures Consistent() && PlacesOk(avail) && PlacesSent(log0, avail, k + 1)
    {
      ghost var mid := log;
      SendGate(cmdList[avail[k]]);
      PickMore(cmdList, avail, k, log0, mid, log);
    }

    // The qubits to exchange: those the search wants local and that are not,
    // and as many local ones it does not want.
    method CallSwapScheduler() returns (gToL: seq<nat>, lToG: seq<nat>, ghost a: set<nat>, ghost front: nat)
      requires Valid() && cmdList != [] && Fits(cmdList, |locals|)
      ensures Elements(gToL) <= globals && Elements(lToG) <= locals
      ensures ExchangeIs(cmdList, locals, numSplits, gToL, lToG)
      ensures Increasing(gToL) && Increasing(lToG)
      // these gates, as many as the search finds, can run after the exchange
      ensures Enables(MaskedList(cmdList), numSplits, |locals|, LocalsWith(locals, gToL, lToG), a)
      // when nothing can run, it makes the targets of some gate local
      ensures Stuck(cmdList, locals) ==> gToL != [] && FrontWithin(cmdList, front, LocalsWith(locals, gToL, lToG))
    {
      var gates := MaskedList(cmdList);
      var newLocals;
      assert cmdList[0] in cmdList;
      newLocals, a := SearchLocals(gates, numSplits, |locals|);
      front := FrontOfPlan(gates, a);
      QubitsKnown(gates);
      assert newLocals <= locals + globals;
      gToL, lToG := ChooseExchange(newLocals);
      if Stuck(cmdList, locals) {
        NewLocalsNeeded(gates, a, newLocals, front);
      }
    }

    lemma QubitsKnown(gates: seq<Gate>)
      requires Valid() && gates == MaskedList(cmdList)
      ensures Within(gates, locals + globals)
    {
      forall i | 0 <= i < |gates| ensures gates[i].Qubits() <= locals + globals {
        assert gates[i].Qubits() == cmdList[i].Qubits();
      }
    }

    lemma NewLocalsNeeded(gates: seq<Gate>, a: set<nat>, newLocals: set<nat>, front: nat)
      requires gates == MaskedList(cmdList) && Stuck(cmdList, locals) && Plan(gates, a, newLocals)
      requires front in a && forall j :: 0 <= j < front ==> gates[front].Qubits() !! gates[j].Qubits()
      ensures FrontWithin(cmdList, front, newLocals) && !(newLocals <= locals)
    {
      assert front in {front};
      assert !Plan(gates, {front}, locals);
      forall j | 0 <= j < front ensures cmdList[front].Qubits() !! cmdList[j].Qubits() {
        assert gates[front].Qubits() == cmdList[front].Qubits();
        assert gates[j].Qubits() == cmdList[j].Qubits();
      }
    }

    method ChooseExchange(newLocals: set<nat>) returns (gToL: seq<nat>, lToG: seq<nat>)
      requires |newLocals| <= |locals| && locals !! globals && newLocals <= locals + globals
      ensures Elements(gToL) <= globals && Elements(gToL) == newLocals - locals && Elements(lToG) <= locals - newLocals
      ensures |gToL| == |lToG|
      ensures Increasing(gToL) && Increasing(lToG)
      ensures newLocals <= LocalsWith(locals, gToL, lToG)
      ensures FirstOf(lToG, locals - newLocals)
    {
      gToL := Ascending(newLocals - locals);
      lToG := [];
      if |gToL| > 0 {
        var lst := Ascending(locals - newLocals);
        OutsideCounts(locals, newLocals);
        assert |lst| >= |gToL|;
        lToG := lst[..|gToL|];
        PrefixIsFirst(lst, locals - newLocals, |gToL|);
      }
    }

    // No cached gate has more targets than there are local qubits, or more than 5.
    ghost predicate Schedulable()
      reads this
    {
      forall i :: 0 <= i < |cmdList| ==> |cmdList[i].targets| <= |locals| && |cmdList[i].targets| <= 5
    }

    lemma SchedulableFits()
      requires Schedulable()
      ensures Fits(cmdList, |locals|)
    {
      ghost var size := |locals|;
      forall c | c in cmdList ensures |Elements(c.targets)| <= size {
        CountElements(c.targets);
      }
    }

    method CheckCommands() returns (ok: bool)
      ensures ok == Schedulable()
    {
      for i := 0 to |cmdList|
        invariant forall k :: 0 <= k < i ==> |cmdList[k].targets| <= |locals| && |cmdList[k].targets| <= 5
      {
        if |locals| < |cmdList[i].targets| || |cmdList[i].targets| > 5 {
          return false;
        }
      }
      return true;
    }

    // The exchange that the search chooses, told to the simulator.
    method ExchangeQubits(first: bool) returns (gToL: seq<nat>, lToG: seq<nat>, ghost front: nat)
      requires Valid() && cmdList != [] && Fits(cmdList, |locals|)
      modifies this`log, this`locals, this`globals
      ensures Valid() && SentCmds(log) == old(SentCmds(log))
      ensures log == old(log) + [if first then Relabel(gToL, lToG) else Exchange(gToL, lToG)]
      // the qubits of the event trade places pairwise
      ensures ExchangeOk(old(Now()), numSplits, Stage(gToL, lToG, [])) && Now() == Traded(old(Now()), gToL, lToG)
      ensures Elements(gToL) <= old(globals) && Elements(lToG) <= old(locals)
      ensures |locals| == old(|locals|) && locals + globals == old(locals + globals)
      ensures old(Stuck(cmdList, locals)) ==> gToL != [] && FrontWithin(cmdList, front, locals)
    {
      ghost var a;
      gToL, lToG, a, front := CallSwapScheduler();
      ExchangeKeepsSize(locals, globals, gToL, lToG);
      SendExchange(gToL, lToG, if first then Relabel(gToL, lToG) else Exchange(gToL, lToG));
    }

    // Before the first gate the qubits are only relabelled.
    method FirstExchange() returns (ghost gToL: seq<nat>, ghost lToG: seq<nat>)
      requires Valid() && cmdList != [] && Fits(cmdList, |locals|)
      modifies this`log, this`locals, this`globals, this`wasScheduling
      ensures Valid() && wasScheduling && SentCmds(log) == old(SentCmds(log))
      // one event; its qubits, those the search chooses, trade places pairwise
      ensures log == old(log) + [Relabel(gToL, lToG)]
      ensures ExchangeOk(old(Now()), numSplits, Stage(gToL, lToG, [])) && Now() == Traded(old(Now()), gToL, lToG)
      ensures Elements(gToL) <= old(globals) && Elements(lToG) <= old(locals)
      ensures |locals| == old(|locals|) && locals + globals == old(locals + globals)
    {
      wasScheduling := true;
      var g, l;
      ghost var front;
      g, l, front := ExchangeQubits(true);
      gToL, lToG := g, l;
    }

    // One exchange and the clusters it makes possible: at least one gate is sent.
    method OneStage() returns (ghost stage: Stage)
      requires Valid() && cmdList != [] && Stuck(cmdList, locals) && Fits(cmdList, |locals|)
      modifies this`cmdList, this`log, this`locals, this`globals
      ensures Valid() && Stuck(cmdList, locals) && Fits(cmdList, |locals|)
      ensures |cmdList| < |old(cmdList)| && Equivalent(Circuit(), old(Circuit()))
      // the exchange and the clusters are those that the searches choose
      ensures StageOk(old(Now()), clusterSize, numSplits, stage) && Now() == AfterStage(old(Now()), stage)
      ensures log == old(log) + StageEvents(old(Now()), Exchange(stage.gToL, stage.lToG), stage)
      ensures |locals| == old(|locals|) && locals + globals == old(locals + globals)
    {
      var gToL, lToG;
      ghost var front;
      gToL, lToG, front := ExchangeQubits(false);
      assert |gToL| > 0;
      ghost var mid := log;
      FrontCanStart(cmdList, front, locals, globals);
      ghost var clusters := CallClusterScheduler();
      stage := Stage(gToL, lToG, clusters);
      Appended(old(log), [Exchange(gToL, lToG)], mid, ClusterEvents(PreparedIn(Traded(old(Now()), gToL, lToG)), clusters), log);
    }

    // Sends the whole cached circuit, or nothing if a gate is too large.
    method ForceScheduling() returns (ok: bool, ghost x: Schedule)
      requires Valid()
      modifies this`cmdList, this`log, this`locals, this`globals, this`wasScheduling
      ensures Valid()
      ensures ok == old(Schedulable())
      ensures old(log) <= log
      ensures ok ==> cmdList == [] && Equivalent(Actions(SentCmds(log)), old(Circuit()))
      // what this call sent is the cached circuit, reordered
      ensures ok ==> Reordered(SentSince(old(log), log), old(Actions(cmdList)))
      // in the stages and clusters that the searches choose
      ensures ok ==> Forced(old(log), old(Now()), old(wasScheduling), clusterSize, numSplits, x, log)
      ensures ok ==> wasScheduling == (old(wasScheduling) || old(cmdList) != [])
      ensures ok ==> locals + globals == old(locals + globals)
      ensures !ok ==> unchanged(this)
    {
      x := Schedule(Stage([], [], []), []);
      if |cmdList| == 0 {
        assert Circuit() == Actions(SentCmds(log)) && log[|log|..] == [];
        return true, x;
      }
      ok := CheckCommands();
      if ok {
        SchedulableFits();
        x := SendAll();
        AllSent(old(log), old(cmdList), log);
      }
    }

    method SendAll() returns (ghost x: Schedule)
      requires Valid() && cmdList != [] && Fits(cmdList, |locals|)
      modifies this`cmdList, this`log, this`locals, this`globals, this`wasScheduling
      ensures Valid() && wasScheduling
      ensures ScheduleOk(old(Now()), old(wasScheduling), clusterSize, numSplits, x)
      ensures log == old(log) + ScheduleEvents(old(Now()), old(wasScheduling), x)
      ensures cmdList == [] && Equivalent(Actions(SentCmds(log)), old(Circuit()))
      ensures locals + globals == old(locals + globals)
    {
      ghost var s, was, log0, all := Now(), wasScheduling, log, Circuit();
      ghost var first := StartSending();
      ghost var started, between := log, Circuit();
      ghost var stages := SendStages();
      EquivalentTrans(Actions(SentCmds(log)), between, all);
      x := Schedule(first, stages);
      ScheduleDone(s, was, clusterSize, numSplits, x, log0, started, log, Now());
    }

    // What can be sent before the first exchange between stages.
    method StartSending() returns (ghost first: Stage)
      requires Valid() && cmdList != [] && Fits(cmdList, |locals|)
      modifies this`cmdList, this`log, this`locals, this`globals, this`wasScheduling
      ensures Valid() && wasScheduling && Stuck(cmdList, locals) && Fits(cmdList, |locals|)
      ensures FirstOk(old(Now()), old(wasScheduling), clusterSize, numSplits, first) && Now() == AfterStage(old(Now()), first)
      ensures log == old(log) + FirstEvents(old(Now()), old(wasScheduling), first)
      ensures Equivalent(Circuit(), old(Circuit())) && locals + globals == old(locals + globals)
    {
      ghost var gToL, lToG := RelabelOnce();
      ghost var relabelled, traded := log, Now();
      ghost var clusters := CallClusterScheduler();
      first := Stage(gToL, lToG, clusters);
      FirstDone(old(Now()), old(wasScheduling), clusterSize, numSplits, first, old(log), relabelled, log, traded, Now());
    }

    method RelabelOnce() returns (ghost gToL: seq<nat>, ghost lToG: seq<nat>)
      requires Valid() && cmdList != [] && Fits(cmdList, |locals|)
      modifies this`log, this`locals, this`globals, this`wasScheduling
      ensures Valid() && wasScheduling && Circuit() == old(Circuit())
      ensures cmdList == old(cmdList) && Fits(cmdList, |locals|)
      ensures log == old(log) + Relabelling(old(wasScheduling), gToL, lToG)
      ensures if old(wasScheduling) then gToL == [] && lToG == [] else ExchangeOk(old(Now()), numSplits, Stage(gToL, lToG, []))
      ensures Now() == Traded(old(Now()), gToL, lToG)
      ensures locals + globals == old(locals + globals)
    {
      gToL, lToG := [], [];
      NothingTraded(Now());
      assert log == old(log) + [];
      if !wasScheduling {
        gToL, lToG := FirstExchange();
      }
    }

    method SendStages() returns (ghost stages: seq<Stage>)
      requires Valid() && Stuck(cmdList, locals) && Fits(cmdList, |locals|)
      modifies this`cmdList, this`log, this`locals, this`globals
      ensures Valid() && cmdList == [] && Equivalent(Actions(SentCmds(log)), old(Circuit()))
      ensures StagesOk(old(Now()), clusterSize, numSplits, stages) && Now() == StateAfter(old(Now()), stages)
      ensures log == old(log) + EventsOf(old(Now()), stages)
      ensures locals + globals == old(locals + globals)
    {
      stages := [];
      ghost var start, log0 := Now(), log;
      assert log == log0 + [];
      while |cmdList| > 0
        invariant Valid() && Stuck(cmdList, locals) && Fits(cmdList, |locals|)
        invariant StagesOk(start, clusterSize, numSplits, stages) && Now() == StateAfter(start, stages)
        invariant log == log0 + EventsOf(start, stages)
        invariant Equivalent(Circuit(), old(Circuit()))
        invariant locals + globals == old(locals + globals)
        decreases |cmdList|
      {
        ghost var mid := log;
        ghost var stage := OneStage();
        OneMoreStage(start, clusterSize, numSplits, stages, stage);
        Appended(log0, EventsOf(start, stages), mid,
                 StageEvents(StateAfter(start, stages), Exchange(stage.gToL, stage.lToG), stage), log);
        stages := stages + [stage];
      }
      assert Circuit() == Actions(SentCmds(log));
    }

    // ----- the command stream ---------------------------------------------

    // Everything received so far, in an order equivalent to the one sent.
    ghost function History(): seq<Action>
      reads this
    {
      Circuit() + Actions(deallocations)
    }

    // Received and not yet sent.
    ghost function Pending(): seq<Cmd>
      reads this
    {
      cmdList + deallocations
    }

    lemma PendingAct()
      requires Valid() && DeallocationsOk()
      ensures AllAct(Pending()) && History() == Actions(SentCmds(log)) + Actions(Pending())
    {
      forall c | c in deallocations ensures Acts(c) {
        assert c.targets[0] in c.Qubits();
      }
      ActionsConcat(cmdList, deallocations);
      Regroup(Actions(SentCmds(log)), Actions(cmdList), Actions(deallocations));
    }

    ghost predicate DeallocationsOk()
      reads this
    {
      AllDeallocations(deallocations)
    }

    // Passes on a command that is not scheduled; `now` is what the simulator
    // reports as its local and global qubits after the whole batch.
    method SendPass(c: Cmd, now: Backend)
      requires Valid() && cmdList == [] && now.locals !! now.globals && Acts(c)
      modifies this`log, this`locals, this`globals
      ensures log == old(log) + [Pass(c, now.locals)]
      ensures Valid() && SentCmds(log) == old(SentCmds(log)) + [c]
      ensures locals == now.locals && globals == now.globals
    {
      OneMoreEvent(locals0, log, Pass(c, now.locals));
      OneMoreInCluster(locals0, clusterSize, log, Pass(c, now.locals));
      log := log + [Pass(c, now.locals)];
      locals, globals := now.locals, now.globals;
    }

    method SendDeallocations(now: Backend)
      requires Valid() && cmdList == [] && DeallocationsOk() && now.locals !! now.globals
      modifies this`log, this`locals, this`globals, this`deallocations
      ensures Valid() && deallocations == []
      ensures old(log) <= log
      ensures log == old(log) + Passes(SortedByQubit(old(deallocations)), now.locals)
      ensures SentCmds(log) == old(SentCmds(log)) + SortedByQubit(old(deallocations))
      ensures Equivalent(Actions(SentCmds(log)), old(History()))
      ensures |old(deallocations)| > 0 ==> locals == now.locals && globals == now.globals
    {
      var sorted := SortedByQubit(deallocations);
      ghost var sent := SentCmds(log);
      assert log == old(log) + Passes(sorted[..0], now.locals);
      for k := 0 to |sorted|
        invariant Valid() && cmdList == [] && deallocations == old(deallocations)
        invariant PassesSent(old(log), sorted, k, now)
      {
        assert sorted[k] in deallocations;
        SendDeallocation(old(log), sorted, k, now);
      }
      assert sorted[..|sorted|] == sorted;
      SortedEquivalent(deallocations);
      ActionsConcat(sent, sorted);
      EquivalentConcat(Actions(sent), Actions(sent), Actions(sorted), Actions(deallocations));
      assert Actions(sent) + Actions([]) == Actions(sent);
      deallocations := [];
    }

    // The first k commands have been passed on since the log was log0.
    ghost predicate PassesSent(log0: seq<Event>, cmds: seq<Cmd>, k: nat, now: Backend)
      requires k <= |cmds|
      reads this
    {
      && log == log0 + Passes(cmds[..k], now.locals) && SentCmds(log) == SentCmds(log0) + cmds[..k]
      && (k > 0 ==> locals == now.locals && globals == now.globals)
    }

    method SendDeallocation(ghost log0: seq<Event>, cmds: seq<Cmd>, k: nat, now: Backend)
      requires Valid() && cmdList == [] && now.locals !! now.globals
      requires k < |cmds| && IsDeallocation(cmds[k]) && PassesSent(log0, cmds, k, now)
      modifies this`log, this`locals, this`globals
      ensures Valid() && PassesSent(log0, cmds, k + 1, now)
    {
      assert cmds[k].targets[0] in cmds[k].Qubits();
      SendPass(cmds[k], now);
      assert cmds[..k + 1] == cmds[..k] + [cmds[k]];
    }

    // A gate's qubits are allocated when it is cached.
    ghost predicate Cacheable(c: Cmd, now: Backend)
      reads this
    {
      && c.Qubits() != {} && (c.kind.ZGate? ==> |c.targets| == 1)
      && c.Qubits() <= if deallocations == [] then locals + globals else now.locals + now.globals
    }

    // Handles one command. `now` is the simulator's report after the commands
    // passed on by this call. False: a cached gate is too large, an exception.
    method ReceiveOne(c: Cmd, now: Backend) returns (ok: bool)
      requires Valid() && DeallocationsOk() && now.locals !! now.globals
      requires c.kind.Deallocate? ==> IsDeallocation(c)
      requires c.kind.Unitary? || c.kind.ZGate? ==> Cacheable(c, now)
      modifies this
      ensures ok && Waits(c, old(deallocations)) ==> log == old(log) && Pending() == CachedWith(old(cmdList), old(deallocations), c)
      ensures ok && Waits(c, old(deallocations)) ==> (deallocations != [] <==> old(deallocations) != [] || c.kind.Deallocate?)
      ensures Valid() && DeallocationsOk()
      ensures old(log) <= log
      ensures ok ==> Equivalent(History(), old(History()) + [c.Action()])
      ensures !ok ==> !old(Schedulable())
      ensures ok && c.kind.Immediate? ==> cmdList == [] && deallocations == []
      ensures !ok ==> unchanged(this)
    {
      match c.kind
      case Deallocate =>
        ReceiveDeallocation(c);
        ok := true;
      case Immediate =>
        ok := ReceiveImmediate(c, now);
      case _ =>
        ok := ReceiveGate(c, now);
    }

    method ReceiveDeallocation(c: Cmd)
      requires Valid() && DeallocationsOk() && IsDeallocation(c)
      modifies this`deallocations
      ensures Valid() && DeallocationsOk() && deallocations == old(deallocations) + [c]
      ensures History() == old(History()) + [c.Action()]
    {
      EquivalentAppend(deallocations, Actions(deallocations), c);
      deallocations := deallocations + [c];
    }

    method ReceiveImmediate(c: Cmd, now: Backend) returns (ok: bool)
      requires Valid() && DeallocationsOk() && now.locals !! now.globals && c.kind.Immediate?
      modifies this
      ensures Valid() && DeallocationsOk()
      ensures old(log) <= log
      // everything received before c is sent before c
      ensures ok ==> cmdList == [] && deallocations == [] && log != [] && log[|log| - 1] == Pass(c, now.locals)
      ensures ok ==> Equivalent(History(), old(History()) + [c.Action()])
      ensures !ok ==> !old(Schedulable())
      ensures !ok ==> unchanged(this)
    {
      ok := FlushPending(now);
      if ok {
        EquivalentAppend(SentCmds(log), old(History()), c);
        SendPass(c, now);
        assert History() == Actions(SentCmds(log));
      }
    }

    method ReceiveGate(c: Cmd, now: Backend) returns (ok: bool)
      requires Valid() && DeallocationsOk() && now.locals !! now.globals
      requires (c.kind.Unitary? || c.kind.ZGate?) && Cacheable(c, now)
      modifies this
      ensures Valid() && DeallocationsOk()
      ensures old(log) <= log
      // it waits in the cache, behind the others unless they had to be sent
      ensures ok ==> deallocations == [] && cmdList == if old(deallocations) == [] then old(cmdList) + [c] else [c]
      ensures old(deallocations) == [] ==> ok && log == old(log)
      ensures ok ==> Equivalent(History(), old(History()) + [c.Action()])
      ensures !ok ==> !old(Schedulable())
      ensures !ok ==> unchanged(this)
    {
      if |deallocations| > 0 {
        ok := CacheAfterFlush(c, now);
      } else {
        ok := true;
        EquivalentAppend(cmdList, Actions(cmdList), c);
        cmdList := cmdList + [c];
        assert History() == old(History()) + [c.Action()];
      }
    }

    method CacheAfterFlush(c: Cmd, now: Backend) returns (ok: bool)
      requires Valid() && DeallocationsOk() && now.locals !! now.globals && deallocations != []
      requires (c.kind.Unitary? || c.kind.ZGate?) && Cacheable(c, now)
      modifies this
      ensures Valid() && DeallocationsOk() && old(log) <= log
      ensures ok ==> deallocations == [] && cmdList == [c]
      ensures ok ==> Equivalent(History(), old(History()) + [c.Action()])
      ensures !ok ==> !old(Schedulable()) && unchanged(this)
    {
      ok := FlushPending(now);
      if ok {
        EquivalentAppend(SentCmds(log), old(History()), c);
        assert CmdOk(c);
        cmdList := [c];
        assert History() == Actions(SentCmds(log)) + [c.Action()];
      }
    }

    method FlushAll(now: Backend) returns (ok: bool, ghost x: Schedule)
      requires Valid() && DeallocationsOk() && now.locals !! now.globals
      modifies this
      ensures Valid() && DeallocationsOk()
      ensures ok ==> cmdList == [] && deallocations == [] && Equivalent(Actions(SentCmds(log)), old(History()))
      ensures ok && |old(deallocations)| > 0 ==> locals == now.locals && globals == now.globals
      ensures old(log) <= log
      // what this call sent is what was received and not yet sent, reordered:
      // the circuit as the searches choose, then the deallocations
      ensures ok ==> Reordered(SentSince(old(log), log), old(Actions(Pending())))
      ensures ok ==> Flushed(old(log), old(Now()), old(wasScheduling), clusterSize, numSplits, x,
                             Passes(SortedByQubit(old(deallocations)), now.locals), log)
      ensures ok == old(Schedulable())
      ensures !ok ==> unchanged(this)
    {
      PendingAct();
      ghost var pending := Pending();
      ok, x := ForceScheduling();
      ghost var forced := log;
      if ok {
        ghost var sent := Actions(SentCmds(log));
        assert Circuit() == sent;
        EquivalentConcat(sent, old(Circuit()), Actions(deallocations), Actions(deallocations));
        assert Equivalent(History(), old(History()));
        SendDeallocations(now);
        AllSent(old(log), pending, log);
        ForcedThenPassed(old(log), old(Now()), old(wasScheduling), clusterSize, numSplits, x, forced,
                         Passes(SortedByQubit(old(deallocations)), now.locals), log);
      }
    }

    // The same, for callers that do not look at the schedule.
    method FlushPending(now: Backend) returns (ok: bool)
      requires Valid() && DeallocationsOk() && now.locals !! now.globals
      modifies this
      ensures Valid() && DeallocationsOk() && old(log) <= log
      ensures ok ==> cmdList == [] && deallocations == [] && Equivalent(Actions(SentCmds(log)), old(History()))
      ensures ok && |old(deallocations)| > 0 ==> locals == now.locals && globals == now.globals
      ensures ok == old(Schedulable())
      ensures !ok ==> unchanged(this)
    {
      ghost var x;
      ok, x := FlushAll(now);
    }

    // What makes the engine raise an exception at command c.
    ghost predicate Stops(c: Cmd, now: Backend)
      reads this
    {
      !Schedulable() || ((c.kind.Unitary? || c.kind.ZGate?) && !Allocated(c, now))
    }

    // Handles a list of commands in order, up to the first exception.
    method Receive(cmds: seq<Cmd>, reports: seq<Backend>) returns (done: nat)
      requires Valid() && DeallocationsOk() && |reports| == |cmds|
      requires forall i :: 0 <= i < |cmds| ==> WellFormed(cmds[i], reports[i])
      modifies this
      ensures Valid() && DeallocationsOk() && done <= |cmds|
      // what was sent before stays sent; what is sent now and what is left is
      // what was left and what was received, reordered across no barrier
      ensures old(log) <= log
      ensures Reordered(SentSince(old(log), log) + Actions(Pending()), Actions(old(Pending()) + cmds[..done]))
      ensures done == |cmds| > 0 && cmds[done - 1].kind.Immediate? ==> Pending() == []
      // gates wait in the cache until a barrier comes, or a gate after a deallocation
      ensures Quiet(old(deallocations) != [], cmds[..done]) ==> log == old(log)
      ensures done < |cmds| ==> Stops(cmds[done], reports[done])
    {
      done := 0;
      assert old(History()) + Actions([]) == old(History());
      PendingAct();
      ghost var pending := Pending();
      while done < |cmds|
        invariant Valid() && DeallocationsOk() && done <= |cmds|
        invariant old(log) <= log
        invariant done > 0 && cmds[done - 1].kind.Immediate? ==> Pending() == []
        invariant StillQuiet(old(log), old(deallocations) != [], cmds[..done])
        invariant Equivalent(History(), old(History()) + Actions(cmds[..done]))
      {
        assert cmds[..done + 1] == cmds[..done] + [cmds[done]];
        var ok := ReceiveNext(cmds[done], reports[done], old(History()), old(log), old(deallocations) != [], cmds[..done]);
        if !ok {
          break;
        }
        done := done + 1;
      }
      ReceivedReordered(old(log), pending, cmds[..done]);
    }

    lemma ReceivedReordered(before: seq<Event>, pending: seq<Cmd>, received: seq<Cmd>)
      requires Valid() && DeallocationsOk() && before <= log
      requires AllAct(pending) && AllAct(received)
      requires Equivalent(History(), Actions(SentCmds(before)) + Actions(pending) + Actions(received))
      ensures Reordered(SentSince(before, log) + Actions(Pending()), Actions(pending + received))
    {
      PendingAct();
      ActionsConcat(pending, received);
      Regroup(Actions(SentCmds(before)), Actions(pending), Actions(received));
      SentAndLeft(before, pending + received, log, Pending());
    }

    // While no command forced anything to be sent the log stays as it was.
    ghost predicate StillQuiet(log0: seq<Event>, pending: bool, received: seq<Cmd>)
      reads this
    {
      Quiet(pending, received) ==> log == log0 && (deallocations != [] <==> PendingAfter(pending, received))
    }

    method ReceiveNext(c: Cmd, now: Backend, ghost start: seq<Action>, ghost log0: seq<Event>, ghost pending: bool,
                       ghost received: seq<Cmd>) returns (ok: bool)
      requires Valid() && DeallocationsOk() && WellFormed(c, now) && StillQuiet(log0, pending, received)
      requires Equivalent(History(), start + Actions(received))
      modifies this
      ensures Valid() && DeallocationsOk()
      ensures old(log) <= log
      ensures ok ==> Equivalent(History(), start + Actions(received + [c]))
      ensures ok && c.kind.Immediate? ==> Pending() == []
      ensures ok ==> StillQuiet(log0, pending, received + [c])
      ensures !ok ==> unchanged(this) && Stops(c, now)
    {
      if (c.kind.Unitary? || c.kind.ZGate?) && !Allocated(c, now) {
        return false;
      }
      NextInHistory(History(), start, received, c);
      ghost var before := History();
      OneMoreQuiet(pending, received, c);
      ok := ReceiveOne(c, now);
      if ok {
        EquivalentTrans(History(), before + [c.Action()], start + Actions(received + [c]));
      }
    }

    // A gate on an unallocated qubit is an exception too.
    predicate Allocated(c: Cmd, now: Backend)
      reads this
    {
      Elements(c.targets) + Elements(c.controls)
      <= if deallocations == [] then locals + globals else now.locals + now.globals
    }
  }

  lemma NextInHistory(before: seq<Action>, start: seq<Action>, received: seq<Cmd>, c: Cmd)
    requires Equivalent(before, start + Actions(received))
    ensures Equivalent(before + [c.Action()], start + Actions(received + [c]))
  {
    EquivalentAppend(received, Actions(received), c);
    EquivalentConcat(before, start + Actions(received), [c.Action()], [c.Action()]);
    assert start + Actions(received) + [c.Action()] == start + Actions(received + [c]);
  }

  function Passes(cmds: seq<Cmd>, locals: set<nat>): seq<Event> {
    seq(|cmds|, i requires 0 <= i < |cmds| => Pass(cmds[i], locals))
  }

  datatype Backend = Backend(locals: set<nat>, globals: set<nat>)

  // The command does not force anything to be sent.
  ghost predicate Waits(c: Cmd, deallocations: seq<Cmd>) {
    c.kind.Deallocate? || (!c.kind.Immediate? && deallocations == [])
  }

  ghost function CachedWith(list: seq<Cmd>, deallocations: seq<Cmd>, c: Cmd): seq<Cmd> {
    if c.kind.Deallocate? then list + deallocations + [c] else list + [c]
  }

  // Whether a deallocation is pending after these commands, none of which
  // forces anything to be sent.
  ghost predicate PendingAfter(pending: bool, cmds: seq<Cmd>) {
    pending || exists i :: 0 <= i < |cmds| && cmds[i].kind.Deallocate?
  }

  ghost predicate Quiet(pending: bool, cmds: seq<Cmd>) {
    forall i :: 0 <= i < |cmds| ==>
      cmds[i].kind.Deallocate? || (!cmds[i].kind.Immediate? && !PendingAfter(pending, cmds[..i]))
  }

  lemma OneMoreQuiet(pending: bool, cmds: seq<Cmd>, c: Cmd)
    ensures Quiet(pending, cmds + [c])
            <==> Quiet(pending, cmds) && (c.kind.Deallocate? || (!c.kind.Immediate? && !PendingAfter(pending, cmds)))
    ensures PendingAfter(pending, cmds + [c]) <==> PendingAfter(pending, cmds) || c.kind.Deallocate?
  {
    var more := cmds + [c];
    assert more[|cmds|] == c && more[..|cmds|] == cmds;
    assert forall i :: 0 <= i < |cmds| ==> more[i] == cmds[i] && more[..i] == cmds[..i];
    if PendingAfter(pending, cmds) && !pending {
      var i :| 0 <= i < |cmds| && cmds[i].kind.Deallocate?;
      assert more[i].kind.Deallocate?;
    }
    if Quiet(pending, more) {
      forall i | 0 <= i < |cmds| ensures cmds[i].kind.Deallocate? || (!cmds[i].kind.Immediate? && !PendingAfter(pending, cmds[..i])) {
        assert more[i] == cmds[i] && more[..i] == cmds[..i];
      }
    }
  }

  ghost predicate WellFormed(c: Cmd, report: Backend) {
    && report.locals !! report.globals
    && (c.kind.Deallocate? ==> IsDeallocation(c))
    && (!c.kind.Immediate? ==> c.Qubits() != {})
    && (c.kind.ZGate? ==> |c.targets| == 1)
  }

  ghost predicate IsDeallocation(c: Cmd) {
    c.kind.Deallocate? && |c.targets| == 1 && c.controls == []
  }

  // ----- sorting the deallocations ----------------------------------------

  function Key(c: Cmd): nat { if c.targets == [] then 0 else c.targets[0] }

  // Puts c behind every command with the same or a larger id.
  function Insert(s: seq<Cmd>, c: Cmd): (r: seq<Cmd>)
    ensures |r| == |s| + 1
    ensures forall x :: x in r <==> x in s || x == c
  {
    if s != [] && Key(s[|s| - 1]) < Key(c) then
      Insert(s[..|s| - 1], c) + [s[|s| - 1]]
    else s + [c]
  }

  function SortedByQubit(s: seq<Cmd>): (r: seq<Cmd>)
    ensures |r| == |s|
    ensures forall x :: x in r <==> x in s
  {
    if s == [] then [] else
    Insert(SortedByQubit(s[..|s| - 1]), s[|s| - 1])
  }

  ghost predicate ByDescendingQubit(s: seq<Cmd>) {
    forall i, j :: 0 <= i < j < |s| ==> Key(s[i]) >= Key(s[j])
  }

  lemma {:induction false} InsertKeepsOrder(s: seq<Cmd>, c: Cmd)
    requires ByDescendingQubit(s)
    ensures ByDescendingQubit(Insert(s, c))
  {
    if s != [] && Key(s[|s| - 1]) < Key(c) {
      var m := |s| - 1;
      InsertKeepsOrder(s[..m], c);
      var r := Insert(s[..m], c);
      forall i | 0 <= i < |r| ensures Key(r[i]) >= Key(s[m]) {
        assert r[i] in r;
      }
    }
  }

  // The deallocations are sent by decreasing qubit id.
  lemma {:induction false} SortDescends(s: seq<Cmd>)
    ensures ByDescendingQubit(SortedByQubit(s))
  {
    if s != [] {
      SortDescends(s[..|s| - 1]);
      InsertKeepsOrder(SortedByQubit(s[..|s| - 1]), s[|s| - 1]);
    }
  }

  ghost predicate AllDeallocations(s: seq<Cmd>) {
    forall c :: c in s ==> IsDeallocation(c)
  }

  lemma {:induction false} InsertEquivalent(s: seq<Cmd>, c: Cmd)
    requires IsDeallocation(c) && AllDeallocations(s)
    ensures Equivalent(Actions(Insert(s, c)), Actions(s) + [c.Action()])
  {
    if s != [] && Key(s[|s| - 1]) < Key(c) {
      var m := |s| - 1;
      var last, s0 := s[m], s[..m];
      assert s == s0 + [last] && last in s;
      InsertEquivalent(s0, c);
      EquivalentAppend(Insert(s0, c), Actions(s0) + [c.Action()], last);
      EquivalentAppend(s0, Actions(s0), last);
      InsertBefore(Actions(s0), [last.Action()], [c.Action()], c.Action().Qubits());
    } else {
      EquivalentAppend(s, Actions(s), c);
    }
  }

  // Sorting the deallocations keeps the order on each qubit.
  lemma {:induction false} SortedEquivalent(s: seq<Cmd>)
    requires AllDeallocations(s)
    ensures Equivalent(Actions(SortedByQubit(s)), Actions(s))
  {
    if s != [] {
      var m := |s| - 1;
      SortedEquivalent(s[..m]);
      assert s == s[..m] + [s[m]] && s[m] in s;
      InsertEquivalent(SortedByQubit(s[..m]), s[m]);
      EquivalentAppend(s[..m], Actions(SortedByQubit(s[..m])), s[m]);
    }
  }

  lemma FrontCanStart(list: seq<Cmd>, i: nat, locals: set<nat>, globals: set<nat>)
    requires FrontWithin(list, i, locals)
    ensures CanStart(list, i, locals, globals)
  {
  }

  lemma StartIsNotStuck(list: seq<Cmd>, i: nat, locals: set<nat>, globals: set<nat>)
    requires CanStart(list, i, locals, globals) && locals !! globals
    ensures !Stuck(PreparedList(list, locals, globals), locals)
  {
    var prepared := PreparedList(list, locals, globals);
    forall j | 0 <= j <= i ensures prepared[j].Qubits() == list[j].Qubits() {
      PreparedIs(list[j], locals, globals);
    }
    PreparedIs(list[i], locals, globals);
    FrontIsNotStuck(prepared, i, locals);
  }

  lemma PreparedFits(list: seq<Cmd>, locals: set<nat>, globals: set<nat>)
    ensures forall size :: Fits(list, size) ==> Fits(PreparedList(list, locals, globals), size)
  {
    var prepared := PreparedList(list, locals, globals);
    forall size | Fits(list, size) ensures Fits(prepared, size) {
      forall c | c in prepared ensures |Elements(c.targets)| <= size {
        var i :| 0 <= i < |prepared| && prepared[i] == c;
        PreparedIs(list[i], locals, globals);
        assert list[i] in list;
      }
    }
  }

  lemma NothingTraded(s: State)
    ensures Traded(s, [], []) == s
  {
    assert Elements([]) == {};
  }

  ghost predicate Flushed(log: seq<Event>, s: State, wasScheduling: bool, size: int, splits: nat, x: Schedule,
                          passes: seq<Event>, log': seq<Event>) {
    && |passes| <= |log'| && log'[|log'| - |passes|..] == passes
    && Forced(log, s, wasScheduling, size, splits, x, log'[..|log'| - |passes|])
  }

  lemma ForcedThenPassed(log: seq<Event>, s: State, wasScheduling: bool, size: int, splits: nat, x: Schedule,
                         forced: seq<Event>, passes: seq<Event>, log': seq<Event>)
    requires Forced(log, s, wasScheduling, size, splits, x, forced) && log' == forced + passes
    ensures Flushed(log, s, wasScheduling, size, splits, x, passes, log')
  {
    assert log'[..|log'| - |passes|] == forced;
  }

  lemma FirstDone(s: State, wasScheduling: bool, size: int, splits: nat, first: Stage,
                  log: seq<Event>, relabelled: seq<Event>, log': seq<Event>, traded: State, s': State)
    requires if wasScheduling then first.gToL == [] && first.lToG == [] else ExchangeOk(s, splits, Stage(first.gToL, first.lToG, []))
    requires traded == Traded(s, first.gToL, first.lToG)
    requires ClustersOk(traded, size, first.clusters) && s' == AfterClusters(traded, first.clusters)
    requires relabelled == log + Relabelling(wasScheduling, first.gToL, first.lToG)
    requires log' == relabelled + ClusterEvents(PreparedIn(traded), first.clusters)
    ensures FirstOk(s, wasScheduling, size, splits, first) && s' == AfterStage(s, first)
    ensures log' == log + FirstEvents(s, wasScheduling, first)
  {
    Appended(log, Relabelling(wasScheduling, first.gToL, first.lToG), relabelled, ClusterEvents(PreparedIn(traded), first.clusters), log');
  }

  lemma ScheduleDone(s: State, wasScheduling: bool, size: int, splits: nat, x: Schedule,
                     log: seq<Event>, started: seq<Event>, log': seq<Event>, s': State)
    requires FirstOk(s, wasScheduling, size, splits, x.first) && StagesOk(AfterStage(s, x.first), size, splits, x.stages)
    requires started == log + FirstEvents(s, wasScheduling, x.first)
    requires log' == started + EventsOf(AfterStage(s, x.first), x.stages)
    requires s' == StateAfter(AfterStage(s, x.first), x.stages) && s'.list == []
    ensures ScheduleOk(s, wasScheduling, size, splits, x) && log' == log + ScheduleEvents(s, wasScheduling, x)
  {
    Appended(log, FirstEvents(s, wasScheduling, x.first), started, EventsOf(AfterStage(s, x.first), x.stages), log');
  }

  // What a call of ForceScheduling does to the log.
  ghost predicate Forced(log: seq<Event>, s: State, wasScheduling: bool, size: int, splits: nat, x: Schedule, log': seq<Event>) {
    if s.list == [] then log' == log
    else ScheduleOk(s, wasScheduling, size, splits, x) && log' == log + ScheduleEvents(s, wasScheduling, x)
  }

  lemma ExchangedSame(c: Cmd, r: Cmd, i: nat)
    requires c.kind.ZGate? && |c.targets| == 1 && i < |c.controls|
    requires r == c.(targets := [c.controls[i]], controls := c.controls[i := c.targets[0]])
    ensures r.Qubits() == c.Qubits() && |Elements(r.targets)| == |Elements(c.targets)|
  {
    forall q ensures q in r.controls || q in r.targets <==> q in c.controls || q in c.targets {
      if q in c.controls {
        var k :| 0 <= k < |c.controls| && c.controls[k] == q;
        assert k != i ==> r.controls[k] == q;
      }
      assert r.controls[i] == c.targets[0];
    }
    assert Elements(c.targets) == {c.targets[0]} && Elements(r.targets) == {r.targets[0]};
  }

  ghost predicate Fits(list: seq<Cmd>, size: nat) {
    forall c :: c in list ==> |Elements(c.targets)| <= size
  }

  // Runs the search on the fused list and, if that finds nothing, on the list itself.
  method SearchLocals(gates: seq<Gate>, numSplits: nat, numLocals: nat) returns (newLocals: set<nat>, ghost a: set<nat>)
    requires gates != [] && |gates[0].targets| <= numLocals
    ensures newLocals == Wanted(gates, numSplits, numLocals).locals && |newLocals| <= numLocals
    ensures Enables(gates, numSplits, numLocals, newLocals, a) && a != {}
    ensures SwapScheduling.OnlyKnown(gates, newLocals)
  {
    ghost var leaves, calls;
    var fused := new SwapScheduling.SwapScheduler(gates, numSplits, numLocals, true);
    newLocals, leaves, calls, a := fused.ScheduleSwap();
    if newLocals == {} {
      var unfused := new SwapScheduling.SwapScheduler(gates, numSplits, numLocals, false);
      newLocals, leaves, calls, a := unfused.ScheduleSwap();
    }
  }

  lemma TakingOut(sent: seq<Cmd>, list: seq<Cmd>, a: set<nat>)
    requires DependencyClosed(MaskedList(list), a)
    requires forall i :: 0 <= i < |list| ==> !list[i].kind.Immediate?
    ensures Equivalent(Actions(sent + Select(list, a)) + Actions(Reject(list, a)), Actions(sent) + Actions(list))
  {
    forall i, j | i in a && i < |list| && 0 <= j < i && j !in a
      ensures list[i].Action().Qubits() !! list[j].Action().Qubits()
    {
      assert MaskedList(list)[i].Qubits() == list[i].Qubits();
      assert MaskedList(list)[j].Qubits() == list[j].Qubits();
    }
    PullingForwardIsEquivalent(list, a);
    var sel, rej := Actions(Select(list, a)), Actions(Reject(list, a));
    ActionsConcat(sent, Select(list, a));
    EquivalentConcat(Actions(sent), Actions(sent), sel + rej, Actions(list));
    assert Actions(sent) + sel + rej == Actions(sent) + (sel + rej);
  }

  // Deletes the gates at these places, the last place first.
  method RemovePlaces(list: seq<Cmd>, places: seq<nat>) returns (r: seq<Cmd>)
    requires Increasing(places)
    requires forall i :: 0 <= i < |places| ==> places[i] < |list|
    ensures r == Reject(list, Elements(places)) && |r| == |list| - |places|
  {
    r := list;
    var k := |places|;
    RejectNothing(list, Elements(places[k..]));
    while k > 0
      invariant k <= |places| && r == Reject(list, Elements(places[k..]))
      invariant |r| == |list| - (|places| - k)
    {
      k := k - 1;
      assert Elements(places[k..]) == Elements(places[k + 1..]) + {places[k]};
      RejectSmaller(list, Elements(places[k + 1..]), places[k]);
      r := SwapScheduling.Without(r, places[k]);
    }
    assert places[0..] == places;
  }

  // ----- small facts used above -------------------------------------------

  ghost function Pick(s: seq<Cmd>, places: seq<nat>): seq<Cmd>
    requires forall i :: 0 <= i < |places| ==> places[i] < |s|
  {
    seq(|places|, i requires 0 <= i < |places| => s[places[i]])
  }

  lemma PickMore(s: seq<Cmd>, places: seq<nat>, k: nat, log0: seq<Event>, mid: seq<Event>, log: seq<Event>)
    requires k < |places| && forall i :: 0 <= i < |places| ==> places[i] < |s|
    requires mid == log0 + Sends(Pick(s, places[..k])) && log == mid + [Send(s[places[k]])]
    ensures Pick(s, places[..k + 1]) == Pick(s, places[..k]) + [s[places[k]]]
    ensures log == log0 + Sends(Pick(s, places[..k + 1]))
  {
    assert places[..k + 1] == places[..k] + [places[k]];
    SendsMore(Pick(s, places[..k]), s[places[k]]);
    Appended(log0, Sends(Pick(s, places[..k])), mid, [Send(s[places[k]])], log);
  }

  lemma {:induction false} SelectByPlaces(s: seq<Cmd>, places: seq<nat>)
    requires Increasing(places)
    requires forall i :: 0 <= i < |places| ==> places[i] < |s|
    ensures Select(s, Elements(places)) == Pick(s, places)
  {
    if s != [] {
      var m, last := |s| - 1, |places| - 1;
      if m in Elements(places) {
        assert places[last] == m;
        assert places == places[..last] + [m];
        SelectByPlaces(s[..m], places[..last]);
        SelectDependsOnPrefix(s[..m], Elements(places), Elements(places[..last]));
        assert Pick(s, places) == Pick(s[..m], places[..last]) + [s[m]];
      } else {
        SelectShorter(s, m, places);
        SelectByPlaces(s[..m], places);
      }
    } else {
      AscendingBelow(places, 0);
    }
  }

  lemma SelectShorter(s: seq<Cmd>, m: nat, places: seq<nat>)
    requires |s| == m + 1 && m !in Elements(places)
    requires forall i :: 0 <= i < |places| ==> places[i] < |s|
    ensures forall i :: 0 <= i < |places| ==> places[i] < m
    ensures Pick(s, places) == Pick(s[..m], places)
  {
    assert forall i :: 0 <= i < |places| ==> places[i] in Elements(places);
  }

  lemma {:induction false} SelectDependsOnPrefix(s: seq<Cmd>, a: set<nat>, b: set<nat>)
    requires forall i :: 0 <= i < |s| ==> (i in a <==> i in b)
    ensures Select(s, a) == Select(s, b)
  {
    if s != [] {
      SelectDependsOnPrefix(s[..|s| - 1], a, b);
    }
  }

  lemma {:induction false} RejectNothing(s: seq<Cmd>, a: set<nat>)
    requires forall i :: 0 <= i < |s| ==> i !in a
    ensures Reject(s, a) == s
  {
    if s != [] {
      RejectNothing(s[..|s| - 1], a);
    }
  }

  // Removing gates from the back leaves the places before them alone.
  lemma {:induction false} RejectSmaller(s: seq<Cmd>, a: set<nat>, l: nat)
    requires l < |s| && forall i :: i in a ==> l < i
    ensures l < |Reject(s, a)|
    ensures Reject(s, a + {l}) == SwapScheduling.Without(Reject(s, a), l)
  {
    var m := |s| - 1;
    if l == m {
      RejectNothing(s[..m], a);
      RejectNothing(s[..m], a + {l});
    } else {
      RejectSmaller(s[..m], a, l);
    }
  }

  lemma OutsideCounts(s: set<nat>, t: set<nat>)
    requires |t| <= |s|
    ensures |t - s| <= |s - t|
  {
    assert s == (s - t) + (s * t);
    assert t == (t - s) + (s * t);
  }

  lemma ExchangeKeepsSize(locals: set<nat>, globals: set<nat>, gToL: seq<nat>, lToG: seq<nat>)
    requires locals !! globals && Elements(gToL) <= globals && Elements(lToG) <= locals && |gToL| == |lToG|
    requires Increasing(gToL) && Increasing(lToG)
    ensures |(locals - Elements(lToG)) + Elements(gToL)| == |locals|
    ensures ((locals - Elements(lToG)) + Elements(gToL)) + ((globals - Elements(gToL)) + Elements(lToG)) == locals + globals
  {
    CountElements(gToL);
    CountElements(lToG);
    assert Elements(gToL) == Elements(gToL);
    assert Elements(lToG) == Elements(lToG);
    assert (locals - Elements(lToG)) !! Elements(gToL);
    assert locals == (locals - Elements(lToG)) + Elements(lToG);
  }
}
