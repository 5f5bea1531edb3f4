// src/scheduler/cluster_scheduler.{h,cpp}: which gates can be pulled to the
// front of the circuit and fused into one gate on at most `clusterSize` local
// qubits.

module ClusterScheduling {
  import opened Gates
  import opened Sequences

  // ----- the greedy scan for a fixed cluster ------------------------------

  predicate CanTake(g: Gate, locals: Mask, cluster: Mask, bad: Mask) {
    g.Qubits() !! bad && g.Qubits() * locals <= cluster && Runnable(g, locals)
  }

  // What the scan of the first k gates has taken and blocked.
  function Scan(gates: seq<Gate>, locals: Mask, cluster: Mask, k: nat): (seq<nat>, Mask)
    requires k <= |gates|
  {
    if k == 0 then ([], {}) else
    var (taken, bad) := Scan(gates, locals, cluster, k - 1);
    if CanTake(gates[k - 1], locals, cluster, bad) then (taken + [k - 1], bad)
    else (taken, bad + gates[k - 1].Qubits())
  }

  ghost function Taken(gates: seq<Gate>, locals: Mask, cluster: Mask): seq<nat> {
    Scan(gates, locals, cluster, |gates|).0
  }

  ghost function Score(gates: seq<Gate>, locals: Mask, cluster: Mask): nat {
    |Taken(gates, locals, cluster)|
  }

  // The gates of `a` can be fused on `cluster` ahead of all the others.
  ghost predicate Admissible(gates: seq<Gate>, locals: Mask, cluster: Mask, a: set<nat>) {
    && Plan(gates, a, locals)
    && forall i :: i in a ==> gates[i].Qubits() * locals <= cluster
  }

  ghost predicate ScanOk(gates: seq<Gate>, locals: Mask, cluster: Mask, k: nat)
    requires k <= |gates|
  {
    var (taken, bad) := Scan(gates, locals, cluster, k);
    && Increasing(taken)
    && (forall i :: i in taken ==> i < k)
    && (forall i :: i in taken ==> Runnable(gates[i], locals) && gates[i].Qubits() * locals <= cluster)
    && (forall j :: 0 <= j < k && j !in taken ==> gates[j].Qubits() <= bad)
    && (forall i, j :: i in taken && 0 <= j < i && j !in taken ==> gates[i].Qubits() !! gates[j].Qubits())
  }

  lemma {:induction false} ScanInvariant(gates: seq<Gate>, locals: Mask, cluster: Mask, k: nat)
    requires k <= |gates|
    ensures ScanOk(gates, locals, cluster, k)
  {
    if k > 0 {
      ScanInvariant(gates, locals, cluster, k - 1);
      var (taken, bad) := Scan(gates, locals, cluster, k - 1);
      var (taken', bad') := Scan(gates, locals, cluster, k);
      if CanTake(gates[k - 1], locals, cluster, bad) {
        assert (taken', bad') == (taken + [k - 1], bad);
        assert forall i :: i in taken' <==> i in taken || i == k - 1;
        assert forall i :: 0 <= i < |taken| ==> taken[i] in taken;
        forall i, j | i in taken' && 0 <= j < i && j !in taken'
          ensures gates[i].Qubits() !! gates[j].Qubits()
        {
          assert j !in taken;
          assert i == k - 1 ==> gates[j].Qubits() <= bad;
        }
      } else {
        assert taken' == taken;
      }
    }
  }

  // Every qubit blocked by the scan is blocked by some skipped gate.
  lemma {:induction false} BlockedBySkipped(gates: seq<Gate>, locals: Mask, cluster: Mask, k: nat, q: nat)
      returns (j: nat)
    requires k <= |gates| && q in Scan(gates, locals, cluster, k).1
    ensures j < k && j !in Scan(gates, locals, cluster, k).0 && q in gates[j].Qubits()
  {
    ScanInvariant(gates, locals, cluster, k - 1);
    if q in Scan(gates, locals, cluster, k - 1).1 {
      j := BlockedBySkipped(gates, locals, cluster, k - 1, q);
    } else {
      j := k - 1;
    }
  }

  lemma {:induction false} AdmissibleIsTaken(gates: seq<Gate>, locals: Mask, cluster: Mask, a: set<nat>, k: nat)
    requires k <= |gates| && Admissible(gates, locals, cluster, a)
    ensures forall i :: i in a && i < k ==> i in Scan(gates, locals, cluster, k).0
  {
    if k > 0 {
      AdmissibleIsTaken(gates, locals, cluster, a, k - 1);
      var bad := Scan(gates, locals, cluster, k - 1).1;
      if k - 1 in a && exists q :: q in gates[k - 1].Qubits() && q in bad {
        var q :| q in gates[k - 1].Qubits() && q in bad;
        var j := BlockedBySkipped(gates, locals, cluster, k - 1, q);
        assert false;
      }
    }
  }

  lemma NoneEarlier(gates: seq<Gate>, locals: Mask, i: nat, j: nat)
    requires i <= |gates| && j < i && Scan(gates, locals, locals, i).0 == []
    ensures !Plan(gates, {j}, locals)
  {
    if Plan(gates, {j}, locals) {
      assert j in {j};
      AdmissibleIsTaken(gates, locals, locals, {j}, i);
    }
  }

  // For a fixed cluster the scan takes the largest admissible set: it is
  // admissible itself and contains every other one.
  lemma GreedyScanIsLargest(gates: seq<Gate>, locals: Mask, cluster: Mask)
    ensures Admissible(gates, locals, cluster, Elements(Taken(gates, locals, cluster)))
    ensures |Elements(Taken(gates, locals, cluster))| == Score(gates, locals, cluster)
    ensures forall a :: Admissible(gates, locals, cluster, a)
                        ==> a <= Elements(Taken(gates, locals, cluster)) && |a| <= Score(gates, locals, cluster)
  {
    ScanInvariant(gates, locals, cluster, |gates|);
    CountElements(Taken(gates, locals, cluster));
    forall a | Admissible(gates, locals, cluster, a)
      ensures a <= Elements(Taken(gates, locals, cluster)) && |a| <= Score(gates, locals, cluster)
    {
      AdmissibleIsTaken(gates, locals, cluster, a, |gates|);
      SubsetCardinality(a, Elements(Taken(gates, locals, cluster)));
    }
  }

  // ----- the memoised search over clusters --------------------------------

  datatype Problem = Problem(gates: seq<Gate>, locals: Mask, size: int) {
    // The gates of `a` can be pulled to the front and fused on the cluster c.
    ghost predicate Fusible(c: Mask, a: set<nat>) {
      c <= locals && |c| <= size && Admissible(gates, locals, c, a)
    }

    // The gates of a are the most that fit a cluster, on the fewest qubits.
    ghost predicate Largest(c: Mask, a: set<nat>) {
      Fusible(c, a) && forall c', a' :: Fusible(c', a') ==> |a'| < |a| || (|a'| == |a| && |c| <= |c'|)
    }

    // No gate fits a cluster, and a is the first one that can run.
    ghost predicate HugeFirst(a: set<nat>) {
      && |a| == 1 && Plan(gates, a, locals)
      && (forall c', a' :: Fusible(c', a') ==> a' == {})
      && (forall i, j :: i in a && 0 <= j < i ==> !Plan(gates, {j}, locals))
    }

    // What the scheduler promises to return.
    ghost predicate BestCluster(a: set<nat>) {
      a != {} && Plan(gates, a, locals) && ((exists c :: Largest(c, a)) || HugeFirst(a))
    }

    // (ans, best) is at least as good as cluster c: more gates, or as many on
    // no more qubits.
    ghost predicate Covers(ans: nat, best: Mask, c: Mask) {
      Score(gates, locals, c) < ans || (Score(gates, locals, c) == ans && |best| <= |c|)
    }

    ghost predicate Extends(c: Mask, p: nat, s: Mask) {
      s <= locals && (forall b :: b in s ==> p <= b) && |c + s| <= size
    }

    // Adding local qubits from position p on to c brings nothing better.
    ghost predicate Complete(ans: nat, best: Mask, c: Mask, p: nat) {
      forall s: Mask :: Extends(c, p, s) ==> Covers(ans, best, c + s)
    }

    lemma CompleteMonotone(ans: nat, best: Mask, ans': nat, best': Mask, c: Mask, p: nat)
      requires Complete(ans, best, c, p)
      requires ans < ans' || (ans == ans' && |best'| <= |best|)
      ensures Complete(ans', best', c, p)
    {
      forall s: Mask | Extends(c, p, s) ensures Covers(ans', best', c + s) {
        assert Covers(ans, best, c + s);
      }
    }

    lemma NothingToAdd(ans: nat, best: Mask, c: Mask, p: nat)
      requires Covers(ans, best, c)
      requires forall l :: l in locals ==> l < p
      ensures Complete(ans, best, c, p)
    {
      forall s: Mask | Extends(c, p, s) ensures Covers(ans, best, c + s) {
        assert s == {};
        assert c + s == c;
      }
    }

    // The two branches at position p together complete (c, p).
    lemma CompleteFromBranches(ans: nat, best: Mask, c: Mask, p: nat)
      requires p in locals && p !in c && |c| < size ==> Complete(ans, best, c + {p}, p + 1)
      requires Complete(ans, best, c, p + 1)
      ensures Complete(ans, best, c, p)
    {
      forall s: Mask | Extends(c, p, s) ensures Covers(ans, best, c + s) {
        var t := s - {p};
        if p in s && p !in c {
          assert c + s == (c + {p}) + t;
          assert |c + {p}| == |c| + 1;
          SubsetCardinality(c + {p}, c + s);
          assert Extends(c + {p}, p + 1, t);
        } else {
          assert c + s == c + t;
          assert Extends(c, p + 1, t);
        }
      }
    }

    // Every cluster that takes a gate extends that gate's own local qubits, so
    // completing the single-gate clusters covers everything.
    lemma SingleGateClustersSuffice(ans: nat, best: Mask, c: Mask)
      requires ans == 0 ==> best == {}
      requires forall i :: 0 <= i < |gates| && |locals * gates[i].Qubits()| <= size
                           ==> Complete(ans, best, locals * gates[i].Qubits(), 0)
      requires c <= locals && |c| <= size
      ensures Covers(ans, best, c)
    {
      if Score(gates, locals, c) != 0 {
        ScanInvariant(gates, locals, c, |gates|);
        var i := Taken(gates, locals, c)[0];
        assert i in Taken(gates, locals, c);
        var start := locals * gates[i].Qubits();
        assert start <= c;
        SubsetCardinality(start, c);
        assert start + (c - start) == c;
        assert Extends(start, 0, c - start);
      }
    }
  }

  class ClusterScheduler {
    const p: Problem
    ghost const width: nat    // all local positions are below this
    var bestAns: nat
    var bestCluster: Mask
    var used: map<Mask, Mask>

    constructor (p: Problem)
      ensures this.p == p && used == map[] && bestAns == 0 && bestCluster == {} && Valid()
    {
      this.p := p;
      width := UpperBound(p.locals);
      bestAns, bestCluster, used := 0, {}, map[];
    }

    ghost predicate Valid() {
      forall l :: l in p.locals ==> l < width
    }

    function Used(c: Mask): Mask
      reads this
    {
      if c in used then used[c] else {}
    }

    ghost predicate Covers(c: Mask)
      reads this
    {
      p.Covers(bestAns, bestCluster, c)
    }

    // Every mark at position b or later stands for finished work; marks at
    // earlier positions may belong to calls still running.
    ghost predicate MarksFinished(b: nat)
      reads this
    {
      forall c: Mask, b': nat {:trigger b' in Used(c)} ::
        b' in Used(c) && b <= b' ==> p.Complete(bestAns, bestCluster, c, b')
    }

    ghost predicate BestOk()
      reads this
    {
      && Valid()
      && (forall c {:trigger Used(c)} :: Used(c) != {} ==> Covers(c))
      && bestCluster <= p.locals
      && (bestAns == 0 ==> bestCluster == {})
      && (bestAns != 0 ==> bestAns == Score(p.gates, p.locals, bestCluster) && |bestCluster| <= p.size)
    }

    twostate predicate Improved()
      reads this
    {
      old(bestAns) < bestAns || (old(bestAns) == bestAns && |bestCluster| <= old(|bestCluster|))
    }

    method CalcCombination(cur: Mask)
      requires BestOk() && cur <= p.locals && |cur| <= p.size
      modifies this`bestAns, this`bestCluster
      ensures BestOk() && Covers(cur) && Improved()
    {
      if Used(cur) != {} {
        return;
      }
      var curBad: Mask, curAns := {}, 0;
      for i := 0 to |p.gates|
        invariant curBad == Scan(p.gates, p.locals, cur, i).1
        invariant curAns == |Scan(p.gates, p.locals, cur, i).0|
      {
        if CanTake(p.gates[i], p.locals, cur, curBad) {
          curAns := curAns + 1;
        } else {
          curBad := curBad + p.gates[i].Qubits();
        }
      }
      if curAns > bestAns || (curAns == bestAns && |cur| < |bestCluster|) {
        bestAns, bestCluster := curAns, cur;
        forall c {:trigger Used(c)} | Used(c) != {} ensures Covers(c) {
          assert Used(c) == old(Used(c)) && old(Covers(c));
        }
      }
    }

    method Rec(cur: Mask, bit: nat)
      requires BestOk() && MarksFinished(bit)
      requires cur <= p.locals && |cur| <= p.size && bit <= width
      modifies this
      ensures BestOk() && MarksFinished(bit) && Improved()
      ensures p.Complete(bestAns, bestCluster, cur, bit)
      ensures forall c, b {:trigger b in Used(c)} :: 0 <= b < bit ==> (b in Used(c) <==> b in old(Used(c)))
      // the work done here is marked, and marks stay
      ensures (exists l :: l in p.locals && bit <= l) ==> bit in Used(cur)
      ensures forall c, b {:trigger b in Used(c)} :: b in old(Used(c)) ==> b in Used(c)
      decreases width - bit, 1
    {
      CalcCombination(cur);
      KeepMarks(bit);
      if forall l :: l in p.locals ==> l < bit {
        p.NothingToAdd(bestAns, bestCluster, cur, bit);
      } else if bit !in Used(cur) {
        Branch(cur, bit);
      }
    }

    // Improving the answer unfinishes no work.
    twostate lemma KeepMarks(b: nat)
      requires old(MarksFinished(b)) && Improved() && used == old(used)
      ensures MarksFinished(b)
    {
      forall c: Mask, m: nat | m in Used(c) && b <= m
        ensures p.Complete(bestAns, bestCluster, c, m)
      {
        assert m in old(Used(c));
        p.CompleteMonotone(old(bestAns), old(bestCluster), bestAns, bestCluster, c, m);
      }
    }

    method Mark(cur: Mask, bit: nat)
      requires BestOk() && MarksFinished(bit) && Covers(cur)
      modifies this`used
      ensures BestOk() && MarksFinished(bit + 1)
      ensures forall c, b {:trigger b in Used(c)} :: b in Used(c) <==> b in old(Used(c)) || (c == cur && b == bit)
    {
      used := used[cur := Used(cur) + {bit}];
      assert forall c {:trigger Used(c)} :: c == cur || Used(c) == old(Used(c));
      forall c {:trigger Used(c)} | Used(c) != {} ensures Covers(c) {
        assert c == cur || old(Covers(c));
      }
      forall c: Mask, b: nat | b in Used(c) && bit + 1 <= b
        ensures p.Complete(bestAns, bestCluster, c, b)
      {
        assert b in old(Used(c));
      }
    }

    method Branch(cur: Mask, bit: nat)
      requires BestOk() && MarksFinished(bit) && Covers(cur) && bit !in Used(cur)
      requires cur <= p.locals && |cur| <= p.size && bit < width
      modifies this
      ensures BestOk() && MarksFinished(bit) && Improved()
      ensures p.Complete(bestAns, bestCluster, cur, bit)
      ensures forall c, b {:trigger b in Used(c)} :: 0 <= b < bit ==> (b in Used(c) <==> b in old(Used(c)))
      ensures bit in Used(cur)
      ensures forall c, b {:trigger b in Used(c)} :: b in old(Used(c)) ==> b in Used(c)
      decreases width - bit, 0
    {
      Mark(cur, bit);
      label marked:
      if bit in p.locals && bit !in cur && |cur| < p.size {
        Rec(cur + {bit}, bit + 1);
      }
      label half:
      Rec(cur, bit + 1);
      if bit in p.locals && bit !in cur && |cur| < p.size {
        p.CompleteMonotone(old@half(bestAns), old@half(bestCluster), bestAns, bestCluster, cur + {bit}, bit + 1);
      }
      p.CompleteFromBranches(bestAns, bestCluster, cur, bit);
      forall c: Mask, b: nat | b in Used(c) && bit <= b
        ensures p.Complete(bestAns, bestCluster, c, b)
      {
        if b == bit && c != cur {
          assert b in old@half(Used(c));
          assert b in old@marked(Used(c));
          assert b in old(Used(c));
          p.CompleteMonotone(old(bestAns), old(bestCluster), bestAns, bestCluster, c, b);
        }
      }
    }

    // The gates of the best cluster found, or one gate too large for any
    // cluster, or nothing.
    method ScheduleCluster() returns (ans: seq<nat>)
      requires Valid() && used == map[] && bestAns == 0 && bestCluster == {}
      modifies this
      ensures Increasing(ans)
      ensures Plan(p.gates, Elements(ans), p.locals)
      // nothing is returned only when nothing can run on the local qubits
      ensures ans == [] <==> forall a :: Plan(p.gates, a, p.locals) ==> a == {}
      // no cluster within the size limit can fuse more gates ...
      ensures forall c, a :: p.Fusible(c, a) ==> |a| <= |ans|
      // ... and none can fuse as many on fewer qubits
      ensures bestAns != 0 ==> p.Fusible(bestCluster, Elements(ans))
      ensures bestAns != 0 ==> forall c, a :: p.Fusible(c, a) && |a| == |ans| ==> |bestCluster| <= |c|
      // a gate too large for every cluster is returned only on its own
      ensures bestAns == 0 ==> |ans| <= 1 && forall c, a :: p.Fusible(c, a) ==> a == {}
      ensures ans != [] ==> p.BestCluster(Elements(ans))
    {
      if |p.gates| == 0 {
        return [];
      }
      SearchAll();
      if bestAns != 0 {
        ans := GetCommandsFromMask();
        assert p.Largest(bestCluster, Elements(ans));
        return;
      }
      ans := GetCommandsFromLocals();
      if ans != [] {
        assert p.HugeFirst(Elements(ans));
      }
    }

    // Extends the local qubits of every gate that fits a cluster.
    method SearchAll()
      requires Valid() && used == map[] && bestAns == 0 && bestCluster == {}
      modifies this
      ensures BestOk() && forall c, a :: p.Fusible(c, a) ==> |a| < bestAns || (|a| == bestAns && |bestCluster| <= |c|)
    {
      bestAns, bestCluster := 0, {};
      for i := 0 to |p.gates|
        invariant BestOk() && MarksFinished(0)
        invariant forall k :: (0 <= k < i && |p.locals * p.gates[k].Qubits()| <= p.size
                               ==> p.Complete(bestAns, bestCluster, p.locals * p.gates[k].Qubits(), 0))
      {
        var start := p.locals * p.gates[i].Qubits();
        label before:
        if |start| <= p.size {
          Rec(start, 0);
          forall k | 0 <= k < i && |p.locals * p.gates[k].Qubits()| <= p.size
            ensures p.Complete(bestAns, bestCluster, p.locals * p.gates[k].Qubits(), 0)
          {
            p.CompleteMonotone(old@before(bestAns), old@before(bestCluster), bestAns, bestCluster,
                               p.locals * p.gates[k].Qubits(), 0);
          }
        }
      }
      forall c, a | p.Fusible(c, a)
        ensures |a| < bestAns || (|a| == bestAns && |bestCluster| <= |c|)
      {
        p.SingleGateClustersSuffice(bestAns, bestCluster, c);
        GreedyScanIsLargest(p.gates, p.locals, c);
      }
    }

    method GetCommandsFromMask() returns (ans: seq<nat>)
      requires BestOk() && bestAns != 0
      ensures Increasing(ans) && |ans| == |Elements(ans)| == bestAns
      ensures p.Fusible(bestCluster, Elements(ans))
    {
      var curBad: Mask := {};
      ans := [];
      for i := 0 to |p.gates|
        invariant (ans, curBad) == Scan(p.gates, p.locals, bestCluster, i)
      {
        if CanTake(p.gates[i], p.locals, bestCluster, curBad) {
          ans := ans + [i];
        } else {
          curBad := curBad + p.gates[i].Qubits();
        }
      }
      assert |ans| == bestAns;
      GreedyScanIsLargest(p.gates, p.locals, bestCluster);
      ScanInvariant(p.gates, p.locals, bestCluster, |p.gates|);
    }

    method GetCommandsFromLocals() returns (ans: seq<nat>)
      ensures |ans| == |Elements(ans)| <= 1 && Plan(p.gates, Elements(ans), p.locals)
      ensures ans != [] ==> forall j :: 0 <= j < ans[0] ==> !Plan(p.gates, {j}, p.locals)
      ensures ans == [] <==> forall a :: Plan(p.gates, a, p.locals) ==> a == {}
    {
      var curBad: Mask := {};
      for i := 0 to |p.gates|
        invariant Scan(p.gates, p.locals, p.locals, i) == ([], curBad)
      {
        if CanTake(p.gates[i], p.locals, p.locals, curBad) {
          ScanInvariant(p.gates, p.locals, p.locals, i);
          assert Elements([i]) == {i};
          forall j | 0 <= j < i ensures !Plan(p.gates, {j}, p.locals) {
            NoneEarlier(p.gates, p.locals, i, j);
          }
          assert Plan(p.gates, {i}, p.locals);
          return [i];
        }
        curBad := curBad + p.gates[i].Qubits();
      }
      forall a | Plan(p.gates, a, p.locals) ensures a == {} {
        assert Admissible(p.gates, p.locals, p.locals, a);
        GreedyScanIsLargest(p.gates, p.locals, p.locals);
      }
      return [];
    }
  }
}
