// src/scheduler/swap_scheduler.{h,cpp}: which qubits to make local for the
// next stage, by backtracking with a budget of branch splits.

module SwapScheduling {
  import opened Gates
  import opened Bits

  predicate CanTake(g: Gate, numLocals: nat, locals: Mask, bad: Mask) {
    g.Qubits() !! bad && (!g.diag ==> |g.targets + locals| <= numLocals)
  }

  // Local qubits after taking a gate.
  function AfterTaking(g: Gate, locals: Mask): Mask {
    if g.diag then locals else locals + g.targets
  }

  // ----- plans and their weight -------------------------------------------

  ghost function Weight(weights: seq<nat>, a: set<nat>, k: nat): nat
    requires k <= |weights|
  {
    if k == 0 then 0
    else Weight(weights, a, k - 1) + if k - 1 in a then weights[k - 1] else 0
  }

  lemma {:induction false} WeightDependsOnPrefix(weights: seq<nat>, a: set<nat>, b: set<nat>, k: nat)
    requires k <= |weights|
    requires forall i :: 0 <= i < k ==> (i in a <==> i in b)
    ensures Weight(weights, a, k) == Weight(weights, b, k)
  {
    if k > 0 {
      WeightDependsOnPrefix(weights, a, b, k - 1);
    }
  }

  lemma {:induction false} PositiveWeight(weights: seq<nat>, a: set<nat>, k: nat)
    requires k <= |weights|
    requires forall i :: 0 <= i < |weights| ==> weights[i] > 0
    ensures Weight(weights, a, k) > 0 <==> exists i :: i in a && i < k
  {
    if k > 0 {
      PositiveWeight(weights, a, k - 1);
      if k - 1 in a {
        assert k - 1 in a && k - 1 < k;
      }
    }
  }

  lemma PowersDouble(n: nat)
    requires n > 0
    ensures Pow2(n) == 2 * Pow2(n - 1) >= 2
  {
  }

  datatype Found = Found(gain: nat, locals: Mask, left: nat)

  datatype Problem = Problem(gates: seq<Gate>, weights: seq<nat>, numLocals: nat) {
    ghost predicate Valid() {
      |gates| == |weights| && forall i :: 0 <= i < |weights| ==> weights[i] > 0
    }

    // A state of the search below `pos`: the gates of `a` are taken, the other
    // ones have put their qubits into `bad`.
    ghost predicate Prefix(pos: nat, locals: Mask, bad: Mask, ans: nat, a: set<nat>)
      requires Valid()
    {
      && pos <= |gates|
      && (forall i :: i in a ==> i < pos)
      && Plan(gates, a, locals)
      && |locals| <= numLocals
      && locals == Needs(a, |gates|)
      && (forall j :: 0 <= j < pos && j !in a ==> gates[j].Qubits() <= bad)
      && ans == Weight(weights, a, |gates|)
    }

    lemma TakeKeepsPrefix(pos: nat, locals: Mask, bad: Mask, ans: nat, a: set<nat>)
      requires Valid() && Prefix(pos, locals, bad, ans, a) && pos < |gates|
      requires CanTake(gates[pos], numLocals, locals, bad)
      ensures Prefix(pos + 1, AfterTaking(gates[pos], locals), bad, ans + weights[pos], a + {pos})
    {
      TakeKeepsPlan(pos, locals, bad, a);
      assert gates[pos].targets + locals == locals + gates[pos].targets;
      AddWeight(a, pos, |gates|);
      NeedsOneMore(a, pos, |gates|);
    }

    lemma TakeKeepsPlan(pos: nat, locals: Mask, bad: Mask, a: set<nat>)
      requires Plan(gates, a, locals) && pos < |gates| && CanTake(gates[pos], numLocals, locals, bad)
      requires forall i :: i in a ==> i < pos
      requires forall j :: 0 <= j < pos && j !in a ==> gates[j].Qubits() <= bad
      ensures Plan(gates, a + {pos}, AfterTaking(gates[pos], locals))
    {
      var a' := a + {pos};
      forall i, j | i in a' && 0 <= j < i && j !in a' ensures gates[i].Qubits() !! gates[j].Qubits() {
        assert j !in a;
        assert i == pos ==> gates[j].Qubits() <= bad;
      }
    }

    // The targets that have to be local for those of the first k gates that are in a.
    ghost function Needs(a: set<nat>, k: nat): Mask
      requires k <= |gates|
    {
      if k == 0 then {} else
      Needs(a, k - 1) + if k - 1 in a && !gates[k - 1].diag then gates[k - 1].targets else {}
    }

    lemma {:induction false} NeedsOneMore(a: set<nat>, pos: nat, k: nat)
      requires pos < |gates| && k <= |gates|
      ensures Needs(a + {pos}, k) == if pos < k then AfterTaking(gates[pos], Needs(a, k)) else Needs(a, k)
    {
      if k > 0 {
        NeedsOneMore(a, pos, k - 1);
      }
    }

    lemma {:induction false} NeedsKnown(a: set<nat>, k: nat, known: Mask)
      requires k <= |gates| && Within(gates, known)
      ensures Needs(a, k) <= known
    {
      if k > 0 {
        NeedsKnown(a, k - 1, known);
      }
    }

    lemma SkipKeepsPrefix(pos: nat, locals: Mask, bad: Mask, ans: nat, a: set<nat>)
      requires Valid() && Prefix(pos, locals, bad, ans, a) && pos < |gates|
      ensures Prefix(pos + 1, locals, bad + gates[pos].Qubits(), ans, a)
    {
    }

    lemma {:induction false} AddWeight(a: set<nat>, pos: nat, k: nat)
      requires Valid() && pos !in a && k <= |gates|
      ensures Weight(weights, a + {pos}, k) == Weight(weights, a, k) + if pos < k then weights[pos] else 0
    {
      if k > 0 {
        AddWeight(a, pos, k - 1);
      }
    }

    // ----- the unbudgeted optimum -----------------------------------------

    // The most that can still be gained from gate pos on.
    ghost function Optimum(pos: nat, locals: Mask, bad: Mask): nat
      requires Valid() && pos <= |gates|
      decreases |gates| - pos
    {
      if pos == |gates| then 0 else
      var g := gates[pos];
      var skip := Optimum(pos + 1, locals, bad + g.Qubits());
      if CanTake(g, numLocals, locals, bad) then
        var take := weights[pos] + Optimum(pos + 1, AfterTaking(g, locals), bad);
        if take > skip then take else skip
      else skip
    }

    // Blocking more qubits never helps.
    lemma {:induction false} OptimumMonotone(pos: nat, locals: Mask, bad: Mask, bad': Mask)
      requires Valid() && pos <= |gates| && bad <= bad'
      ensures Optimum(pos, locals, bad') <= Optimum(pos, locals, bad)
      decreases |gates| - pos
    {
      if pos < |gates| {
        var g := gates[pos];
        OptimumMonotone(pos + 1, locals, bad + g.Qubits(), bad' + g.Qubits());
        OptimumMonotone(pos + 1, AfterTaking(g, locals), bad, bad');
      }
    }

    // A gate that needs no new local qubit is always worth taking: this is why
    // the search may drop the skip branch for it.
    lemma FreeGateIsTaken(pos: nat, locals: Mask, bad: Mask)
      requires Valid() && pos < |gates|
      requires CanTake(gates[pos], numLocals, locals, bad)
      requires Runnable(gates[pos], locals)
      ensures AfterTaking(gates[pos], locals) == locals
      ensures Optimum(pos, locals, bad) == weights[pos] + Optimum(pos + 1, locals, bad)
    {
      var g := gates[pos];
      OptimumMonotone(pos + 1, locals, bad, bad + g.Qubits());
    }

    // Taking every gate that can be taken, without ever looking back.
    ghost function Greedy(pos: nat, locals: Mask, bad: Mask): nat
      requires |gates| == |weights| && pos <= |gates|
      decreases |gates| - pos
    {
      if pos == |gates| then 0 else
      var g := gates[pos];
      if CanTake(g, numLocals, locals, bad) then weights[pos] + Greedy(pos + 1, AfterTaking(g, locals), bad)
      else Greedy(pos + 1, locals, bad + g.Qubits())
    }

    // ----- what the search finds with a budget ----------------------------

    // The first best choice from gate pos on, in the order skip before take,
    // with these many splits. A gate that needs no new local qubit is not
    // skipped; half of the other splits go to the skip branch, and what that
    // does not use to the take branch.
    ghost function Search(pos: nat, locals: Mask, bad: Mask, splits: nat): (r: Found)
      requires |gates| == |weights| && pos <= |gates|
      ensures r.left <= splits
      decreases |gates| - pos
    {
      if pos == |gates| then Found(0, locals, splits) else
      var g := gates[pos];
      if !CanTake(g, numLocals, locals, bad) then Search(pos + 1, locals, bad + g.Qubits(), splits)
      else if Runnable(g, locals) || splits == 0 then
        var take := Search(pos + 1, AfterTaking(g, locals), bad, splits);
        take.(gain := weights[pos] + take.gain)
      else
        var give := (splits - 1) / 2;
        var skip := Search(pos + 1, locals, bad + g.Qubits(), give);
        var take := Search(pos + 1, AfterTaking(g, locals), bad, splits - 1 - (give - skip.left));
        if weights[pos] + take.gain > skip.gain then take.(gain := weights[pos] + take.gain)
        else skip.(left := take.left)
    }

    ghost predicate TwoBranches(pos: nat, locals: Mask, bad: Mask, splits: nat)
      requires pos < |gates|
    {
      CanTake(gates[pos], numLocals, locals, bad) && !Runnable(gates[pos], locals) && splits > 0
    }

    ghost function Give(splits: nat): nat {
      if splits == 0 then 0 else Share(splits - 1, 2)
    }

    // What the skip branch and the take branch of a gate find.
    ghost function Skipped(pos: nat, locals: Mask, bad: Mask, splits: nat): Found
      requires |gates| == |weights| && pos < |gates|
    {
      Search(pos + 1, locals, bad + gates[pos].Qubits(),
             if TwoBranches(pos, locals, bad, splits) then Give(splits) else splits)
    }

    ghost function Rest(pos: nat, locals: Mask, bad: Mask, splits: nat): nat
      requires |gates| == |weights| && pos < |gates|
    {
      var skip := Skipped(pos, locals, bad, splits);
      if !CanTake(gates[pos], numLocals, locals, bad) then skip.left
      else if TwoBranches(pos, locals, bad, splits) then splits - 1 + skip.left - Give(splits) else splits
    }

    ghost function Taken(pos: nat, locals: Mask, bad: Mask, splits: nat): Found
      requires |gates| == |weights| && pos < |gates|
    {
      Search(pos + 1, AfterTaking(gates[pos], locals), bad, Rest(pos, locals, bad, splits))
    }

    // The better of the two, the skip branch first.
    ghost function BetterOf(skip: Found, take: Found, w: nat): Found {
      if w + take.gain > skip.gain then Found(w + take.gain, take.locals, take.left)
      else Found(skip.gain, skip.locals, take.left)
    }

    lemma SearchIsBranches(pos: nat, locals: Mask, bad: Mask, splits: nat)
      requires |gates| == |weights| && pos < |gates|
      ensures var skip, take := Skipped(pos, locals, bad, splits), Taken(pos, locals, bad, splits);
              Search(pos, locals, bad, splits)
              == if !CanTake(gates[pos], numLocals, locals, bad) then skip
                 else if TwoBranches(pos, locals, bad, splits) then BetterOf(skip, take, weights[pos])
                 else Found(weights[pos] + take.gain, take.locals, take.left)
    {
      if TwoBranches(pos, locals, bad, splits) {
        var skip := Skipped(pos, locals, bad, splits);
        assert splits - 1 - (Give(splits) - skip.left) == splits - 1 + skip.left - Give(splits);
      }
    }

    lemma {:induction false} NoGainNoChange(pos: nat, locals: Mask, bad: Mask, splits: nat)
      requires Valid() && pos <= |gates|
      ensures Search(pos, locals, bad, splits).gain == 0 ==> Search(pos, locals, bad, splits).locals == locals
      decreases |gates| - pos
    {
      if pos < |gates| && !CanTake(gates[pos], numLocals, locals, bad) {
        NoGainNoChange(pos + 1, locals, bad + gates[pos].Qubits(), splits);
      }
    }

    // With any budget the search does at least as well as the greedy choice.
    lemma {:induction false} SearchBeatsGreedy(pos: nat, locals: Mask, bad: Mask, splits: nat)
      requires |gates| == |weights| && pos <= |gates|
      ensures Search(pos, locals, bad, splits).gain >= Greedy(pos, locals, bad)
      ensures splits == 0 ==> Search(pos, locals, bad, splits).gain == Greedy(pos, locals, bad)
      decreases |gates| - pos
    {
      if pos < |gates| {
        var g := gates[pos];
        if !CanTake(g, numLocals, locals, bad) {
          SearchBeatsGreedy(pos + 1, locals, bad + g.Qubits(), splits);
        } else if Runnable(g, locals) || splits == 0 {
          SearchBeatsGreedy(pos + 1, AfterTaking(g, locals), bad, splits);
        } else {
          var give := (splits - 1) / 2;
          var skip := Search(pos + 1, locals, bad + g.Qubits(), give);
          SearchBeatsGreedy(pos + 1, AfterTaking(g, locals), bad, splits - 1 - (give - skip.left));
        }
      }
    }

    // It never claims more than the exhaustive recursion ...
    lemma {:induction false} SearchWithinOptimum(pos: nat, locals: Mask, bad: Mask, splits: nat)
      requires |gates| == |weights| && pos <= |gates| && Valid()
      ensures Search(pos, locals, bad, splits).gain <= Optimum(pos, locals, bad)
      decreases |gates| - pos
    {
      if pos < |gates| {
        var g := gates[pos];
        SearchIsBranches(pos, locals, bad, splits);
        if !CanTake(g, numLocals, locals, bad) || TwoBranches(pos, locals, bad, splits) {
          SearchWithinOptimum(pos + 1, locals, bad + g.Qubits(), if TwoBranches(pos, locals, bad, splits) then Give(splits) else splits);
        }
        if CanTake(g, numLocals, locals, bad) {
          SearchWithinOptimum(pos + 1, AfterTaking(g, locals), bad, Rest(pos, locals, bad, splits));
        }
      }
    }

    // ... and finds as much when there are splits enough.
    lemma {:induction false} EnoughSplits(pos: nat, locals: Mask, bad: Mask, splits: nat)
      requires Valid() && pos <= |gates| && splits + 1 >= Pow2(|gates| - pos)
      ensures Search(pos, locals, bad, splits).gain >= Optimum(pos, locals, bad)
      decreases |gates| - pos
    {
      if pos < |gates| {
        var g := gates[pos];
        PowersDouble(|gates| - pos);
        SearchIsBranches(pos, locals, bad, splits);
        if !CanTake(g, numLocals, locals, bad) || TwoBranches(pos, locals, bad, splits) {
          EnoughSplits(pos + 1, locals, bad + g.Qubits(), if TwoBranches(pos, locals, bad, splits) then Give(splits) else splits);
        }
        if CanTake(g, numLocals, locals, bad) {
          EnoughSplits(pos + 1, AfterTaking(g, locals), bad, Rest(pos, locals, bad, splits));
          if Runnable(g, locals) {
            FreeGateIsTaken(pos, locals, bad);
          }
        }
      }
    }

    // One split more is never worse, and at most it is left over.
    lemma {:induction false} OneMoreSplit(pos: nat, locals: Mask, bad: Mask, splits: nat)
      requires |gates| == |weights| && pos <= |gates|
      ensures var r, r' := Search(pos, locals, bad, splits), Search(pos, locals, bad, splits + 1);
              r.gain <= r'.gain && r.left <= r'.left <= r.left + 1
      decreases |gates| - pos
    {
      if pos < |gates| {
        var g, more := gates[pos], splits + 1;
        SearchIsBranches(pos, locals, bad, splits);
        SearchIsBranches(pos, locals, bad, more);
        if !CanTake(g, numLocals, locals, bad) {
          OneMoreSplit(pos + 1, locals, bad + g.Qubits(), splits);
        } else if Runnable(g, locals) {
          OneMoreSplit(pos + 1, AfterTaking(g, locals), bad, splits);
        } else if splits > 0 {
          if Give(more) == Give(splits) + 1 {
            OneMoreSplit(pos + 1, locals, bad + g.Qubits(), Give(splits));
          }
          if Rest(pos, locals, bad, more) == Rest(pos, locals, bad, splits) + 1 {
            OneMoreSplit(pos + 1, AfterTaking(g, locals), bad, Rest(pos, locals, bad, splits));
          }
        }
      }
    }

    // More splits never find less.
    lemma {:induction false} MoreSplitsFindMore(splits: nat, splits': nat)
      requires |gates| == |weights| && splits <= splits'
      ensures Search(0, {}, {}, splits).gain <= Search(0, {}, {}, splits').gain
      decreases splits' - splits
    {
      if splits < splits' {
        OneMoreSplit(0, {}, {}, splits);
        MoreSplitsFindMore(splits + 1, splits');
      }
    }

    // No plan within the qubit limit weighs more than the optimum.
    lemma {:induction false} OptimumBoundsPlans(pos: nat, locals: Mask, bad: Mask, a: set<nat>, l: Mask)
      requires Valid() && pos <= |gates| && Plan(gates, a, l) && |l| <= numLocals && locals <= l
      requires forall i :: i in a && pos <= i ==> gates[i].Qubits() !! bad
      ensures Weight(weights, a, |gates|) <= Weight(weights, a, pos) + Optimum(pos, locals, bad)
      decreases |gates| - pos
    {
      if pos < |gates| {
        var g := gates[pos];
        if pos in a {
          if !g.diag {
            SubsetCardinality(g.targets + locals, l);
          }
          OptimumBoundsPlans(pos + 1, AfterTaking(g, locals), bad, a, l);
        } else {
          OptimumBoundsPlans(pos + 1, locals, bad + g.Qubits(), a, l);
        }
      }
    }

    ghost predicate PlanWithin(a: set<nat>, l: Mask) {
      Plan(gates, a, l) && |l| <= numLocals
    }

    lemma NoPlanBeatsOptimum()
      requires Valid()
      ensures forall a, l :: PlanWithin(a, l) ==> Weight(weights, a, |gates|) <= Optimum(0, {}, {})
    {
      forall a, l | PlanWithin(a, l) ensures Weight(weights, a, |gates|) <= Optimum(0, {}, {}) {
        OptimumBoundsPlans(0, {}, {}, a, l);
      }
    }
  }

  // n calls for each leaf.
  ghost function Calls(leaves: nat, n: nat): nat {
    if leaves == 0 then 0 else n + Calls(leaves - 1, n)
  }

  lemma {:induction false} CallsAre(leaves: nat, n: nat)
    ensures Calls(leaves, n) == leaves * n
  {
    if leaves > 0 {
      CallsAre(leaves - 1, n);
    }
  }

  lemma {:induction false} CallsAdd(leaves1: nat, leaves2: nat, n: nat)
    ensures Calls(leaves1 + leaves2, n) == Calls(leaves1, n) + Calls(leaves2, n)
  {
    if leaves1 > 0 {
      CallsAdd(leaves1 - 1, leaves2, n);
    }
  }

  lemma {:induction false} CallsMore(leaves: nat, below: nat, n: nat)
    requires n == below + 1
    ensures Calls(leaves, n) == Calls(leaves, below) + leaves
  {
    if leaves > 0 {
      CallsMore(leaves - 1, below, n);
    }
  }

  lemma CallsPerLeaf(leaves1: nat, calls1: nat, leaves2: nat, calls2: nat, below: nat, n: nat)
    requires calls1 <= Calls(leaves1, below) && calls2 <= Calls(leaves2, below) && leaves1 + leaves2 > 0 && n == below + 1
    ensures 1 + calls1 + calls2 <= Calls(leaves1 + leaves2, n)
  {
    CallsAdd(leaves1, leaves2, below);
    CallsMore(leaves1 + leaves2, below, n);
  }

  // The first branch's part of the remaining splits.
  function Share(splits: nat, branches: nat): (r: nat)
    requires 1 <= branches <= 2
    ensures branches == 1 ==> r == splits
    ensures branches == 2 ==> 2 * r <= splits <= 2 * r + 1
  {
    splits / branches
  }

  datatype Answer = Answer(ans: nat, locals: Mask)

  // A new answer counts only if it is strictly better.
  ghost function Better(best: Answer, ans: nat, found: Mask): Answer {
    if ans > best.ans then Answer(ans, found) else best
  }

  lemma BetterTwice(p: Problem, best: Answer, ans: nat, skip: Found, take: Found, w: nat)
    ensures var found := p.BetterOf(skip, take, w);
            Better(Better(best, ans + skip.gain, skip.locals), ans + w + take.gain, take.locals)
            == Better(best, ans + found.gain, found.locals)
  {
  }

  // The node itself, then what lies below it.
  lemma BetterBelow(best: Answer, ans: nat, locals: Mask, found: Found)
    requires found.gain == 0 ==> found.locals == locals
    ensures Better(Better(best, ans, locals), ans + found.gain, found.locals) == Better(best, ans + found.gain, found.locals)
  {
  }

  // ----- the budgeted search ----------------------------------------------

  class SwapSearch {
    const p: Problem
    var bestAns: nat
    var bestLocals: Mask
    ghost var plan: set<nat>    // the gates that the best answer takes

    constructor (p: Problem)
      requires p.Valid()
      ensures this.p == p && bestAns == 0 && bestLocals == {} && BestOk()
    {
      this.p := p;
      bestAns, bestLocals, plan := 0, {}, {};
      new;
      EmptyPlan(p);
    }

    // The best answer is achieved by the plan, and no qubit is made local that
    // no gate of the plan needs.
    ghost predicate BestOk()
      reads this
    {
      && p.Valid()
      && p.PlanWithin(plan, bestLocals) && bestLocals == p.Needs(plan, |p.gates|)
      && bestAns == Weight(p.weights, plan, |p.gates|)
    }

    ghost function Best(): Answer
      reads this
    {
      Answer(bestAns, bestLocals)
    }

    method Improve(pos: nat, curLocals: Mask, curBad: Mask, curAns: nat, ghost taken: set<nat>)
      requires BestOk() && p.Prefix(pos, curLocals, curBad, curAns, taken)
      modifies this
      ensures BestOk() && Best() == Better(old(Best()), curAns, curLocals)
    {
      if curAns > bestAns {
        bestAns, bestLocals, plan := curAns, curLocals, taken;
      }
    }

    // Explores gate pos on. Returns the splits not used; the ghost results
    // count the leaves reached and the calls made.
    method Rec(pos: nat, curLocals: Mask, curBad: Mask, curAns: nat, splits: nat,
               ghost found: Found, ghost taken: set<nat>, ghost n: nat)
      returns (left: nat, ghost leaves: nat, ghost calls: nat)
      requires n == |p.gates| - pos + 1
      requires BestOk() && p.Prefix(pos, curLocals, curBad, curAns, taken)
      requires found == p.Search(pos, curLocals, curBad, splits)
      modifies this
      ensures BestOk()
      ensures left == found.left && Best() == Better(old(Best()), curAns + found.gain, found.locals)
      ensures left <= splits && leaves == 1 + (splits - left)
      ensures calls <= Calls(leaves, n)
      decreases |p.gates| - pos, 2
    {
      Improve(pos, curLocals, curBad, curAns, taken);
      if pos == |p.gates| {
        CallsAre(1, n);
        return splits, 1, 1;
      }
      var canSkip, canTake, cntTake;
      canSkip, canTake, cntTake := Branches(pos, curLocals, curBad, splits);
      p.NoGainNoChange(pos, curLocals, curBad, splits);
      p.SearchIsBranches(pos, curLocals, curBad, splits);
      BetterBelow(old(Best()), curAns, curLocals, found);
      left, leaves, calls := Branch(pos, curLocals, curBad, curAns, splits - (cntTake - 1), cntTake, canSkip, canTake,
                                    p.Skipped(pos, curLocals, curBad, splits), p.Rest(pos, curLocals, curBad, splits),
                                    p.Taken(pos, curLocals, curBad, splits), found, taken, n);
    }

    // Which branches to follow, and how many they are; no CHECK fails.
    method Branches(pos: nat, curLocals: Mask, curBad: Mask, splits: nat) returns (canSkip: bool, canTake: bool, cntTake: nat)
      requires pos < |p.gates|
      ensures var two := p.TwoBranches(pos, curLocals, curBad, splits);
              && canTake == CanTake(p.gates[pos], p.numLocals, curLocals, curBad)
              && canSkip == (!canTake || two) && cntTake == if two then 2 else 1
    {
      var g := p.gates[pos];
      canSkip, cntTake := true, 1;
      canTake := CanTake(g, p.numLocals, curLocals, curBad);
      if canTake {
        if !g.diag {
          if g.targets <= curLocals {
            canSkip := false;
            cntTake := cntTake - 1;
          }
          cntTake := cntTake + 1;
        } else {
          canSkip := false;
        }
      }
      assert 0 < cntTake <= 2;
      if splits == 0 {
        if canTake && canSkip {
          assert cntTake == 2;
          canSkip := false;
          cntTake := cntTake - 1;
        }
        assert canTake || canSkip;
        assert cntTake == 1;
      }
    }

    // Explores what follows once gate pos is taken.
    method Take(pos: nat, curLocals: Mask, curBad: Mask, curAns: nat, splits: nat,
                ghost take: Found, ghost taken: set<nat>, ghost n: nat)
      returns (left: nat, ghost leaves: nat, ghost calls: nat)
      requires BestOk() && p.Prefix(pos, curLocals, curBad, curAns, taken) && pos < |p.gates| && n == |p.gates| - pos
      requires CanTake(p.gates[pos], p.numLocals, curLocals, curBad)
      requires take == p.Search(pos + 1, AfterTaking(p.gates[pos], curLocals), curBad, splits)
      modifies this
      ensures BestOk() && left == take.left
      ensures Best() == Better(old(Best()), curAns + p.weights[pos] + take.gain, take.locals)
      ensures left <= splits && leaves == 1 + (splits - left)
      ensures calls <= Calls(leaves, n)
      decreases |p.gates| - pos, 0
    {
      var g := p.gates[pos];
      p.TakeKeepsPrefix(pos, curLocals, curBad, curAns, taken);
      if !g.diag {
        left, leaves, calls := Rec(pos + 1, curLocals + g.targets, curBad, curAns + p.weights[pos], splits, take, taken + {pos}, n);
      } else {
        left, leaves, calls := Rec(pos + 1, curLocals, curBad, curAns + p.weights[pos], splits, take, taken + {pos}, n);
      }
    }

    // Explores what follows once gate pos is skipped.
    method Skip(pos: nat, curLocals: Mask, curBad: Mask, curAns: nat, splits: nat,
                ghost skip: Found, ghost taken: set<nat>, ghost n: nat)
      returns (left: nat, ghost leaves: nat, ghost calls: nat)
      requires BestOk() && p.Prefix(pos, curLocals, curBad, curAns, taken) && pos < |p.gates| && n == |p.gates| - pos
      requires skip == p.Search(pos + 1, curLocals, curBad + p.gates[pos].Qubits(), splits)
      modifies this
      ensures BestOk() && left == skip.left
      ensures Best() == Better(old(Best()), curAns + skip.gain, skip.locals)
      ensures left <= splits && leaves == 1 + (splits - left)
      ensures calls <= Calls(leaves, n)
      decreases |p.gates| - pos, 0
    {
      p.SkipKeepsPrefix(pos, curLocals, curBad, curAns, taken);
      left, leaves, calls := Rec(pos + 1, curLocals, curBad + p.gates[pos].Qubits(), curAns, splits, skip, taken, n);
    }

    // The branches of one gate, sharing the remaining splits; `skip` and
    // `take` are what they find.
    method Branch(pos: nat, curLocals: Mask, curBad: Mask, curAns: nat, splits: nat,
                  cntTake: nat, canSkip: bool, canTake: bool,
                  ghost skip: Found, ghost rest: nat, ghost take: Found, ghost found: Found, ghost taken: set<nat>, ghost n: nat)
      returns (left: nat, ghost leaves: nat, ghost calls: nat)
      requires BestOk() && p.Prefix(pos, curLocals, curBad, curAns, taken) && pos < |p.gates| && n == |p.gates| - pos + 1
      requires canTake == CanTake(p.gates[pos], p.numLocals, curLocals, curBad)
      requires 0 < cntTake == (if canSkip then 1 else 0) + (if canTake then 1 else 0)
      requires canSkip ==> skip == p.Search(pos + 1, curLocals, curBad + p.gates[pos].Qubits(), Share(splits, cntTake))
      requires rest == if canSkip then splits + skip.left - Share(splits, cntTake) else splits
      requires canTake ==> take == p.Search(pos + 1, AfterTaking(p.gates[pos], curLocals), curBad, rest)
      requires found == if !canTake then skip
                        else if canSkip then p.BetterOf(skip, take, p.weights[pos])
                        else Found(p.weights[pos] + take.gain, take.locals, take.left)
      modifies this
      ensures BestOk() && left == found.left
      ensures Best() == Better(old(Best()), curAns + found.gain, found.locals)
      ensures left <= splits && leaves == cntTake + (splits - left)
      ensures calls <= Calls(leaves, n)
      decreases |p.gates| - pos, 1
    {
      left := splits;
      var cnt := cntTake;
      ghost var below := n - 1;
      ghost var l1, c1: nat, l2, c2: nat := 0, 0, 0, 0;
      if canSkip {
        var give := Share(left, cnt);
        var back;
        back, l1, c1 := Skip(pos, curLocals, curBad, curAns, give, skip, taken, below);
        left := left + back - give;
        cnt := cnt - 1;
      }
      assert left == rest;
      if canTake {
        left, l2, c2 := Take(pos, curLocals, curBad, curAns, left, take, taken, below);
        cnt := cnt - 1;
      }
      assert cnt == 0;
      BetterTwice(p, old(Best()), curAns, skip, take, p.weights[pos]);
      CallsPerLeaf(l1, c1, l2, c2, below, n);
      leaves, calls := l1 + l2, 1 + c1 + c2;
    }
  }

  // ----- fusing single-qubit gates ----------------------------------------

  ghost function Members(owner: seq<nat>, j: nat): set<nat> {
    set m | 0 <= m < |owner| && owner[m] == j
  }

  ghost function Expand(owner: seq<nat>, a: set<nat>): set<nat> {
    set m | 0 <= m < |owner| && owner[m] in a
  }

  // `owner[m]` is the place, in the current list, of the gate that original
  // gate m has been fused into.
  ghost predicate FusionOk(original: seq<Gate>, gates: seq<Gate>, weights: seq<nat>, owner: seq<nat>) {
    && |owner| == |original| && |weights| == |gates|
    && (forall known :: Within(original, known) ==> Within(gates, known))
    && (forall m :: 0 <= m < |owner| ==> owner[m] < |gates|)
    && (forall m :: 0 <= m < |owner| ==> Absorbs(gates[owner[m]], original[m]))
    && (forall m, m' :: 0 <= m < m' < |owner| && !(original[m].Qubits() !! original[m'].Qubits())
                        ==> owner[m] <= owner[m'])
    && (forall j :: 0 <= j < |gates| ==> weights[j] == |Members(owner, j)| && Members(owner, j) != {})
  }

  // Every gate of the list is the gates that have been fused into it.
  ghost predicate FusionExact(original: seq<Gate>, gates: seq<Gate>, owner: seq<nat>) {
    forall j {:trigger FusedOf(gates[j], original, Members(owner, j))} ::
      0 <= j < |gates| ==> FusedOf(gates[j], original, Members(owner, j))
  }

  // The targets, and the qubits, of those of the first k gates that are in a.
  ghost function TargetsOf(gates: seq<Gate>, a: set<nat>, k: nat): Mask
    requires k <= |gates|
  {
    if k == 0 then {} else TargetsOf(gates, a, k - 1) + if k - 1 in a then gates[k - 1].targets else {}
  }

  ghost function QubitsOf(gates: seq<Gate>, a: set<nat>, k: nat): Mask
    requires k <= |gates|
  {
    if k == 0 then {} else QubitsOf(gates, a, k - 1) + if k - 1 in a then gates[k - 1].Qubits() else {}
  }

  ghost predicate AllDiagonal(gates: seq<Gate>, a: set<nat>, k: nat)
    requires k <= |gates|
  {
    k == 0 || (AllDiagonal(gates, a, k - 1) && (k - 1 in a ==> gates[k - 1].diag))
  }

  // No gate controls its own target.
  ghost predicate Proper(gates: seq<Gate>) {
    forall i :: 0 <= i < |gates| ==> gates[i].targets !! gates[i].controls
  }

  // g is the gates of a fused, and nothing else.
  ghost predicate FusedOf(g: Gate, original: seq<Gate>, a: set<nat>) {
    && g.targets == TargetsOf(original, a, |original|)
    && g.Qubits() == QubitsOf(original, a, |original|)
    && g.diag == AllDiagonal(original, a, |original|)
    && (Proper(original) ==> g.targets !! g.controls)
  }

  lemma {:induction false} PartsAre(gates: seq<Gate>, a: set<nat>, k: nat, q: nat)
    requires k <= |gates|
    ensures q in TargetsOf(gates, a, k) <==> exists m :: m in a && m < k && q in gates[m].targets
    ensures q in QubitsOf(gates, a, k) <==> exists m :: m in a && m < k && q in gates[m].Qubits()
    ensures AllDiagonal(gates, a, k) <==> forall m :: m in a && m < k ==> gates[m].diag
  {
    if k > 0 {
      PartsAre(gates, a, k - 1, q);
      assert k - 1 in a && q in gates[k - 1].targets ==> exists m :: m in a && m < k && q in gates[m].targets;
      assert k - 1 in a && q in gates[k - 1].Qubits() ==> exists m :: m in a && m < k && q in gates[m].Qubits();
    }
  }

  // A qubit is a target of the fused gate exactly when it is one of some gate
  // in it, and a control exactly when it is a qubit of some and a target of
  // none; the fused gate is diagonal exactly when all of them are.
  lemma FusedGateIs(g: Gate, original: seq<Gate>, a: set<nat>, q: nat)
    requires FusedOf(g, original, a) && forall m :: m in a ==> m < |original|
    ensures q in g.targets <==> exists m :: m in a && q in original[m].targets
    ensures Proper(original) ==>
              (q in g.controls <==> (exists m :: m in a && q in original[m].Qubits()) && forall m :: m in a ==> q !in original[m].targets)
    ensures g.diag <==> forall m :: m in a ==> original[m].diag
  {
    PartsAre(original, a, |original|, q);
  }

  lemma {:induction false} PartsJoin(gates: seq<Gate>, a: set<nat>, b: set<nat>, k: nat)
    requires k <= |gates|
    ensures TargetsOf(gates, a + b, k) == TargetsOf(gates, a, k) + TargetsOf(gates, b, k)
    ensures QubitsOf(gates, a + b, k) == QubitsOf(gates, a, k) + QubitsOf(gates, b, k)
    ensures AllDiagonal(gates, a + b, k) == (AllDiagonal(gates, a, k) && AllDiagonal(gates, b, k))
  {
    if k > 0 {
      PartsJoin(gates, a, b, k - 1);
    }
  }

  lemma {:induction false} PartsOfOne(gates: seq<Gate>, m: nat, k: nat)
    requires k <= |gates|
    ensures TargetsOf(gates, {m}, k) == if m < k then gates[m].targets else {}
    ensures QubitsOf(gates, {m}, k) == if m < k then gates[m].Qubits() else {}
    ensures AllDiagonal(gates, {m}, k) == (m < k ==> gates[m].diag)
  {
    if k > 0 {
      PartsOfOne(gates, m, k - 1);
    }
  }

  lemma FuseJoins(g: Gate, part: Gate, original: seq<Gate>, a: set<nat>, b: set<nat>, q: nat)
    requires FusedOf(g, original, a) && FusedOf(part, original, b)
    requires part.Qubits() == {q} && part.targets == {q} && q in g.Qubits()
    ensures FusedOf(Fuse(g, part), original, a + b)
  {
    PartsJoin(original, a, b, |original|);
    FuseAbsorbs(g, part, g, q);
    FuseTargets(g, part, q);
  }

  lemma FuseTargets(g: Gate, part: Gate, q: nat)
    requires part.targets == {q} && q in g.Qubits()
    ensures Fuse(g, part).targets == g.targets + {q} && Fuse(g, part).diag == (g.diag && part.diag)
    ensures g.targets !! g.controls ==> Fuse(g, part).targets !! Fuse(g, part).controls
  {
    assert q in g.controls * part.targets <==> q in g.controls;
  }

  ghost predicate Absorbs(g: Gate, part: Gate) {
    part.Qubits() <= g.Qubits() && part.targets <= g.targets && (g.diag ==> part.diag)
  }

  // Fusing single-qubit gate `part` into g: a control it acts on becomes a target.
  function Fuse(g: Gate, part: Gate): Gate {
    var d := if part.diag then g.diag else false;
    if g.controls * part.targets != {} then
      Gate(g.targets + part.targets, (g.controls - part.targets) + (part.targets - g.controls), d)
    else g.(diag := d)
  }

  function Without<T>(s: seq<T>, i: nat): seq<T>
    requires i < |s|
  {
    s[..i] + s[i + 1..]
  }

  ghost function Moved(owner: seq<nat>, i: nat, j: nat): seq<nat>
    requires i != j
  {
    seq(|owner|, m requires 0 <= m < |owner| => var o := if owner[m] == i then j else owner[m]; if o > i then o - 1 else o)
  }

  // i can be fused into j: it is a single-qubit gate and no gate in between
  // acts on its qubit.
  ghost predicate Fusible(gates: seq<Gate>, i: nat, j: nat, q: nat) {
    && i < |gates| && j < |gates| && i != j
    && gates[i].Qubits() == {q} && gates[i].targets == {q} && q in gates[j].Qubits()
    && (forall k :: i < k < j || j < k < i ==> q !in gates[k].Qubits())
  }

  lemma FuseAbsorbs(g: Gate, part: Gate, other: Gate, q: nat)
    requires part.Qubits() == {q} && part.targets == {q} && q in g.Qubits()
    ensures Absorbs(Fuse(g, part), g) && Absorbs(Fuse(g, part), part)
    ensures Fuse(g, part).Qubits() == g.Qubits()
    ensures Absorbs(g, other) || Absorbs(part, other) ==> Absorbs(Fuse(g, part), other)
  {
    assert q in g.controls * part.targets <==> q in g.controls;
    assert forall r :: r in g.controls * part.targets ==> r == q;
  }

  // Moving i's parts to j keeps gates that share a qubit in order.
  lemma MovedKeepsOrder(original: seq<Gate>, gates: seq<Gate>, weights: seq<nat>, owner: seq<nat>,
                        i: nat, j: nat, q: nat, m: nat, m': nat)
    requires FusionOk(original, gates, weights, owner) && Fusible(gates, i, j, q)
    requires m < m' < |owner| && !(original[m].Qubits() !! original[m'].Qubits())
    ensures Moved(owner, i, j)[m] <= Moved(owner, i, j)[m']
  {
    var shared :| shared in original[m].Qubits() && shared in original[m'].Qubits();
    assert Absorbs(gates[owner[m]], original[m]) && Absorbs(gates[owner[m']], original[m']);
    assert shared in gates[owner[m]].Qubits() && shared in gates[owner[m']].Qubits();
    assert owner[m] <= owner[m'];
  }

  lemma MovedMembers(owner: seq<nat>, i: nat, j: nat, k: nat)
    requires i != j
    ensures var k0 := if k >= i then k + 1 else k;
            Members(Moved(owner, i, j), k)
            == if k0 == j then Members(owner, j) + Members(owner, i) else Members(owner, k0)
  {
  }

  lemma MovedAbsorbs(original: seq<Gate>, gates: seq<Gate>, weights: seq<nat>, owner: seq<nat>,
                     i: nat, j: nat, q: nat, m: nat)
    requires FusionOk(original, gates, weights, owner) && Fusible(gates, i, j, q) && m < |owner|
    ensures var gates' := Without(gates[j := Fuse(gates[j], gates[i])], i);
            Moved(owner, i, j)[m] < |gates'| && Absorbs(gates'[Moved(owner, i, j)[m]], original[m])
  {
    assert Absorbs(gates[owner[m]], original[m]);
    FuseAbsorbs(gates[j], gates[i], original[m], q);
  }

  lemma WithoutAt<T>(s: seq<T>, i: nat, k: nat)
    requires i < |s| && k < |s| - 1
    ensures Without(s, i)[k] == s[if k >= i then k + 1 else k]
  {
  }

  lemma DisjointUnion(a: set<nat>, b: set<nat>)
    ensures a !! b ==> |a + b| == |a| + |b|
  {
  }

  lemma MovedWeights(gates: seq<Gate>, weights: seq<nat>, owner: seq<nat>, i: nat, j: nat, k: nat)
    requires |weights| == |gates| && i < |gates| && j < |gates| && i != j && k < |gates| - 1
    requires forall k :: 0 <= k < |gates| ==> weights[k] == |Members(owner, k)| && Members(owner, k) != {}
    ensures Without(weights[j := weights[j] + weights[i]], i)[k] == |Members(Moved(owner, i, j), k)|
    ensures Members(Moved(owner, i, j), k) != {}
  {
    MovedMembers(owner, i, j, k);
    WithoutAt(weights[j := weights[j] + weights[i]], i, k);
    DisjointUnion(Members(owner, j), Members(owner, i));
  }

  lemma FuseStep(original: seq<Gate>, gates: seq<Gate>, weights: seq<nat>, owner: seq<nat>, i: nat, j: nat, q: nat)
    requires FusionOk(original, gates, weights, owner) && Fusible(gates, i, j, q)
    ensures FusionOk(original, Without(gates[j := Fuse(gates[j], gates[i])], i),
                     Without(weights[j := weights[j] + weights[i]], i), Moved(owner, i, j))
  {
    forall known | Within(original, known) ensures Within(Without(gates[j := Fuse(gates[j], gates[i])], i), known) {
      FuseAbsorbs(gates[j], gates[i], gates[j], q);
    }
    forall m | 0 <= m < |owner| {
      MovedAbsorbs(original, gates, weights, owner, i, j, q, m);
    }
    forall m, m' | 0 <= m < m' < |owner| && !(original[m].Qubits() !! original[m'].Qubits()) {
      MovedKeepsOrder(original, gates, weights, owner, i, j, q, m, m');
    }
    forall k | 0 <= k < |gates| - 1 {
      MovedWeights(gates, weights, owner, i, j, k);
    }
  }

  lemma FuseStepExact(original: seq<Gate>, gates: seq<Gate>, owner: seq<nat>, i: nat, j: nat, q: nat)
    requires FusionExact(original, gates, owner) && Fusible(gates, i, j, q)
    ensures FusionExact(original, Without(gates[j := Fuse(gates[j], gates[i])], i), Moved(owner, i, j))
  {
    var fused := Without(gates[j := Fuse(gates[j], gates[i])], i);
    forall k | 0 <= k < |fused| ensures FusedOf(fused[k], original, Members(Moved(owner, i, j), k)) {
      MovedFused(original, gates, owner, i, j, q, k);
    }
  }

  lemma MovedFused(original: seq<Gate>, gates: seq<Gate>, owner: seq<nat>, i: nat, j: nat, q: nat, k: nat)
    requires FusionExact(original, gates, owner) && Fusible(gates, i, j, q) && k < |gates| - 1
    ensures FusedOf(Without(gates[j := Fuse(gates[j], gates[i])], i)[k], original, Members(Moved(owner, i, j), k))
  {
    MovedMembers(owner, i, j, k);
    WithoutAt(gates[j := Fuse(gates[j], gates[i])], i, k);
    var k0 := if k >= i then k + 1 else k;
    assert FusedOf(gates[k0], original, Members(owner, k0));
    assert FusedOf(gates[j], original, Members(owner, j)) && FusedOf(gates[i], original, Members(owner, i));
    FuseJoins(gates[j], gates[i], original, Members(owner, j), Members(owner, i), q);
  }

  // A plan for the fused list, spread out, is a plan for the original list,
  // and its weight counts the original gates.
  lemma PlanTransfers(original: seq<Gate>, gates: seq<Gate>, weights: seq<nat>, owner: seq<nat>,
                      a: set<nat>, locals: Mask)
    requires FusionOk(original, gates, weights, owner) && Plan(gates, a, locals)
    ensures Plan(original, Expand(owner, a), locals)
    ensures |Expand(owner, a)| == Weight(weights, a, |gates|)
  {
    forall i, j | i in Expand(owner, a) && 0 <= j < i && j !in Expand(owner, a)
      ensures original[i].Qubits() !! original[j].Qubits()
    {
      assert Absorbs(gates[owner[i]], original[i]) && Absorbs(gates[owner[j]], original[j]);
      assert owner[j] < owner[i] ==> gates[owner[i]].Qubits() !! gates[owner[j]].Qubits();
    }
    ExpandedSize(gates, weights, owner, a, |gates|);
    assert Expand(owner, a) == set m | m in Expand(owner, a) && owner[m] < |gates|;
  }

  lemma {:induction false} ExpandedSize(gates: seq<Gate>, weights: seq<nat>, owner: seq<nat>, a: set<nat>, k: nat)
    requires k <= |gates| == |weights|
    requires forall j :: 0 <= j < |gates| ==> weights[j] == |Members(owner, j)|
    ensures |set m | m in Expand(owner, a) && owner[m] < k| == Weight(weights, a, k)
  {
    var below := set m | m in Expand(owner, a) && owner[m] < k;
    if k == 0 {
      assert below == {};
    } else {
      ExpandedSize(gates, weights, owner, a, k - 1);
      var before := set m | m in Expand(owner, a) && owner[m] < k - 1;
      if k - 1 in a {
        assert below == before + Members(owner, k - 1);
        assert before !! Members(owner, k - 1);
      } else {
        assert below == before;
      }
    }
  }

  // The two lists after fusing i into j, before i is removed.
  ghost predicate FusedInto(gates: seq<Gate>, weights: seq<nat>, gates': seq<Gate>, weights': seq<nat>,
                            i: nat, j: nat, q: nat) {
    && |weights| == |gates| && Fusible(gates, i, j, q)
    && gates' == gates[j := Fuse(gates[j], gates[i])]
    && weights' == weights[j := weights[j] + weights[i]][i := 0]
  }

  ghost predicate HaveTargets(gates: seq<Gate>) {
    forall i :: 0 <= i < |gates| ==> gates[i].targets != {}
  }

  // From place i on no single-qubit gate could be fused into another gate.
  ghost predicate FusedFrom(gates: seq<Gate>, i: nat) {
    forall k, b {:trigger gates[k].targets, gates[b].Qubits()} ::
      i <= k < |gates| && 0 <= b < |gates| && b != k && |gates[k].Qubits()| == 1 ==> gates[k].targets !! gates[b].Qubits()
  }

  // The places of the nearest gates before place k, and from k on, that act on
  // the targets of gate i; the length of the list when there is none.
  ghost function PrevOn(gates: seq<Gate>, i: nat, k: nat): nat
    requires k <= i < |gates|
  {
    if k == 0 then |gates|
    else if !(gates[i].targets !! gates[k - 1].Qubits()) then k - 1
    else PrevOn(gates, i, k - 1)
  }

  ghost function NextOn(gates: seq<Gate>, i: nat, k: nat): nat
    requires i < k <= |gates|
    decreases |gates| - k
  {
    if k == |gates| || !(gates[i].targets !! gates[k].Qubits()) then k else NextOn(gates, i, k + 1)
  }

  // Where a single-qubit gate is fused: a diagonal one into the previous gate
  // on its qubit if there is one, another one into the next.
  ghost function Host(gates: seq<Gate>, i: nat): nat
    requires i < |gates|
  {
    var prev, next := PrevOn(gates, i, i), NextOn(gates, i, i + 1);
    if |gates[i].Qubits()| != 1 then |gates|
    else if gates[i].diag then (if prev < |gates| then prev else next)
    else if next < |gates| then next else prev
  }

  // The list after place i has been handled, and after all places below i
  // have been, the last one first.
  ghost function FuseAt(gates: seq<Gate>, weights: seq<nat>, i: nat): (r: (seq<Gate>, seq<nat>))
    requires i < |gates| == |weights|
    ensures |r.0| == |r.1| >= i
  {
    var j := Host(gates, i);
    if j >= |gates| || j == i then (gates, weights)
    else (Without(gates[j := Fuse(gates[j], gates[i])], i), Without(weights[j := weights[j] + weights[i]], i))
  }

  ghost function FusePass(gates: seq<Gate>, weights: seq<nat>, i: nat): (r: (seq<Gate>, seq<nat>))
    requires i <= |gates| == |weights|
    ensures |r.0| == |r.1|
    decreases i
  {
    if i == 0 then (gates, weights) else
    var r := FuseAt(gates, weights, i - 1);
    FusePass(r.0, r.1, i - 1)
  }

  lemma FuseAtIs(gates: seq<Gate>, weights: seq<nat>, i: nat, remove: bool, j: nat, gates': seq<Gate>, weights': seq<nat>)
    requires i < |gates| == |weights| == |gates'| == |weights'|
    requires !remove ==> Host(gates, i) >= |gates| && gates' == gates && weights' == weights
    requires remove ==> j == Host(gates, i) < |gates| && j != i && gates' == gates[j := Fuse(gates[j], gates[i])]
    requires remove ==> weights' == weights[j := weights[j] + weights[i]][i := 0]
    ensures FuseAt(gates, weights, i) == if remove then (Without(gates', i), Without(weights', i)) else (gates', weights')
  {
    if remove {
      assert Without(weights', i) == Without(weights[j := weights[j] + weights[i]], i);
    }
  }

  lemma PassDone(gates: seq<Gate>, weights: seq<nat>)
    requires |gates| == |weights|
    ensures FusePass(gates, weights, 0) == (gates, weights)
  {
  }

  lemma PassUnfolds(gates: seq<Gate>, weights: seq<nat>, i: nat, gates': seq<Gate>, weights': seq<nat>)
    requires i < |gates| == |weights| && (gates', weights') == FuseAt(gates, weights, i)
    ensures FusePass(gates', weights', i) == FusePass(gates, weights, i + 1)
  {
  }

  ghost function FusedList(gates: seq<Gate>): (r: (seq<Gate>, seq<nat>))
    ensures |r.0| == |r.1|
  {
    FusePass(gates, seq(|gates|, _ => 1), |gates|)
  }

  lemma FusingKeepsFused(gates: seq<Gate>, fused: seq<Gate>, i: nat, j: nat, q: nat)
    requires Fusible(gates, i, j, q) && fused == gates[j := Fuse(gates[j], gates[i])]
    requires HaveTargets(gates) && FusedFrom(gates, i + 1)
    ensures HaveTargets(Without(fused, i)) && FusedFrom(Without(fused, i), i)
  {
    var r := Without(fused, i);
    FuseAbsorbs(gates[j], gates[i], gates[j], q);
    forall k | 0 <= k < |r| ensures r[k] == fused[if k < i then k else k + 1] {
      WithoutAt(fused, i, k);
    }
    forall k, b | i <= k < |r| && 0 <= b < |r| && b != k && |r[k].Qubits()| == 1 ensures r[k].targets !! r[b].Qubits() {
      var k', b' := k + 1, if b < i then b else b + 1;
      SharesQubit(gates, i, j, q);
      assert k' != j ==> gates[k'].targets !! gates[b'].Qubits();
    }
  }

  lemma FusingKeeps(gates: seq<Gate>, i: nat, j: nat, q: nat)
    requires Fusible(gates, i, j, q)
    ensures var r := Without(gates[j := Fuse(gates[j], gates[i])], i);
            HaveTargets(gates) && FusedFrom(gates, i + 1) ==> HaveTargets(r) && FusedFrom(r, i)
  {
    if HaveTargets(gates) && FusedFrom(gates, i + 1) {
      FusingKeepsFused(gates, gates[j := Fuse(gates[j], gates[i])], i, j, q);
    }
  }

  // A later gate that i can be fused into acts on other qubits too.
  lemma SharesQubit(gates: seq<Gate>, i: nat, j: nat, q: nat)
    requires Fusible(gates, i, j, q) && HaveTargets(gates) && FusedFrom(gates, i + 1)
    ensures j > i ==> |gates[j].Qubits()| != 1
  {
    if |gates[j].Qubits()| == 1 {
      SingletonSet(gates[j].Qubits());
    }
  }

  lemma NothingFused(gates: seq<Gate>, owner: seq<nat>)
    requires owner == seq(|gates|, m => m)
    ensures FusionOk(gates, gates, seq(|gates|, _ => 1), owner) && FusionExact(gates, gates, owner)
  {
    forall j | 0 <= j < |gates| ensures |Members(owner, j)| == 1 && Members(owner, j) != {} {
      assert Members(owner, j) == {j};
    }
    forall j | 0 <= j < |gates| ensures FusedOf(gates[j], gates, Members(owner, j)) {
      assert Members(owner, j) == {j};
      PartsOfOne(gates, j, |gates|);
    }
  }

  class SwapScheduler {
    const original: seq<Gate>
    const numSplits: nat
    const numLocals: nat
    var gate: seq<Gate>
    var weight: seq<nat>
    ghost var owner: seq<nat>
    var bestAns: nat
    var bestLocals: Mask

    ghost predicate Valid()
      reads this
    {
      FusionOk(original, gate, weight, owner) && FusionExact(original, gate, owner)
    }

    constructor (gates: seq<Gate>, numSplits: nat, numLocals: nat, fuse: bool)
      ensures original == gates && this.numSplits == numSplits && this.numLocals == numLocals && Valid()
      ensures (gate, weight) == if fuse then FusedList(gates) else (gates, seq(|gates|, _ => 1))
      ensures gates != [] ==> gate != []
      ensures fuse && HaveTargets(gates) ==> HaveTargets(gate) && FusedFrom(gate, 0)
    {
      original, this.numSplits, this.numLocals := gates, numSplits, numLocals;
      gate, weight, owner := gates, seq(|gates|, _ => 1), seq(|gates|, m => m);
      bestAns, bestLocals := 0, {};
      new;
      NothingFused(gates, owner);
      if fuse {
        FuseSingleQubitGates();
      }
    }

    // Fuses gate i into the previous gate on its qubit; gate i must be removed after.
    method FuseToPrev(i: nat) returns (found: bool, ghost j: nat, ghost q: nat)
      requires i < |gate| == |weight| && |gate[i].Qubits()| == 1
      modifies this`gate, this`weight
      ensures !found ==> gate == old(gate) && weight == old(weight)
      ensures found ==> j < i && FusedInto(old(gate), old(weight), gate, weight, i, j, q)
      ensures PrevOn(old(gate), i, i) == if found then j else |old(gate)|
      ensures !found ==> forall b :: 0 <= b < i ==> gate[i].targets !! gate[b].Qubits()
    {
      q := SingleQubit(gate[i]);
      var k := i;
      while k > 0
        invariant k <= i && gate == old(gate) && weight == old(weight)
        invariant PrevOn(gate, i, i) == PrevOn(gate, i, k)
        invariant forall b :: k <= b < i ==> gate[i].targets !! gate[b].Qubits()
      {
        k := k - 1;
        if !(gate[i].targets !! gate[k].Qubits()) {
          FuseToThis(i, k);
          return true, k, q;
        }
      }
      return false, 0, q;
    }

    method FuseToNext(i: nat) returns (found: bool, ghost j: nat, ghost q: nat)
      requires i < |gate| == |weight| && |gate[i].Qubits()| == 1
      modifies this`gate, this`weight
      ensures !found ==> gate == old(gate) && weight == old(weight)
      ensures found ==> i < j < |old(gate)| && FusedInto(old(gate), old(weight), gate, weight, i, j, q)
      ensures NextOn(old(gate), i, i + 1) == if found then j else |old(gate)|
      ensures !found ==> forall b :: i < b < |gate| ==> gate[i].targets !! gate[b].Qubits()
    {
      q := SingleQubit(gate[i]);
      for k := i + 1 to |gate|
        invariant gate == old(gate) && weight == old(weight)
        invariant NextOn(gate, i, i + 1) == NextOn(gate, i, k)
        invariant forall b :: i < b < k ==> gate[i].targets !! gate[b].Qubits()
      {
        if !(gate[i].targets !! gate[k].Qubits()) {
          FuseToThis(i, k);
          return true, k, q;
        }
      }
      return false, 0, q;
    }

    method FuseToThis(i: nat, j: nat)
      requires i < |gate| == |weight| && j < |gate| && i != j
      modifies this`gate, this`weight
      ensures gate == old(gate)[j := Fuse(old(gate)[j], old(gate)[i])]
      ensures weight == old(weight)[j := old(weight)[j] + old(weight)[i]][i := 0]
    {
      weight := weight[j := weight[j] + weight[i]];
      weight := weight[i := 0];
      if !gate[i].diag {
        gate := gate[j := gate[j].(diag := false)];
      }
      if gate[j].controls * gate[i].targets != {} {
        var g := gate[j];
        gate := gate[j := g.(controls := (g.controls - gate[i].targets) + (gate[i].targets - g.controls),
                             targets := g.targets + gate[i].targets)];
      }
    }

    // Fuses gate i with its host, if it has one; gate i must be removed after.
    method FuseWithHost(i: nat) returns (remove: bool, ghost j: nat, ghost q: nat)
      requires i < |gate| == |weight|
      modifies this`gate, this`weight
      ensures |gate| == |weight| == |old(gate)|
      ensures FuseAt(old(gate), old(weight), i) == if remove then (Without(gate, i), Without(weight, i)) else (gate, weight)
      ensures !remove ==> gate == old(gate) && weight == old(weight)
      ensures remove ==> FusedInto(old(gate), old(weight), gate, weight, i, j, q)
      ensures !remove && |gate[i].Qubits()| == 1 ==> forall b :: 0 <= b < |gate| && b != i ==> gate[i].targets !! gate[b].Qubits()
    {
      remove, j, q := false, 0, 0;
      if |gate[i].Qubits()| == 1 {
        if !gate[i].diag {
          remove, j, q := FuseToNext(i);
          if !remove { remove, j, q := FuseToPrev(i); }
        } else {
          remove, j, q := FuseToPrev(i);
          if !remove { remove, j, q := FuseToNext(i); }
        }
      }
      FuseAtIs(old(gate), old(weight), i, remove, j, gate, weight);
    }

    method FuseGate(i: nat)
      requires Valid() && i < |gate|
      modifies this`gate, this`weight, this`owner
      ensures Valid() && |gate| >= i && gate != []
      ensures (gate, weight) == FuseAt(old(gate), old(weight), i)
      ensures HaveTargets(old(gate)) && FusedFrom(old(gate), i + 1) ==> HaveTargets(gate) && FusedFrom(gate, i)
    {
      var remove;
      ghost var j, q;
      remove, j, q := FuseWithHost(i);
      if remove {
        Remove(i, old(gate), old(weight), j, q);
        FusingKeeps(old(gate), i, j, q);
      }
    }

    // The backward pass; afterwards no single-qubit gate has another gate on its qubit.
    method FuseSingleQubitGates()
      requires Valid()
      modifies this`gate, this`weight, this`owner
      ensures Valid() && (old(gate) != [] ==> gate != [])
      ensures (gate, weight) == FusePass(old(gate), old(weight), |old(gate)|)
      ensures HaveTargets(old(gate)) ==> HaveTargets(gate) && FusedFrom(gate, 0)
    {
      var i: nat := |gate|;
      ghost var result := FusePass(gate, weight, i);
      while i > 0
        invariant i <= |gate| && Valid() && (old(gate) != [] ==> gate != [])
        invariant FusePass(gate, weight, i) == result
        invariant HaveTargets(old(gate)) ==> HaveTargets(gate) && FusedFrom(gate, i)
      {
        i := i - 1;
        ghost var gate0, weight0 := gate, weight;
        FuseGate(i);
        PassUnfolds(gate0, weight0, i, gate, weight);
      }
      PassDone(gate, weight);
    }

    method Remove(i: nat, ghost gate0: seq<Gate>, ghost weight0: seq<nat>, ghost j: nat, ghost q: nat)
      requires FusionOk(original, gate0, weight0, owner) && FusionExact(original, gate0, owner)
      requires FusedInto(gate0, weight0, gate, weight, i, j, q)
      modifies this`gate, this`weight, this`owner
      ensures Valid() && |gate| == |gate0| - 1 > 0
      ensures gate == Without(old(gate), i) == Without(gate0[j := Fuse(gate0[j], gate0[i])], i)
      ensures weight == Without(old(weight), i)
    {
      FuseStep(original, gate0, weight0, owner, i, j, q);
      FuseStepExact(original, gate0, owner, i, j, q);
      gate := Without(gate, i);
      weight := Without(weight, i);
      owner := Moved(owner, i, j);
      assert weight == Without(weight0[j := weight0[j] + weight0[i]], i);
    }

    ghost function Question(): Problem
      reads this
    {
      Problem(gate, weight, numLocals)
    }

    // The qubits to make local. The ghost results count the leaves reached and
    // the calls made by the search.
    method ScheduleSwap() returns (locals: Mask, ghost leaves: nat, ghost calls: nat, ghost a: set<nat>)
      requires Valid()
      modifies this`bestAns, this`bestLocals
      ensures |gate| == |weight| && locals == Question().Search(0, {}, {}, numSplits).locals
      ensures gate != [] ==> bestAns == Question().Search(0, {}, {}, numSplits).gain
      ensures Answers(original, a, locals, if gate == [] then 0 else bestAns) && |locals| <= numLocals
      // with any number of splits that is at least what the greedy choice allows
      // and, given splits enough, no choice of local qubits allows more
      ensures gate != [] ==> Promised(Question(), numSplits, bestAns)
      ensures leaves <= numSplits + 1 && calls <= Calls(numSplits + 1, |gate| + 1)
    {
      if |gate| == 0 {
        return {}, 0, 0, {};
      }
      var p := Problem(gate, weight, numLocals);
      bestAns, bestLocals, leaves, calls, a := RunSearch(p, numSplits, original, owner);
      return bestLocals, leaves, calls, a;
    }
  }

  // Exactly `ans` gates of the list can run under these qubits, which are known
  // and each of which is needed for them.
  ghost predicate Answers(gates: seq<Gate>, a: set<nat>, locals: Mask, ans: nat) {
    && Plan(gates, a, locals) && |a| == ans
    && NeededBy(gates, a, locals) && OnlyKnown(gates, locals)
  }

  method RunSearch(p: Problem, numSplits: nat, ghost original: seq<Gate>, ghost owner: seq<nat>)
    returns (ans: nat, locals: Mask, ghost leaves: nat, ghost calls: nat, ghost a: set<nat>)
    requires FusionOk(original, p.gates, p.weights, owner) && FusionExact(original, p.gates, owner)
    ensures ans == p.Search(0, {}, {}, numSplits).gain && locals == p.Search(0, {}, {}, numSplits).locals
    ensures Answers(original, a, locals, ans) && |locals| <= p.numLocals && Promised(p, numSplits, ans)
    ensures leaves <= numSplits + 1 && calls <= Calls(numSplits + 1, |p.gates| + 1)
  {
    WeightsPositive(original, p.gates, p.weights, owner);
    ghost var found := p.Search(0, {}, {}, numSplits);
    ghost var b;
    locals, ans, leaves, calls, b := SearchAll(p, numSplits, found);
    a := Expand(owner, b);
    AnswerForOriginal(original, p, owner, b, locals, ans, numSplits);
  }

  method SearchAll(p: Problem, numSplits: nat, ghost found: Found)
    returns (locals: Mask, ans: nat, ghost leaves: nat, ghost calls: nat, ghost a: set<nat>)
    requires p.Valid() && found == p.Search(0, {}, {}, numSplits)
    ensures ans == found.gain && locals == found.locals
    ensures p.PlanWithin(a, locals) && locals == p.Needs(a, |p.gates|) && ans == Weight(p.weights, a, |p.gates|)
    ensures leaves <= numSplits + 1 && calls <= Calls(numSplits + 1, |p.gates| + 1)
  {
    EmptyPlan(p);
    var search := new SwapSearch(p);
    var left;
    left, leaves, calls := search.Rec(0, {}, {}, 0, numSplits, found, {}, |p.gates| + 1);
    p.NoGainNoChange(0, {}, {}, numSplits);
    CallsBound(calls, leaves, numSplits + 1, |p.gates| + 1);
    return search.bestLocals, search.bestAns, leaves, calls, search.plan;
  }

  lemma AnswerForOriginal(original: seq<Gate>, p: Problem, owner: seq<nat>, b: set<nat>, locals: Mask, ans: nat, splits: nat)
    requires FusionOk(original, p.gates, p.weights, owner) && FusionExact(original, p.gates, owner)
    requires p.Valid() && ans == p.Search(0, {}, {}, splits).gain
    requires p.PlanWithin(b, locals) && locals == p.Needs(b, |p.gates|) && ans == Weight(p.weights, b, |p.gates|)
    ensures Answers(original, Expand(owner, b), locals, ans) && Promised(p, splits, ans)
  {
    PlanTransfers(original, p.gates, p.weights, owner, b, locals);
    NeededInOriginal(original, p.gates, owner, p, b);
    NeedsOnlyKnown(original, p.gates, p.weights, owner, p, b);
    SearchPromises(p, splits);
  }

  // Every one of these qubits is a target of a gate of a.
  ghost predicate NeededBy(gates: seq<Gate>, a: set<nat>, locals: Mask) {
    forall q :: q in locals ==> exists m :: m in a && m < |gates| && q in gates[m].targets
  }

  // Every qubit that is made local is a target of one of the original gates.
  lemma NeededInOriginal(original: seq<Gate>, gates: seq<Gate>, owner: seq<nat>, p: Problem, b: set<nat>)
    requires FusionExact(original, gates, owner) && p.gates == gates && |owner| == |original|
    ensures NeededBy(original, Expand(owner, b), p.Needs(b, |gates|))
  {
    forall q | q in p.Needs(b, |gates|) ensures exists m :: m in Expand(owner, b) && m < |original| && q in original[m].targets {
      var k := NeedingGate(p, b, |gates|, q);
      assert FusedOf(gates[k], original, Members(owner, k));
      FusedGateIs(gates[k], original, Members(owner, k), q);
      var m :| m in Members(owner, k) && q in original[m].targets;
      assert m in Expand(owner, b);
    }
  }

  lemma {:induction false} NeedingGate(p: Problem, b: set<nat>, n: nat, q: nat) returns (k: nat)
    requires n <= |p.gates| && q in p.Needs(b, n)
    ensures k < n && k in b && q in p.gates[k].targets
  {
    k := n - 1;
    if !(k in b && q in p.gates[k].targets) {
      k := NeedingGate(p, b, n - 1, q);
    }
  }

  ghost predicate OnlyKnown(gates: seq<Gate>, l: Mask) {
    forall known :: Within(gates, known) ==> l <= known
  }

  lemma NeedsOnlyKnown(original: seq<Gate>, gates: seq<Gate>, weights: seq<nat>, owner: seq<nat>, p: Problem, b: set<nat>)
    requires FusionOk(original, gates, weights, owner) && p.gates == gates
    ensures OnlyKnown(original, p.Needs(b, |gates|))
  {
    forall known | Within(original, known) ensures p.Needs(b, |gates|) <= known {
      p.NeedsKnown(b, |gates|, known);
    }
  }

  // What the search promises: with every budget as much as the greedy choice,
  // with a large enough one as much as any plan.
  ghost predicate Promised(p: Problem, splits: nat, ans: nat) {
    && |p.gates| == |p.weights|
    && ans >= p.Greedy(0, {}, {})
    && (p.gates != [] && (p.gates[0].diag || |p.gates[0].targets| <= p.numLocals) ==> ans > 0)
    && (splits + 1 >= Pow2(|p.gates|) ==>
          forall b, l :: p.PlanWithin(b, l) ==> Weight(p.weights, b, |p.gates|) <= ans)
  }

  lemma SearchPromises(p: Problem, splits: nat)
    requires p.Valid()
    ensures Promised(p, splits, p.Search(0, {}, {}, splits).gain)
  {
    p.SearchBeatsGreedy(0, {}, {}, splits);
    p.SearchWithinOptimum(0, {}, {}, splits);
    if splits + 1 >= Pow2(|p.gates|) {
      p.EnoughSplits(0, {}, {}, splits);
    }
    p.NoPlanBeatsOptimum();
    if p.gates != [] {
      assert p.gates[0].targets + {} == p.gates[0].targets;
    }
  }

  lemma WeightsPositive(original: seq<Gate>, gates: seq<Gate>, weights: seq<nat>, owner: seq<nat>)
    requires FusionOk(original, gates, weights, owner)
    ensures forall j :: 0 <= j < |weights| ==> weights[j] > 0
  {
    assert forall j :: 0 <= j < |weights| ==> Members(owner, j) != {} && weights[j] == |Members(owner, j)|;
  }

  lemma EmptyPlan(p: Problem)
    requires p.Valid()
    ensures p.Prefix(0, {}, {}, 0, {})
  {
    WeightOfNothing(p.weights, |p.weights|);
    NeedsOfNothing(p, |p.gates|);
  }

  lemma {:induction false} NeedsOfNothing(p: Problem, k: nat)
    requires k <= |p.gates|
    ensures p.Needs({}, k) == {}
  {
    if k > 0 {
      NeedsOfNothing(p, k - 1);
    }
  }

  lemma {:induction false} WeightOfNothing(weights: seq<nat>, k: nat)
    requires k <= |weights|
    ensures Weight(weights, {}, k) == 0
  {
    if k > 0 {
      WeightOfNothing(weights, k - 1);
    }
  }

  lemma CallsBound(calls: nat, leaves: nat, bound: nat, n: nat)
    requires calls <= Calls(leaves, n) && leaves <= bound
    ensures calls <= Calls(bound, n)
  {
    CallsAre(leaves, n);
    CallsAre(bound, n);
    MultiplesGrow(n, leaves, bound);
  }

  function SingleQubit(g: Gate): (q: nat)
    requires |g.Qubits()| == 1
    ensures g.Qubits() == {q}
  {
    SingletonSet(g.Qubits());
    var q :| q in g.Qubits(); q
  }

  lemma SingletonSet(s: set<nat>)
    requires |s| == 1
    ensures exists q :: s == {q}
  {
    var q :| q in s;
    assert s == {q} + (s - {q});
    assert |s - {q}| == 0;
  }
}
