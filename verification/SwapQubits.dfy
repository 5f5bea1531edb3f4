// SimulatorMPI::SwapQubits for all ranks together: error checks, the rounds
// of the exchange, the new layout.

module SwapQubits {
  import opened Sequences
  import opened Bits
  import opened QubitSwap
  import opened SwapTables
  import opened Complexes
  import opened DistributedSwap

  // ----- looking up qubits ------------------------------------------------

  function Firsts(pairs: seq<(nat, nat)>): seq<nat> {
    seq(|pairs|, i requires 0 <= i < |pairs| => pairs[i].0)
  }

  function Seconds(pairs: seq<(nat, nat)>): seq<nat> {
    seq(|pairs|, i requires 0 <= i < |pairs| => pairs[i].1)
  }

  // The pairs name a global and a local qubit each, and no qubit twice.
  ghost predicate Swappable(locals: seq<nat>, globals: seq<nat>, pairs: seq<(nat, nat)>) {
    && (forall i :: 0 <= i < |pairs| ==> pairs[i].0 in globals && pairs[i].1 in locals)
    && Distinct(Firsts(pairs) + Seconds(pairs))
  }

  // ----- communicators ----------------------------------------------------

  lemma {:induction false} SameCommunicator(world: nat, g: seq<nat>, gs: seq<nat>, color: nat)
    requires forall j :: j in g <==> j in gs
    ensures Communicator(world, g, color) == Communicator(world, gs, color)
  {
    if world > 0 {
      SameCommunicator(world - 1, g, gs, color);
      ColorOfSameSet(world - 1, g, gs);
    }
  }

  lemma RankInCommunicator(r: nat, g: seq<nat>, gs: seq<nat>, globals: nat)
    requires Increasing(gs) && (forall j :: j in g <==> j in gs) && r < Pow2(globals)
    requires forall i :: 0 <= i < |gs| ==> gs[i] < globals
    ensures var comm := Communicator(Pow2(globals), g, Color(r, g, |g|));
            && comm == Members(r, gs) && Find(comm, r) == Gather(r, gs, |gs|) < |comm|
            && forall c :: 0 <= c < |comm| ==> comm[c] < Pow2(globals)
  {
    var comm, own := Communicator(Pow2(globals), g, Color(r, g, |g|)), Gather(r, gs, |gs|);
    ColorOfSameSet(r, g, gs);
    SameCommunicator(Pow2(globals), g, gs, Color(r, g, |g|));
    CommunicatorIsMembers(r, gs, globals);
    MemberOfSameColor(r, r, gs);
    forall c | 0 <= c < own ensures comm[c] != r {
      MembersAscend(r, gs, c, own);
    }
    FindIsFirst(comm, r, own);
    forall c | 0 <= c < |comm| ensures comm[c] < Pow2(globals) {
      MemberBound(r, gs, c, globals);
    }
  }

  // ----- one round on all ranks -------------------------------------------

  // The exchanged positions: g as the pairs give them, gs ascending.
  ghost predicate Setting(globals: nat, m: nat, g: seq<nat>, gs: seq<nat>, ls: seq<nat>, lp: seq<nat>) {
    && IsTable(ls, lp) && Increasing(gs) && |gs| == |lp| && |ls| <= m
    && (forall j :: j in g <==> j in gs)
    && (forall i :: 0 <= i < |gs| ==> gs[i] < globals)
    && (forall i :: 0 <= i < |ls| ==> ls[i] < m)
  }

  method CopyOf(s: seq<Complex>) returns (a: array<Complex>)
    ensures fresh(a) && a[..] == s
  {
    a := new Complex[|s|](i requires 0 <= i < |s| => s[i]);
  }

  method FillAll(vec: seq<seq<Complex>>, n: nat, start: nat, swapBits: seq<nat>, nBits: nat, capacity: nat,
                 ghost m: nat, ghost ls: seq<nat>, ghost lp: seq<nat>)
    returns (sent: seq<seq<Complex>>, indices: seq<seq<nat>>)
    requires nBits == |ls| <= m && IsTable(ls, lp) && Encodes(swapBits, ls, lp) && forall i :: 0 <= i < |ls| ==> ls[i] < m
    requires forall r :: 0 <= r < |vec| ==> |vec[r]| == Pow2(m)
    requires start + n <= Pow2(m - |ls|) && n * Pow2(nBits) <= capacity
    ensures AllFilled(vec, sent, indices, n, start, ls, lp, |vec|)
  {
    sent, indices := [], [];
    for r := 0 to |vec|
      invariant AllFilled(vec, sent, indices, n, start, ls, lp, r)
    {
      var v := CopyOf(vec[r]);
      var svalues, ind := new Complex[capacity](_ => ZERO), new nat[capacity](_ => 0);
      var end := DoCalc(v, n, start, svalues, ind, swapBits, nBits, m, ls, lp);
      sent, indices := sent + [svalues[..]], indices + [ind[..]];
    }
  }

  method ConsumeOn(vec: seq<seq<Complex>>, r: nat, n: nat, g: seq<nat>, sent: seq<seq<Complex>>, indices: seq<seq<nat>>,
                   ghost start: nat, ghost globals: nat, ghost m: nat, ghost gs: seq<nat>, ghost ls: seq<nat>, ghost lp: seq<nat>)
    returns (row: seq<Complex>)
    requires Setting(globals, m, g, gs, ls, lp) && r < |vec| == Pow2(globals) && |vec[r]| == Pow2(m)
    requires AllFilled(vec, sent, indices, n, start, ls, lp, |vec|) && start + n <= Pow2(m - |ls|)
    ensures RankDone(vec, row, sent, ZERO, r, n, start, m, gs, ls, lp)
  {
    RankInCommunicator(r, g, gs, globals);
    FilledIsAddressed(vec[r], sent[r], indices[r], n, start, ls, lp);
    var comm := Communicator(|vec|, g, Color(r, g, |g|));
    var own := Find(comm, r);
    var rvalues := Received(sent, comm, own, n, ZERO);
    var v := CopyOf(vec[r]);
    Consume(v, n, |comm|, own, rvalues, indices[r], start, m, ls, lp);
    row := v[..];
  }

  method Round(vec: seq<seq<Complex>>, n: nat, start: nat, g: seq<nat>, swapBits: seq<nat>, nBits: nat, capacity: nat,
               ghost vec0: seq<seq<Complex>>, ghost globals: nat, ghost m: nat, ghost gs: seq<nat>, ghost ls: seq<nat>, ghost lp: seq<nat>)
    returns (vec': seq<seq<Complex>>)
    requires Setting(globals, m, g, gs, ls, lp) && nBits == |ls| && Encodes(swapBits, ls, lp) && |vec| == Pow2(globals)
    requires MovedUpTo(vec0, vec, m, gs, ls, lp, start) && start + n <= Pow2(m - |ls|) && n * Pow2(nBits) <= capacity
    ensures |vec'| == |vec| && MovedUpTo(vec0, vec', m, gs, ls, lp, start + n)
  {
    var sent, indices := FillAll(vec, n, start, swapBits, nBits, capacity, m, ls, lp);
    vec' := [];
    for r := 0 to |vec|
      invariant |vec'| == r
      invariant forall k :: 0 <= k < r ==> RankDone(vec, vec'[k], sent, ZERO, k, n, start, m, gs, ls, lp)
    {
      var row := ConsumeOn(vec, r, n, g, sent, indices, start, globals, m, gs, ls, lp);
      vec' := vec' + [row];
    }
    RoundMoved(vec0, vec, vec', sent, indices, ZERO, n, start, m, gs, ls, lp);
  }

  // ----- the simulator ----------------------------------------------------

  // Every rank's array, and the layout all ranks share.
  class Simulator {
    var vec: seq<seq<Complex>>
    var locals: seq<nat>
    var globals: seq<nat>

    ghost predicate Valid()
      reads this
    {
      IsState(vec, Layout(locals, globals))
    }

    // The positions of the pairs' qubits; !ok stands for the exceptions.
    method Positions(pairs: seq<(nat, nat)>) returns (ok: bool, g: seq<nat>, l: seq<nat>)
      ensures ok <==> Swappable(locals, globals, pairs)
      ensures ok ==> |g| == |l| == |pairs|
      ensures ok ==> forall i :: 0 <= i < |pairs| ==> g[i] == Find(globals, pairs[i].0) && l[i] == Find(locals, pairs[i].1)
    {
      g, l := [], [];
      ok := AllGlobal(pairs);
      if !ok {
        return;
      }
      var pos: map<nat, nat> := map[];
      for i := 0 to |pairs|
        invariant forall k :: 0 <= k < i ==> pairs[k].1 in locals
        invariant |g| == |l| == i && Recorded(pos, pairs, i)
        invariant forall k :: 0 <= k < i ==> g[k] == Find(globals, pairs[k].0) && l[k] == Find(locals, pairs[k].1)
      {
        var p, q := Find(globals, pairs[i].0), Find(locals, pairs[i].1);
        if q == |locals| {
          return false, g, l;
        }
        RecordMore(pos, pairs, i, p, q);
        pos := pos[pairs[i].0 := p];
        pos := pos[pairs[i].1 := q];
        g, l := g + [p], l + [q];
      }
      assert pairs[..|pairs|] == pairs;
      CountElements(Firsts(pairs) + Seconds(pairs));
      ok := |pos| == 2 * |pairs|;
      assert |pos| == |pos.Keys|;
    }

    method AllGlobal(pairs: seq<(nat, nat)>) returns (ok: bool)
      ensures ok <==> forall i :: 0 <= i < |pairs| ==> pairs[i].0 in globals
    {
      for i := 0 to |pairs|
        invariant forall k :: 0 <= k < i ==> pairs[k].0 in globals
      {
        if Find(globals, pairs[i].0) == |globals| {
          return false;
        }
      }
      return true;
    }

    // All chunks, one round after the other.
    method Exchange(g: seq<nat>, swapBits: seq<nat>, nBits: nat, e: nat, ghost gs: seq<nat>, ghost ls: seq<nat>, ghost lp: seq<nat>)
      requires Valid() && Setting(|globals|, |locals|, g, gs, ls, lp) && Encodes(swapBits, ls, lp) && nBits == |ls| <= e
      modifies this`vec
      ensures Exchanged(old(vec), vec, |locals|, gs, ls, lp) && |vec| == |old(vec)|
    {
      ghost var vec0, m := vec, |locals|;
      RankInCommunicator(0, g, gs, |globals|);
      ghost var rounds := SendCountFits(nBits, m, e);
      var comm := Communicator(|vec|, g, Color(0, g, |g|));
      var n := CalcSendCount(|comm|, |locals|, 16 * Pow2(e));
      NothingMoved(vec0, m, gs, ls, lp);
      var start := 0;
      ghost var done := 0;
      while start < Pow2(|locals| - nBits)
        invariant start == n * done <= Pow2(m - nBits) && |vec| == Pow2(|globals|)
        invariant MovedUpTo(vec0, vec, m, gs, ls, lp, start)
        decreases Pow2(m - nBits) - start
      {
        AnotherRound(n, done, rounds);
        vec := Round(vec, n, start, g, swapBits, nBits, Pow2(e), vec0, |globals|, m, gs, ls, lp);
        start := start + n;
        done := done + 1;
      }
      AllMoved(vec0, vec, m, gs, ls, lp);
    }

    // SwapQubits; buffers hold 2^e amplitudes, 2^14 in the source.
    method SwapQubits(pairs: seq<(nat, nat)>, e: nat) returns (ok: bool)
      requires Valid() && 1 <= |pairs| <= e
      modifies this
      ensures Valid() && (ok <==> Swappable(old(locals), old(globals), pairs))
      ensures !ok ==> vec == old(vec) && locals == old(locals) && globals == old(globals)
      ensures ok ==> ExchangedIds(old(locals), old(globals), locals, globals, pairs)
      ensures ok ==> SameState(old(vec), Layout(old(locals), old(globals)), vec, Layout(locals, globals))
    {
      var g, l;
      ok, g, l := Positions(pairs);
      if !ok {
        return;
      }
      DistinctParts(Firsts(pairs), Seconds(pairs));
      DistinctPlaces(globals, Firsts(pairs), g);
      DistinctPlaces(locals, Seconds(pairs), l);
      var swapBits;
      ghost var gs, ls, lp, perm;
      swapBits, gs, ls, lp, perm := Q2Bits(g, l);
      ghost var vec0, layout := vec, Layout(locals, globals);
      IsSetting(g, l, gs, ls, lp, perm, layout);
      Exchange(g, swapBits, |pairs|, e, gs, ls, lp);
      Relabel(pairs, g, l);
      IsRelabelled(pairs, g, l, gs, ls, lp, perm, layout, Layout(locals, globals));
      StateKept(vec0, vec, layout, Layout(locals, globals), gs, ls, lp);
    }

    // std::swap(locals_[pos_local], globals_[pos_global]) for every pair.
    method Relabel(pairs: seq<(nat, nat)>, ghost g: seq<nat>, ghost l: seq<nat>)
      requires Swappable(locals, globals, pairs) && Placed(locals, globals, pairs, g, l)
      modifies this`locals, this`globals
      ensures RelabelledUpTo(old(locals), locals, l, Firsts(pairs), |pairs|)
      ensures RelabelledUpTo(old(globals), globals, g, Seconds(pairs), |pairs|)
    {
      DistinctParts(Firsts(pairs), Seconds(pairs));
      ghost var locals0, globals0 := locals, globals;
      for i := 0 to |pairs|
        invariant RelabelledUpTo(locals0, locals, l, Firsts(pairs), i)
        invariant RelabelledUpTo(globals0, globals, g, Seconds(pairs), i)
      {
        StillThere(globals0, globals, g, Firsts(pairs), Seconds(pairs), i);
        StillThere(locals0, locals, l, Seconds(pairs), Firsts(pairs), i);
        var posGlobal := Find(globals, pairs[i].0);
        var posLocal := Find(locals, pairs[i].1);
        RelabelOne(globals0, globals, g, Firsts(pairs), Seconds(pairs), i);
        RelabelOne(locals0, locals, l, Seconds(pairs), Firsts(pairs), i);
        var id := locals[posLocal];
        locals := locals[posLocal := globals[posGlobal]];
        globals := globals[posGlobal := id];
      }
    }
  }

  // g[i] and l[i] are where the i-th pair's qubits are found.
  ghost predicate Placed(locals: seq<nat>, globals: seq<nat>, pairs: seq<(nat, nat)>, g: seq<nat>, l: seq<nat>) {
    IsAt(globals, Firsts(pairs), g) && IsAt(locals, Seconds(pairs), l)
  }

  ghost predicate IsAt(s: seq<nat>, ids: seq<nat>, p: seq<nat>) {
    |p| == |ids| && forall i :: 0 <= i < |ids| ==> p[i] < |s| && p[i] == Find(s, ids[i])
  }

  // The first i positions of p hold the new ids, everything else is as before.
  ghost predicate RelabelledUpTo(s: seq<nat>, s': seq<nat>, p: seq<nat>, partners: seq<nat>, i: nat) {
    && |s'| == |s| && i <= |p| == |partners|
    && (forall k :: 0 <= k < |p| ==> p[k] < |s|)
    && (forall k :: 0 <= k < |p| ==> s'[p[k]] == if k < i then partners[k] else s[p[k]])
    && (forall j :: 0 <= j < |s| && j !in p ==> s'[j] == s[j])
  }

  ghost predicate Recorded(pos: map<nat, nat>, pairs: seq<(nat, nat)>, i: nat) {
    i <= |pairs| && pos.Keys == Elements(Firsts(pairs[..i]) + Seconds(pairs[..i]))
  }

  lemma RecordMore(pos: map<nat, nat>, pairs: seq<(nat, nat)>, i: nat, p: nat, q: nat)
    requires Recorded(pos, pairs, i) && i < |pairs|
    ensures Recorded(pos[pairs[i].0 := p][pairs[i].1 := q], pairs, i + 1)
  {
    assert Firsts(pairs[..i + 1]) == Firsts(pairs[..i]) + [pairs[i].0];
    assert Seconds(pairs[..i + 1]) == Seconds(pairs[..i]) + [pairs[i].1];
  }

  lemma DistinctPlaces(s: seq<nat>, ids: seq<nat>, p: seq<nat>)
    requires IsAt(s, ids, p) && Distinct(ids)
    ensures Distinct(p)
  {
    forall i, j | 0 <= i < j < |p| ensures p[i] != p[j] {
      assert s[p[i]] == ids[i] && s[p[j]] == ids[j];
    }
  }

  // The relabelling so far does not disturb the qubits still to be looked up.
  lemma StillThere(s: seq<nat>, s': seq<nat>, p: seq<nat>, ids: seq<nat>, partners: seq<nat>, i: nat)
    requires IsAt(s, ids, p) && Distinct(ids) && RelabelledUpTo(s, s', p, partners, i) && i < |ids|
    requires forall j, k :: 0 <= j < |ids| && 0 <= k < |partners| ==> ids[j] != partners[k]
    ensures Find(s', ids[i]) == p[i] < |s'|
  {
    forall j | 0 <= j < p[i] ensures s'[j] != ids[i] {
      if j in p {
        var k :| 0 <= k < |p| && p[k] == j;
        assert s[j] != ids[i];
      }
    }
    FindIsFirst(s', ids[i], p[i]);
  }

  lemma RelabelOne(s: seq<nat>, s': seq<nat>, p: seq<nat>, ids: seq<nat>, partners: seq<nat>, i: nat)
    requires IsAt(s, ids, p) && Distinct(ids) && RelabelledUpTo(s, s', p, partners, i) && i < |ids|
    ensures RelabelledUpTo(s, s'[p[i] := partners[i]], p, partners, i + 1) && s'[p[i]] == ids[i]
  {
    DistinctPlaces(s, ids, p);
    assert p[i] in p;
  }

  lemma AnotherRound(n: nat, done: nat, rounds: nat)
    requires n > 0 && n * done < n * rounds
    ensures n * done + n == n * (done + 1) <= n * rounds
  {
    if rounds <= done {
      MultiplesGrow(n, rounds, done);
    } else {
      MultiplesGrow(n, done + 1, rounds);
    }
  }

  // Every qubit of a pair takes the place of the other one.
  ghost predicate ExchangedIds(locals: seq<nat>, globals: seq<nat>, locals': seq<nat>, globals': seq<nat>, pairs: seq<(nat, nat)>)
    requires Swappable(locals, globals, pairs)
  {
    && RelabelledUpTo(locals, locals', Places(locals, Seconds(pairs)), Firsts(pairs), |pairs|)
    && RelabelledUpTo(globals, globals', Places(globals, Firsts(pairs)), Seconds(pairs), |pairs|)
  }

  ghost function Places(s: seq<nat>, ids: seq<nat>): seq<nat> {
    seq(|ids|, i requires 0 <= i < |ids| => Find(s, ids[i]))
  }

  // Every basis state has the amplitude it had.
  ghost predicate SameState(vec: seq<seq<Complex>>, layout: Layout, vec': seq<seq<Complex>>, layout': Layout) {
    && IsState(vec, layout) && IsState(vec', layout')
    && forall ones: set<nat> :: Amplitude(vec', layout', ones) == Amplitude(vec, layout, ones)
  }

  lemma StateKept(vec: seq<seq<Complex>>, vec': seq<seq<Complex>>, layout: Layout, layout': Layout,
                  gs: seq<nat>, ls: seq<nat>, lp: seq<nat>)
    requires IsState(vec, layout) && IsState(vec', layout') && IsExchange(layout, gs, ls, lp)
    requires Relabelled(layout, layout', gs, lp) && Exchanged(vec, vec', |layout.locals|, gs, ls, lp)
    ensures SameState(vec, layout, vec', layout')
  {
    forall ones: set<nat> ensures Amplitude(vec', layout', ones) == Amplitude(vec, layout, ones) {
      SwapKeepsAmplitudes(vec, vec', layout, layout', gs, ls, lp, ones);
    }
  }

  lemma IsSetting(g: seq<nat>, l: seq<nat>, gs: seq<nat>, ls: seq<nat>, lp: seq<nat>, perm: seq<nat>, layout: Layout)
    requires TableFor(g, l, gs, ls, lp, perm)
    requires forall i :: 0 <= i < |g| ==> g[i] < |layout.globals|
    requires forall i :: 0 <= i < |l| ==> l[i] < |layout.locals|
    ensures IsExchange(layout, gs, ls, lp) && Setting(|layout.globals|, |layout.locals|, g, gs, ls, lp)
  {
    forall j ensures j in g <==> j in gs {
      SameElementsOf(g, perm, gs, j);
      if j in gs {
        var b :| 0 <= b < |gs| && gs[b] == j;
        assert g[perm[b]] == j;
      }
    }
    forall i | 0 <= i < |ls| ensures ls[i] < |layout.locals| {
      assert ls[i] in lp;
      var b :| 0 <= b < |lp| && lp[b] == ls[i];
    }
    AscendingBelow(ls, |layout.locals|);
  }

  lemma IsRelabelled(pairs: seq<(nat, nat)>, g: seq<nat>, l: seq<nat>, gs: seq<nat>, ls: seq<nat>, lp: seq<nat>, perm: seq<nat>,
                     layout: Layout, layout': Layout)
    requires Swappable(layout.locals, layout.globals, pairs) && Placed(layout.locals, layout.globals, pairs, g, l)
    requires TableFor(g, l, gs, ls, lp, perm) && IsExchange(layout, gs, ls, lp)
    requires RelabelledUpTo(layout.locals, layout'.locals, l, Firsts(pairs), |pairs|)
    requires RelabelledUpTo(layout.globals, layout'.globals, g, Seconds(pairs), |pairs|)
    ensures Relabelled(layout, layout', gs, lp)
    ensures ExchangedIds(layout.locals, layout.globals, layout'.locals, layout'.globals, pairs)
  {
    assert Places(layout.locals, Seconds(pairs)) == l && Places(layout.globals, Firsts(pairs)) == g;
    forall i | 0 <= i < |gs| ensures layout'.locals[lp[i]] == layout.globals[gs[i]] && layout'.globals[gs[i]] == layout.locals[lp[i]] {
      var k := perm[i];
      assert layout.globals[g[k]] == pairs[k].0 && layout.locals[l[k]] == pairs[k].1;
    }
    forall k ensures (k in l <==> k in lp) && (k in g <==> k in gs) {
      SameElementsOf(l, perm, lp, k);
      SameElementsOf(g, perm, gs, k);
      Chosen(l, perm, lp, k);
      Chosen(g, perm, gs, k);
    }
  }

  lemma Chosen(s: seq<nat>, order: seq<nat>, t: seq<nat>, k: nat)
    requires |t| == |s| == |order| && forall j :: 0 <= j < |t| ==> order[j] < |s| && t[j] == s[order[j]]
    ensures k in t ==> k in s
  {
  }
}
