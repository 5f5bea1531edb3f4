// q2bits_ng: the table of local bits and of their order by global bits, built
// by three sorts over parts of one vector.

module SwapTables {
  import opened Sequences
  import opened Bits
  import opened QubitSwap

  // ----- sorting ----------------------------------------------------------

  ghost predicate Ascends(s: seq<nat>, key: nat -> nat) {
    forall i, j :: 0 <= i < j < |s| ==> key(s[i]) < key(s[j])
  }

  ghost predicate SameElements(s: seq<nat>, t: seq<nat>) {
    |s| == |t| && forall x :: x in s <==> x in t
  }

  ghost predicate DistinctKeys(s: seq<nat>, key: nat -> nat) {
    forall i, j :: 0 <= i < j < |s| ==> key(s[i]) != key(s[j])
  }

  // std::sort with a comparison by key, for elements with distinct keys.
  method SortBy(s: seq<nat>, key: nat -> nat) returns (r: seq<nat>)
    requires DistinctKeys(s, key)
    ensures Ascends(r, key) && SameElements(s, r)
  {
    r := [];
    for k := 0 to |s|
      invariant Ascends(r, key) && SameElements(s[..k], r)
    {
      var p := 0;
      while p < |r| && key(r[p]) < key(s[k])
        invariant p <= |r| && forall i :: 0 <= i < p ==> key(r[i]) < key(s[k])
      {
        p := p + 1;
      }
      InsertKeepsOrder(s, key, k, r, p);
      r := r[..p] + [s[k]] + r[p..];
    }
    assert s[..|s|] == s;
  }

  lemma InsertKeepsOrder(s: seq<nat>, key: nat -> nat, k: nat, r: seq<nat>, p: nat)
    requires DistinctKeys(s, key) && k < |s| && p <= |r| && Ascends(r, key) && SameElements(s[..k], r)
    requires forall i :: 0 <= i < p ==> key(r[i]) < key(s[k])
    requires p < |r| ==> key(r[p]) >= key(s[k])
    ensures var r' := r[..p] + [s[k]] + r[p..]; Ascends(r', key) && SameElements(s[..k + 1], r')
  {
    InsertElement(s, k, r, p);
    if p < |r| {
      assert r[p] in s[..k];
      var i :| 0 <= i < k && s[i] == r[p];
      assert key(s[i]) != key(s[k]);
    }
    InsertAscends(r, key, s[k], p);
  }

  lemma InsertElement(s: seq<nat>, k: nat, r: seq<nat>, p: nat)
    requires k < |s| && p <= |r| && SameElements(s[..k], r)
    ensures SameElements(s[..k + 1], r[..p] + [s[k]] + r[p..])
  {
    assert s[..k + 1] == s[..k] + [s[k]];
    assert r == r[..p] + r[p..];
  }

  lemma InsertAscends(r: seq<nat>, key: nat -> nat, x: nat, p: nat)
    requires p <= |r| && Ascends(r, key)
    requires (forall i :: 0 <= i < p ==> key(r[i]) < key(x)) && (p < |r| ==> key(r[p]) > key(x))
    ensures Ascends(r[..p] + [x] + r[p..], key)
  {
    var r' := r[..p] + [x] + r[p..];
    forall i, j | 0 <= i < j < |r'| ensures key(r'[i]) < key(r'[j]) {
      if j < p {
        assert r'[i] == r[i] && r'[j] == r[j];
      } else if j == p {
        assert r'[i] == r[i];
      } else {
        assert r'[j] == r[j - 1];
        if i < p {
          assert r'[i] == r[i];
        } else if i > p {
          assert r'[i] == r[i - 1];
        }
      }
    }
  }

  // ----- the three sorts --------------------------------------------------

  // The numbers below k, in some order.
  ghost predicate IsOrder(s: seq<nat>, k: nat) {
    |s| == k && Distinct(s) && forall i :: i in s <==> 0 <= i < k
  }

  // Global position g[i] and local position l[i] of the i-th pair; perm lists
  // the pairs by global position.
  ghost predicate TableFor(g: seq<nat>, l: seq<nat>, gs: seq<nat>, ls: seq<nat>, lp: seq<nat>, perm: seq<nat>) {
    && |g| == |l| == |gs| == |ls| == |lp| && IsOrder(perm, |g|)
    && IsTable(ls, lp) && Increasing(gs)
    && forall b :: 0 <= b < |perm| ==> perm[b] < |g| && gs[b] == g[perm[b]] && lp[b] == l[perm[b]]
  }

  // What doCalc reads: the local bits, ascending, and for each global bit, in
  // ascending order, the index of its local bit.
  ghost predicate Encodes(res: seq<nat>, ls: seq<nat>, lp: seq<nat>) {
    && |ls| == |lp| && |res| == 4 * |ls|
    && res[..|ls|] == Powers(ls)
    && Picks(res[|ls|..2 * |ls|], ls, lp)
  }

  ghost predicate Picks(order: seq<nat>, ls: seq<nat>, lp: seq<nat>) {
    |order| == |ls| == |lp| && forall j :: 0 <= j < |order| ==> order[j] < |ls| && ls[order[j]] == lp[j]
  }

  function KeyOf(s: seq<nat>): nat -> nat {
    (i: nat) => if i < |s| then s[i] else 0
  }

  function Identity(): nat -> nat { (x: nat) => x }

  // The key of the third sort: the global bit of the pair with the i-th local bit.
  function GlobalKey(globals: seq<nat>, order: seq<nat>): nat -> nat {
    (i: nat) => if i < |order| && order[i] < |globals| then globals[order[i]] else 0
  }

  function Powers(s: seq<nat>): seq<nat> {
    seq(|s|, i requires 0 <= i < |s| => Pow2(s[i]))
  }

  method UnsortedBits(g: seq<nat>, l: seq<nat>) returns (res: seq<nat>)
    requires |g| == |l|
    ensures var n := |g|;
            && |res| == 4 * n && res[..n] == Powers(l) && res[n..2 * n] == UpTo(n)
            && res[2 * n..3 * n] == Powers(g) && res[3 * n..] == UpTo(n)
  {
    var n := |g|;
    res := seq(4 * n, i => 0);
    for i := 0 to n
      invariant |res| == 4 * n
      invariant forall k :: 0 <= k < i ==> res[k] == Pow2(l[k])
      invariant forall k :: n <= k < n + i ==> res[k] == k - n
      invariant forall k :: 2 * n <= k < 2 * n + i ==> res[k] == Pow2(g[k - 2 * n])
      invariant forall k :: 3 * n <= k < 3 * n + i ==> res[k] == k - 3 * n
    {
      res := res[i := Pow2(l[i])];
      res := res[n + i := i];
      res := res[2 * n + i := Pow2(g[i])];
      res := res[3 * n + i := i];
    }
    assert res[..n] == Powers(l) && res[n..2 * n] == UpTo(n) && res[2 * n..3 * n] == Powers(g) && res[3 * n..] == UpTo(n);
  }

  // The vector for the pairs with global positions g and local positions l.
  ghost predicate MatchesPairs(g: seq<nat>, l: seq<nat>, res: seq<nat>) {
    exists gs, ls, lp, perm :: TableFor(g, l, gs, ls, lp, perm) && Encodes(res, ls, lp)
  }

  // q2bits_ng
  method Q2Bits(g: seq<nat>, l: seq<nat>)
    returns (res: seq<nat>, ghost gs: seq<nat>, ghost ls: seq<nat>, ghost lp: seq<nat>, ghost perm: seq<nat>)
    requires |g| == |l| && Distinct(g) && Distinct(l)
    ensures TableFor(g, l, gs, ls, lp, perm) && Encodes(res, ls, lp)
    ensures MatchesPairs(g, l, res)
  {
    var n := |g|;
    res := UnsortedBits(g, l);
    DistinctPowers(l);
    var byLocal := SortBy(res[3 * n..], KeyOf(res[..n]));
    res := res[..3 * n] + byLocal;
    assert res[..n] == Powers(l) && res[n..2 * n] == UpTo(n) && res[2 * n..3 * n] == Powers(g) && res[3 * n..] == byLocal;
    var locals := SortBy(res[..n], Identity());
    res := locals + res[n..];
    assert res[..n] == locals && res[n..2 * n] == UpTo(n) && res[2 * n..3 * n] == Powers(g) && res[3 * n..] == byLocal;
    GlobalKeysDiffer(g, byLocal);
    var byGlobal := SortBy(res[n..2 * n], GlobalKey(res[2 * n..3 * n], res[3 * n..]));
    res := res[..n] + byGlobal + res[2 * n..];
    gs, ls, lp, perm := SortsAgree(g, l, byLocal, locals, byGlobal);
    assert res[..n] == locals && res[n..2 * n] == byGlobal;
  }

  lemma PowersOrdered(a: nat, b: nat)
    ensures Pow2(a) < Pow2(b) <==> a < b
  {
    if a < b {
      Pow2Grows(a, b);
    } else if b < a {
      Pow2Grows(b, a);
    }
  }

  lemma DistinctPowers(s: seq<nat>)
    requires Distinct(s)
    ensures DistinctKeys(UpTo(|s|), KeyOf(Powers(s))) && DistinctKeys(Powers(s), Identity())
  {
    forall i, j | 0 <= i < j < |s| ensures Pow2(s[i]) != Pow2(s[j]) {
      PowersOrdered(s[i], s[j]);
      PowersOrdered(s[j], s[i]);
    }
  }

  lemma SortedIsOrder(r: seq<nat>, key: nat -> nat, k: nat)
    requires Ascends(r, key) && SameElements(UpTo(k), r)
    ensures IsOrder(r, k)
  {
    forall i ensures i in r <==> 0 <= i < k {
      if 0 <= i < k {
        assert UpTo(k)[i] == i;
      }
    }
  }

  lemma GlobalKeysDiffer(g: seq<nat>, order: seq<nat>)
    requires Distinct(g) && SameElements(UpTo(|g|), order) && Distinct(order)
    ensures DistinctKeys(UpTo(|g|), GlobalKey(Powers(g), order))
  {
    forall i | 0 <= i < |order| ensures order[i] < |g| {
      assert order[i] in UpTo(|g|);
    }
    forall i, j | 0 <= i < j < |g| ensures GlobalKey(Powers(g), order)(i) != GlobalKey(Powers(g), order)(j) {
      PowersOrdered(g[order[i]], g[order[j]]);
      PowersOrdered(g[order[j]], g[order[i]]);
    }
  }

  // The sorted bits are those of the pairs in the order of the first sort, and
  // the third sort composes the two orders.
  lemma SortsAgree(g: seq<nat>, l: seq<nat>, byLocal: seq<nat>, locals: seq<nat>, byGlobal: seq<nat>)
    returns (gs: seq<nat>, ls: seq<nat>, lp: seq<nat>, perm: seq<nat>)
    requires |g| == |l| && Distinct(g) && Distinct(l)
    requires Ascends(byLocal, KeyOf(Powers(l))) && SameElements(UpTo(|l|), byLocal)
    requires Ascends(locals, Identity()) && SameElements(Powers(l), locals)
    requires Ascends(byGlobal, GlobalKey(Powers(g), byLocal)) && SameElements(UpTo(|g|), byGlobal)
    ensures TableFor(g, l, gs, ls, lp, perm)
    ensures locals == Powers(ls) && Picks(byGlobal, ls, lp)
  {
    var n := |g|;
    SortedIsOrder(byLocal, KeyOf(Powers(l)), n);
    SortedIsOrder(byGlobal, GlobalKey(Powers(g), byLocal), n);
    forall i | 0 <= i < n ensures byLocal[i] < n && byGlobal[i] < n {
      assert byLocal[i] in byLocal && byGlobal[i] in byGlobal;
    }
    ls := seq(n, j requires 0 <= j < n => l[byLocal[j]]);
    perm := seq(n, b requires 0 <= b < n => byLocal[byGlobal[b]]);
    gs := seq(n, b requires 0 <= b < n => g[perm[b]]);
    lp := seq(n, b requires 0 <= b < n => l[perm[b]]);
    ComposedOrder(byLocal, byGlobal, perm, n);
    SortedPowers(l, byLocal, locals, ls);
    forall i, j | 0 <= i < j < n ensures gs[i] < gs[j] {
      PowersOrdered(gs[i], gs[j]);
      assert GlobalKey(Powers(g), byLocal)(byGlobal[i]) < GlobalKey(Powers(g), byLocal)(byGlobal[j]);
    }
    BothTables(l, byLocal, perm, ls, lp);
  }

  lemma ComposedOrder(s: seq<nat>, t: seq<nat>, u: seq<nat>, n: nat)
    requires IsOrder(s, n) && IsOrder(t, n) && |u| == n
    requires forall b :: 0 <= b < n ==> t[b] < n && u[b] == s[t[b]]
    ensures IsOrder(u, n)
  {
    forall i, j | 0 <= i < j < n ensures u[i] != u[j] {
      assert t[i] != t[j];
    }
    forall i ensures i in u <==> 0 <= i < n {
      if 0 <= i < n {
        assert i in s;
        var a :| 0 <= a < n && s[a] == i;
        assert a in t;
        var b :| 0 <= b < n && t[b] == a;
        assert u[b] == i;
      }
      if i in u {
        var b :| 0 <= b < n && u[b] == i;
        assert s[t[b]] in s;
      }
    }
  }

  lemma SortedPowers(l: seq<nat>, byLocal: seq<nat>, locals: seq<nat>, ls: seq<nat>)
    requires IsOrder(byLocal, |l|) && |ls| == |l| && forall j :: 0 <= j < |l| ==> byLocal[j] < |l| && ls[j] == l[byLocal[j]]
    requires Ascends(byLocal, KeyOf(Powers(l)))
    requires Ascends(locals, Identity()) && SameElements(Powers(l), locals)
    ensures Increasing(ls) && locals == Powers(ls)
  {
    forall i, j | 0 <= i < j < |l| ensures ls[i] < ls[j] && Pow2(ls[i]) < Pow2(ls[j]) {
      PowersOrdered(ls[i], ls[j]);
      assert KeyOf(Powers(l))(byLocal[i]) < KeyOf(Powers(l))(byLocal[j]);
    }
    assert Increasing(locals) by {
      forall i, j | 0 <= i < j < |locals| ensures locals[i] < locals[j] {
        assert Identity()(locals[i]) < Identity()(locals[j]);
      }
    }
    forall x ensures x in locals <==> x in Powers(ls) {
      PowerElements(l, byLocal, ls, x);
    }
    AscendingUnique(locals, Powers(ls));
  }

  lemma PowerElements(l: seq<nat>, byLocal: seq<nat>, ls: seq<nat>, x: nat)
    requires IsOrder(byLocal, |l|) && |ls| == |l| && forall j :: 0 <= j < |l| ==> byLocal[j] < |l| && ls[j] == l[byLocal[j]]
    ensures x in Powers(l) <==> x in Powers(ls)
  {
    if x in Powers(l) {
      var i :| 0 <= i < |l| && Powers(l)[i] == x;
      assert i in byLocal;
      var j :| 0 <= j < |l| && byLocal[j] == i;
      assert Powers(ls)[j] == x;
    }
    if x in Powers(ls) {
      var j :| 0 <= j < |l| && Powers(ls)[j] == x;
      assert Powers(l)[byLocal[j]] == x;
    }
  }

  lemma BothTables(l: seq<nat>, byLocal: seq<nat>, perm: seq<nat>, ls: seq<nat>, lp: seq<nat>)
    requires Distinct(l) && IsOrder(byLocal, |l|) && IsOrder(perm, |l|) && Increasing(ls) && |ls| == |lp| == |l|
    requires forall j :: 0 <= j < |l| ==> byLocal[j] < |l| && ls[j] == l[byLocal[j]]
    requires forall j :: 0 <= j < |l| ==> perm[j] < |l| && lp[j] == l[perm[j]]
    ensures IsTable(ls, lp)
  {
    forall i, j | 0 <= i < j < |lp| ensures lp[i] != lp[j] {
      assert perm[i] != perm[j];
    }
    forall k ensures k in lp <==> k in ls {
      SameElementsOf(l, perm, lp, k);
      SameElementsOf(l, byLocal, ls, k);
    }
  }

  lemma SameElementsOf(l: seq<nat>, order: seq<nat>, s: seq<nat>, k: nat)
    requires IsOrder(order, |l|) && |s| == |l| && forall j :: 0 <= j < |l| ==> order[j] < |l| && s[j] == l[order[j]]
    ensures k in s <==> k in l
  {
    if k in l {
      var i :| 0 <= i < |l| && l[i] == k;
      assert i in order;
      var j :| 0 <= j < |l| && order[j] == i;
      assert s[j] == k;
    }
  }
}
