// The in-place kernels: nested stride loops over the base indices, a core that
// rewrites the 2^k amplitudes above one base, and the flat enumeration of the
// bases that replaces the loops.

module Kernels {
  import opened Sequences
  import opened Bits
  import opened QubitSwap
  import opened Complexes
  import opened Operators
  import opened GateFusion

  // ----- bases ------------------------------------------------------------

  // x with its target bits cleared.
  function Base(x: nat, ids: seq<nat>): nat { Color(x, ids, |ids|) }

  lemma BaseBits(x: nat, ids: seq<nat>, k: nat)
    ensures Bit(Base(x, ids), k) <==> Bit(x, k) && k !in ids
  {
    ColorBits(x, ids, |ids|, k);
    assert ids[..|ids|] == ids;
  }

  // psi[I], psi[I + d0], psi[I + d1], psi[I + d0 + d1], ...
  function Above(base: nat, ids: seq<nat>, j: nat): nat {
    base + Scatter(j, ids, |ids|)
  }

  lemma AboveBits(base: nat, ids: seq<nat>, j: nat, k: nat)
    requires Base(base, ids) == base && Distinct(ids)
    ensures k !in ids ==> Bit(Above(base, ids, j), k) == Bit(base, k)
    ensures forall l :: 0 <= l < |ids| && ids[l] == k ==> Bit(Above(base, ids, j), k) == Bit(j, l)
  {
    var s := Scatter(j, ids, |ids|);
    forall q: nat ensures !(Bit(base, q) && Bit(s, q)) {
      BaseBits(base, ids, q);
      ScatterBits(j, ids, |ids|, q);
    }
    DisjointSumBits(base, s, k);
    ScatterBits(j, ids, |ids|, k);
    BaseBits(base, ids, k);
  }

  lemma BaseOfAbove(base: nat, ids: seq<nat>, j: nat)
    requires Base(base, ids) == base && Distinct(ids)
    ensures Base(Above(base, ids, j), ids) == base
  {
    forall k: nat ensures Bit(Base(Above(base, ids, j), ids), k) == Bit(base, k) {
      BaseBits(Above(base, ids, j), ids, k);
      AboveBits(base, ids, j, k);
      BaseBits(base, ids, k);
    }
    SameBits(Base(Above(base, ids, j), ids), base);
  }

  lemma GatherOfAbove(base: nat, ids: seq<nat>, j: nat)
    requires Base(base, ids) == base && Distinct(ids) && j < Pow2(|ids|)
    ensures Gather(Above(base, ids, j), ids, |ids|) == j
  {
    forall l: nat ensures Bit(Gather(Above(base, ids, j), ids, |ids|), l) == Bit(j, l) {
      GatherBits(Above(base, ids, j), ids, |ids|, l);
      if l < |ids| {
        AboveBits(base, ids, j, ids[l]);
      } else {
        HighBits(j, |ids|, l);
      }
    }
    SameBits(Gather(Above(base, ids, j), ids, |ids|), j);
  }

  lemma AboveOwnBase(x: nat, ids: seq<nat>)
    requires Distinct(ids)
    ensures Base(Base(x, ids), ids) == Base(x, ids)
    ensures Above(Base(x, ids), ids, Gather(x, ids, |ids|)) == x
  {
    BaseTwice(x, ids);
    forall k: nat ensures Bit(Above(Base(x, ids), ids, Gather(x, ids, |ids|)), k) == Bit(x, k) {
      AboveBits(Base(x, ids), ids, Gather(x, ids, |ids|), k);
      BaseBits(x, ids, k);
      if l: nat :| l < |ids| && ids[l] == k {
        GatherBits(x, ids, |ids|, l);
      }
    }
    SameBits(Above(Base(x, ids), ids, Gather(x, ids, |ids|)), x);
  }

  lemma BaseTwice(x: nat, ids: seq<nat>)
    ensures Base(Base(x, ids), ids) == Base(x, ids)
  {
    forall k: nat ensures Bit(Base(Base(x, ids), ids), k) == Bit(Base(x, ids), k) {
      BaseBits(Base(x, ids), ids, k);
      BaseBits(x, ids, k);
    }
    SameBits(Base(Base(x, ids), ids), Base(x, ids));
  }

  lemma AboveBound(base: nat, ids: seq<nat>, j: nat, m: nat)
    requires Base(base, ids) == base && Distinct(ids) && base < Pow2(m) && forall l :: 0 <= l < |ids| ==> ids[l] < m
    ensures Above(base, ids, j) < Pow2(m)
  {
    forall k: nat | k >= m ensures !Bit(Above(base, ids, j), k) {
      AboveBits(base, ids, j, k);
      HighBits(base, m, k);
    }
    BoundedByBits(Above(base, ids, j), m);
  }

  // (x & mask) == mask
  predicate Covers(x: nat, mask: nat) { AndNot(mask, x) == 0 }

  lemma CoversBits(x: nat, mask: nat)
    ensures Covers(x, mask) <==> forall k: nat :: Bit(mask, k) ==> Bit(x, k)
  {
    if Covers(x, mask) {
      forall k: nat | Bit(mask, k) ensures Bit(x, k) {
        AndNotBits(mask, x, k);
        BitOfZero(k);
      }
    } else {
      var k := TopBit(AndNot(mask, x));
      AndNotBits(mask, x, k);
    }
  }

  // Controls are not targets, so a base decides for all indices above it.
  lemma CoversFromBase(x: nat, ids: seq<nat>, mask: nat)
    requires forall l :: 0 <= l < |ids| ==> !Bit(mask, ids[l])
    ensures Covers(Base(x, ids), mask) <==> Covers(x, mask)
  {
    CoversBits(x, mask);
    CoversBits(Base(x, ids), mask);
    forall k: nat | Bit(mask, k) ensures Bit(Base(x, ids), k) == Bit(x, k) {
      BaseBits(x, ids, k);
    }
  }

  // ----- the result -------------------------------------------------------

  ghost function CoreTerms(psi: seq<Complex>, mat: Matrix, ids: seq<nat>, base: nat, j: nat): nat -> Complex {
    (l: nat) => Mul(At(psi, Above(base, ids, l)), Entry(mat, j, l))
  }

  function At(psi: seq<Complex>, x: nat): Complex { if x < |psi| then psi[x] else ZERO }

  // The new amplitude at x.
  ghost function NewAt(psi: seq<Complex>, mat: Matrix, ids: seq<nat>, x: nat): Complex {
    Sum(CoreTerms(psi, mat, ids, Base(x, ids), Gather(x, ids, |ids|)), Pow2(|ids|))
  }

  // Everything above the bases below p has been rewritten, where the controls allow it.
  ghost predicate DoneAt(before: seq<Complex>, after: seq<Complex>, mat: Matrix, ids: seq<nat>, mask: nat, p: nat, x: nat) {
    && x < |before| && x < |after|
    && after[x] == if Base(x, ids) < p && Covers(x, mask) then NewAt(before, mat, ids, x) else before[x]
  }

  ghost predicate DoneUpTo(before: seq<Complex>, after: seq<Complex>, mat: Matrix, ids: seq<nat>, mask: nat, p: nat) {
    |after| == |before| && forall x :: 0 <= x < |before| ==> DoneAt(before, after, mat, ids, mask, p, x)
  }

  // Where there is no base there is nothing to do.
  lemma SkipNonBases(before: seq<Complex>, after: seq<Complex>, mat: Matrix, ids: seq<nat>, mask: nat, p: nat, p': nat)
    requires DoneUpTo(before, after, mat, ids, mask, p) && p <= p'
    requires forall y :: p <= y < p' ==> Base(y, ids) != y
    ensures DoneUpTo(before, after, mat, ids, mask, p')
  {
    forall x | 0 <= x < |before| ensures DoneAt(before, after, mat, ids, mask, p', x) {
      assert DoneAt(before, after, mat, ids, mask, p, x);
      BaseTwice(x, ids);
    }
  }

  lemma SkipUncovered(before: seq<Complex>, after: seq<Complex>, mat: Matrix, ids: seq<nat>, mask: nat, p: nat)
    requires DoneUpTo(before, after, mat, ids, mask, p) && !Covers(p, mask)
    requires forall l :: 0 <= l < |ids| ==> !Bit(mask, ids[l])
    ensures DoneUpTo(before, after, mat, ids, mask, p + 1)
  {
    var next := p + 1;
    forall x | 0 <= x < |before| ensures DoneAt(before, after, mat, ids, mask, next, x) {
      assert DoneAt(before, after, mat, ids, mask, p, x);
      CoversFromBase(x, ids, mask);
    }
  }

  // ----- the core ---------------------------------------------------------

  // The amplitudes above one base after the first `rows` of them are rewritten.
  ghost predicate CoreAt(before: seq<Complex>, after: seq<Complex>, mat: Matrix, ids: seq<nat>, base: nat, rows: nat, x: nat) {
    && x < |before| && x < |after|
    && after[x] == if Base(x, ids) == base && Gather(x, ids, |ids|) < rows
                   then Sum(CoreTerms(before, mat, ids, base, Gather(x, ids, |ids|)), Pow2(|ids|)) else before[x]
  }

  ghost predicate CoreUpTo(before: seq<Complex>, after: seq<Complex>, mat: Matrix, ids: seq<nat>, base: nat, rows: nat) {
    |after| == |before| && forall x :: 0 <= x < |before| ==> CoreAt(before, after, mat, ids, base, rows, x)
  }

  lemma CoreRow(before: seq<Complex>, after: seq<Complex>, mat: Matrix, ids: seq<nat>, base: nat, row: nat)
    requires CoreUpTo(before, after, mat, ids, base, row) && row < Pow2(|ids|)
    requires Base(base, ids) == base && Distinct(ids) && Above(base, ids, row) < |before|
    ensures CoreUpTo(before, after[Above(base, ids, row) := Sum(CoreTerms(before, mat, ids, base, row), Pow2(|ids|))],
                     mat, ids, base, row + 1)
  {
    var y, rows := Above(base, ids, row), row + 1;
    var now := after[y := Sum(CoreTerms(before, mat, ids, base, row), Pow2(|ids|))];
    BaseOfAbove(base, ids, row);
    GatherOfAbove(base, ids, row);
    forall x | 0 <= x < |before| ensures CoreAt(before, now, mat, ids, base, rows, x) {
      assert CoreAt(before, after, mat, ids, base, row, x);
      AboveOwnBase(x, ids);
    }
  }

  // The core at base p brings everything up to p + 1.
  lemma CoreDone(before: seq<Complex>, mid: seq<Complex>, after: seq<Complex>, mat: Matrix, ids: seq<nat>, mask: nat, p: nat, m: nat)
    requires DoneUpTo(before, mid, mat, ids, mask, p) && CoreUpTo(mid, after, mat, ids, p, Pow2(|ids|))
    requires Base(p, ids) == p && Distinct(ids) && Covers(p, mask) && p < |before| == Pow2(m)
    requires forall l :: 0 <= l < |ids| ==> ids[l] < m && !Bit(mask, ids[l])
    ensures DoneUpTo(before, after, mat, ids, mask, p + 1)
  {
    var next := p + 1;
    forall x | 0 <= x < |before| ensures DoneAt(before, after, mat, ids, mask, next, x) {
      assert DoneAt(before, mid, mat, ids, mask, p, x);
      assert CoreAt(mid, after, mat, ids, p, Pow2(|ids|), x);
      CoversFromBase(x, ids, mask);
      if Base(x, ids) == p {
        SameTerms(before, mid, mat, ids, mask, p, m, Gather(x, ids, |ids|));
      }
    }
  }

  // The amplitudes above p are still the old ones.
  lemma SameTerms(before: seq<Complex>, mid: seq<Complex>, mat: Matrix, ids: seq<nat>, mask: nat, p: nat, m: nat, j: nat)
    requires DoneUpTo(before, mid, mat, ids, mask, p) && Base(p, ids) == p && Distinct(ids) && p < |before| == Pow2(m)
    requires forall l :: 0 <= l < |ids| ==> ids[l] < m
    ensures Sum(CoreTerms(mid, mat, ids, p, j), Pow2(|ids|)) == Sum(CoreTerms(before, mat, ids, p, j), Pow2(|ids|))
  {
    forall l: nat | l < Pow2(|ids|) ensures CoreTerms(mid, mat, ids, p, j)(l) == CoreTerms(before, mat, ids, p, j)(l) {
      AboveBound(p, ids, l, m);
      BaseOfAbove(p, ids, l);
      assert DoneAt(before, mid, mat, ids, mask, p, Above(p, ids, l));
    }
    SumSame(CoreTerms(mid, mat, ids, p, j), CoreTerms(before, mat, ids, p, j), Pow2(|ids|));
  }

  // The dot product of one row with the amplitudes read.
  method RowSum(v: seq<Complex>, mat: Matrix, j: nat, ghost psi: seq<Complex>, ghost ids: seq<nat>, ghost base: nat) returns (res: Complex)
    requires |v| == Pow2(|ids|) && forall l :: 0 <= l < |v| ==> v[l] == At(psi, Above(base, ids, l))
    ensures res == Sum(CoreTerms(psi, mat, ids, base, j), Pow2(|ids|))
  {
    res := ZERO;
    for l := 0 to |v|
      invariant res == Sum(CoreTerms(psi, mat, ids, base, j), l)
    {
      res := Plus(res, Mul(v[l], Entry(mat, j, l)));
    }
  }

  // The amplitudes above a base, read before any of them is written.
  method ReadAbove(psi: array<Complex>, base: nat, ids: seq<nat>, ghost m: nat) returns (v: seq<Complex>)
    requires psi.Length == Pow2(m) && base < psi.Length && Base(base, ids) == base && Distinct(ids)
    requires forall l :: 0 <= l < |ids| ==> ids[l] < m
    ensures |v| == Pow2(|ids|) && forall l :: 0 <= l < |v| ==> v[l] == At(psi[..], Above(base, ids, l))
  {
    v := [];
    for l := 0 to Pow2(|ids|)
      invariant |v| == l && forall x :: 0 <= x < l ==> v[x] == At(psi[..], Above(base, ids, x))
    {
      AboveBound(base, ids, l, m);
      v := v + [psi[Above(base, ids, l)]];
    }
  }

  // kernel_core, for any number of targets.
  method KernelCore(psi: array<Complex>, base: nat, ids: seq<nat>, mat: Matrix, ghost m: nat)
    requires psi.Length == Pow2(m) && base < psi.Length && Base(base, ids) == base && Distinct(ids)
    requires forall l :: 0 <= l < |ids| ==> ids[l] < m
    modifies psi
    ensures CoreUpTo(old(psi[..]), psi[..], mat, ids, base, Pow2(|ids|))
  {
    ghost var before := psi[..];
    var v := ReadAbove(psi, base, ids, m);
    for j := 0 to Pow2(|ids|)
      invariant CoreUpTo(before, psi[..], mat, ids, base, j)
    {
      var res := RowSum(v, mat, j, before, ids, base);
      AboveBound(base, ids, j, m);
      CoreRow(before, psi[..], mat, ids, base, j);
      ghost var now := psi[..];
      psi[Above(base, ids, j)] := res;
      assert psi[..] == now[Above(base, ids, j) := res];
    }
  }

  // ----- the loops --------------------------------------------------------

  ghost predicate Descending(qs: seq<nat>) {
    forall i, j :: 0 <= i < j < |qs| ==> qs[i] > qs[j]
  }

  // Loop `level` runs below the stride of the loop around it.
  ghost function Width(qs: seq<nat>, m: nat, level: nat): nat
    requires level <= |qs|
  {
    if level == 0 then m else qs[level - 1]
  }

  ghost predicate Clear(x: nat, k: nat) { !Bit(x, k) }

  // The sum of the outer loop variables: no bit below the width, none at the
  // targets of the outer loops.
  ghost predicate Aligned(lo: nat, qs: seq<nat>, m: nat, level: nat) {
    && level <= |qs|
    && (forall k: nat :: k < Width(qs, m, level) ==> Clear(lo, k))
    && forall t :: 0 <= t < level ==> Clear(lo, qs[t])
  }

  ghost predicate BasesIn(visited: seq<nat>, ids: seq<nat>, lo: nat, hi: nat) {
    Increasing(visited) && forall y {:trigger y in visited} :: y in visited <==> lo <= y < hi && Base(y, ids) == y
  }

  ghost predicate Targets(ids: seq<nat>, qs: seq<nat>, m: nat, mask: nat) {
    && Distinct(ids) && Descending(qs) && |qs| == |ids|
    && (forall q :: q in qs <==> q in ids)
    && (forall l :: 0 <= l < |qs| ==> qs[l] < m)
    && forall l :: 0 <= l < |ids| ==> ids[l] < m && !Bit(mask, ids[l])
  }

  lemma AlignedSum(lo: nat, i: nat, qs: seq<nat>, m: nat, level: nat, k: nat)
    requires Aligned(lo, qs, m, level) && i < Pow2(Width(qs, m, level))
    ensures Bit(lo + i, k) == if k < Width(qs, m, level) then Bit(i, k) else Bit(lo, k)
  {
    var w := Width(qs, m, level);
    forall j: nat ensures !(Bit(lo, j) && Bit(i, j)) {
      if j >= w { HighBits(i, w, j); } else { assert Clear(lo, j); }
    }
    DisjointSumBits(lo, i, k);
    if k >= w { HighBits(i, w, k); } else { assert Clear(lo, k); }
  }

  // Inside all loops the index is a base.
  lemma InnermostIsBase(lo: nat, i: nat, ids: seq<nat>, qs: seq<nat>, m: nat, mask: nat)
    requires Targets(ids, qs, m, mask) && Aligned(lo, qs, m, |qs|) && i < Pow2(Width(qs, m, |qs|))
    ensures Base(lo + i, ids) == lo + i
  {
    var x := lo + i;
    forall k: nat ensures Bit(Base(x, ids), k) == Bit(x, k) {
      BaseBits(x, ids, k);
      if k in ids {
        assert k in qs;
        var t :| 0 <= t < |qs| && qs[t] == k;
        assert k >= qs[|qs| - 1] && Clear(lo, qs[t]);
        AlignedSum(lo, i, qs, m, |qs|, k);
      }
    }
    SameBits(Base(lo + i, ids), lo + i);
  }

  lemma StrideBits(q: nat, u: nat, k: nat)
    requires k <= q
    ensures !Bit(Pow2(q + 1) * u, k)
  {
    BitsOfSum(0, u, q + 1, k);
    BitOfZero(k);
  }

  lemma NextLevelAligned(lo: nat, u: nat, qs: seq<nat>, m: nat, level: nat)
    requires Aligned(lo, qs, m, level) && level < |qs| && Descending(qs) && qs[level] < Width(qs, m, level)
    requires Pow2(qs[level] + 1) * u < Pow2(Width(qs, m, level))
    ensures Aligned(lo + Pow2(qs[level] + 1) * u, qs, m, level + 1)
  {
    var q, i := qs[level], Pow2(qs[level] + 1) * u;
    var x := lo + i;
    forall k: nat | k <= q ensures Clear(x, k) {
      StrideBits(q, u, k);
      AlignedSum(lo, i, qs, m, level, k);
    }
    forall t | 0 <= t < level ensures Clear(x, qs[t]) {
      assert qs[t] >= qs[level - 1] && Clear(lo, qs[t]);
      AlignedSum(lo, i, qs, m, level, qs[t]);
    }
  }

  // The second half of a stride has the target bit set.
  lemma UpperHalfHasNoBase(lo: nat, q: nat, y: nat, ids: seq<nat>)
    requires (forall k: nat :: k <= q ==> Clear(lo, k)) && q in ids
    requires lo + Pow2(q) <= y < lo + 2 * Pow2(q)
    ensures Base(y, ids) != y
  {
    var e := y - lo - Pow2(q);
    var f := e + Pow2(q) * 1;
    BitsOfSum(e, 1, q, q);
    assert f < Pow2(q + 1);
    forall k: nat ensures !(Bit(lo, k) && Bit(f, k)) {
      if k > q { HighBits(f, q + 1, k); } else { assert Clear(lo, k); }
    }
    assert Clear(lo, q);
    DisjointSumBits(lo, f, q);
    BaseBits(y, ids, q);
  }

  lemma StrideFits(q: nat, w: nat, u: nat)
    requires q < w && Pow2(q + 1) * u < Pow2(w)
    ensures Pow2(q + 1) * u + 2 * Pow2(q) == Pow2(q + 1) * (u + 1) <= Pow2(w)
  {
    Pow2Sum(q + 1, w - q - 1);
    var s, r := Pow2(q + 1), Pow2(w - q - 1);
    if u >= r {
      MultiplesGrow(s, r, u);
    } else {
      MultiplesGrow(s, u + 1, r);
    }
  }

  lemma JoinBases(v: seq<nat>, w: seq<nat>, ids: seq<nat>, lo: nat, mid: nat, mid': nat, hi: nat)
    requires BasesIn(v, ids, lo, mid) && BasesIn(w, ids, mid, mid') && lo <= mid <= mid' <= hi
    requires forall y :: mid' <= y < hi ==> Base(y, ids) != y
    ensures BasesIn(v + w, ids, lo, hi)
  {
    forall i, j | 0 <= i < j < |v + w| ensures (v + w)[i] < (v + w)[j] {
      if i < |v| <= j {
        assert v[i] in v && w[j - |v|] in w;
      }
    }
  }

  // The innermost loop.
  method InnerLoop(psi: array<Complex>, ids: seq<nat>, mat: Matrix, mask: nat, lo: nat, bound: nat,
                   ghost before: seq<Complex>, ghost qs: seq<nat>, ghost m: nat) returns (ghost visited: seq<nat>)
    requires Targets(ids, qs, m, mask) && Aligned(lo, qs, m, |qs|) && bound == Pow2(Width(qs, m, |qs|))
    requires psi.Length == Pow2(m) && lo + bound <= psi.Length && DoneUpTo(before, psi[..], mat, ids, mask, lo)
    modifies psi
    ensures DoneUpTo(before, psi[..], mat, ids, mask, lo + bound) && BasesIn(visited, ids, lo, lo + bound)
  {
    visited := [];
    for i := 0 to bound
      invariant DoneUpTo(before, psi[..], mat, ids, mask, lo + i) && BasesIn(visited, ids, lo, lo + i)
    {
      InnermostIsBase(lo, i, ids, qs, m, mask);
      OneBase(visited, ids, lo, lo + i);
      visited := visited + [lo + i];
      AtBase(psi, ids, mat, mask, lo + i, before, m);
    }
  }

  method AtBase(psi: array<Complex>, ids: seq<nat>, mat: Matrix, mask: nat, base: nat, ghost before: seq<Complex>, ghost m: nat)
    requires psi.Length == Pow2(m) && base < psi.Length && Base(base, ids) == base && Distinct(ids)
    requires forall l :: 0 <= l < |ids| ==> ids[l] < m && !Bit(mask, ids[l])
    requires DoneUpTo(before, psi[..], mat, ids, mask, base)
    modifies psi
    ensures DoneUpTo(before, psi[..], mat, ids, mask, base + 1)
  {
    if Covers(base, mask) {
      ghost var mid := psi[..];
      KernelCore(psi, base, ids, mat, m);
      CoreDone(before, mid, psi[..], mat, ids, mask, base, m);
    } else {
      SkipUncovered(before, psi[..], mat, ids, mask, base);
    }
  }

  lemma OneBase(v: seq<nat>, ids: seq<nat>, lo: nat, y: nat)
    requires BasesIn(v, ids, lo, y) && lo <= y && Base(y, ids) == y
    ensures BasesIn(v + [y], ids, lo, y + 1)
  {
    forall i | 0 <= i < |v| ensures v[i] < y {
      assert v[i] in v;
    }
  }

  // The loop over the stride of qs[level] and all loops inside it.
  method StrideLoop(psi: array<Complex>, ids: seq<nat>, mat: Matrix, mask: nat, qs: seq<nat>, level: nat, lo: nat, bound: nat,
                    ghost before: seq<Complex>, ghost m: nat, ghost hi: nat) returns (ghost visited: seq<nat>)
    requires Targets(ids, qs, m, mask) && Aligned(lo, qs, m, level) && bound == Pow2(Width(qs, m, level))
    requires psi.Length == Pow2(m) && hi == lo + bound <= psi.Length && DoneUpTo(before, psi[..], mat, ids, mask, lo)
    modifies psi
    ensures DoneUpTo(before, psi[..], mat, ids, mask, hi) && BasesIn(visited, ids, lo, hi)
    decreases |qs| - level
  {
    if level == |qs| {
      visited := InnerLoop(psi, ids, mat, mask, lo, bound, before, qs, m);
      return;
    }
    visited := [];
    var d := Pow2(qs[level]);
    var i := 0;
    ghost var u := 0;
    while i < bound
      invariant i == Pow2(qs[level] + 1) * u <= bound
      invariant DoneUpTo(before, psi[..], mat, ids, mask, lo + i) && BasesIn(visited, ids, lo, lo + i)
      decreases bound - i
    {
      StrideFits(qs[level], Width(qs, m, level), u);
      NextLevelAligned(lo, u, qs, m, level);
      ghost var inner := StrideLoop(psi, ids, mat, mask, qs, level + 1, lo + i, d, before, m, lo + i + d);
      NoBaseInUpperHalf(lo + i, qs, m, mask, level, ids);
      SkipNonBases(before, psi[..], mat, ids, mask, lo + i + d, lo + i + 2 * d);
      JoinBases(visited, inner, ids, lo, lo + i, lo + i + d, lo + i + 2 * d);
      visited := visited + inner;
      i := i + 2 * d;
      u := u + 1;
    }
  }

  lemma NoBaseInUpperHalf(lo: nat, qs: seq<nat>, m: nat, mask: nat, level: nat, ids: seq<nat>)
    requires Targets(ids, qs, m, mask) && level < |qs| && Aligned(lo, qs, m, level + 1)
    ensures forall y :: lo + Pow2(qs[level]) <= y < lo + 2 * Pow2(qs[level]) ==> Base(y, ids) != y
  {
    assert qs[level] in qs;
    forall y | lo + Pow2(qs[level]) <= y < lo + 2 * Pow2(qs[level]) ensures Base(y, ids) != y {
      UpperHalfHasNoBase(lo, qs[level], y, ids);
    }
  }

  // The targets from the highest to the lowest.
  method SortDescending(ids: seq<nat>) returns (qs: seq<nat>)
    requires Distinct(ids)
    ensures Descending(qs) && |qs| == |ids| && forall q :: q in qs <==> q in ids
  {
    qs := [];
    for k := 0 to |ids|
      invariant Descending(qs) && |qs| == k && forall q :: q in qs <==> q in ids[..k]
    {
      var p := 0;
      while p < |qs| && qs[p] > ids[k]
        invariant p <= |qs| && forall i :: 0 <= i < p ==> qs[i] > ids[k]
      {
        p := p + 1;
      }
      InsertDescending(ids, k, qs, p);
      qs := qs[..p] + [ids[k]] + qs[p..];
    }
    assert ids[..|ids|] == ids;
  }

  lemma InsertDescending(ids: seq<nat>, k: nat, qs: seq<nat>, p: nat)
    requires Distinct(ids) && k < |ids| && p <= |qs| && Descending(qs) && forall q :: q in qs <==> q in ids[..k]
    requires (forall i :: 0 <= i < p ==> qs[i] > ids[k]) && (p < |qs| ==> qs[p] <= ids[k])
    ensures var r := qs[..p] + [ids[k]] + qs[p..];
            Descending(r) && forall q :: q in r <==> q in ids[..k + 1]
  {
    var r := qs[..p] + [ids[k]] + qs[p..];
    assert ids[..k + 1] == ids[..k] + [ids[k]];
    assert qs == qs[..p] + qs[p..];
    if p < |qs| {
      assert qs[p] in ids[..k];
      var i :| 0 <= i < k && ids[i] == qs[p];
    }
    forall i, j | 0 <= i < j < |r| ensures r[i] > r[j] {
      assert i < p ==> r[i] == qs[i];
      assert i > p ==> r[i] == qs[i - 1];
      assert j < p ==> r[j] == qs[j];
      assert j > p ==> r[j] == qs[j - 1];
    }
  }

  lemma AreTargets(ids: seq<nat>, qs: seq<nat>, m: nat, mask: nat)
    requires Distinct(ids) && Descending(qs) && |qs| == |ids| && forall q :: q in qs <==> q in ids
    requires forall l :: 0 <= l < |ids| ==> ids[l] < m && !Bit(mask, ids[l])
    ensures Targets(ids, qs, m, mask)
  {
    forall l | 0 <= l < |qs| ensures qs[l] < m {
      assert qs[l] in qs;
    }
  }

  lemma Start(psi: seq<Complex>, ids: seq<nat>, mat: Matrix, mask: nat, qs: seq<nat>, m: nat)
    ensures Aligned(0, qs, m, 0) && DoneUpTo(psi, psi, mat, ids, mask, 0)
  {
    forall k: nat ensures Clear(0, k) { BitOfZero(k); }
  }

  // kernelK, for any number of targets: the loops rewrite psi in place, visiting
  // every base once, in ascending order.
  method Kernel(psi: array<Complex>, ids: seq<nat>, mat: Matrix, mask: nat, ghost m: nat) returns (ghost visited: seq<nat>)
    requires psi.Length == Pow2(m) && Distinct(ids)
    requires forall l :: 0 <= l < |ids| ==> ids[l] < m && !Bit(mask, ids[l])
    modifies psi
    ensures DoneUpTo(old(psi[..]), psi[..], mat, ids, mask, psi.Length)
    ensures BasesIn(visited, ids, 0, psi.Length)
  {
    var qs := SortDescending(ids);
    AreTargets(ids, qs, m, mask);
    Start(psi[..], ids, mat, mask, qs, m);
    visited := StrideLoop(psi, ids, mat, mask, qs, 0, 0, psi.Length, psi[..], m, psi.Length);
  }

  // ----- the matrix action ------------------------------------------------

  // The array as a state: bit l of an index is qubit locals[l].
  ghost function WaveOf(psi: seq<Complex>, locals: seq<nat>): Wave {
    (a: set<nat>) => At(psi, Local(a, locals))
  }

  ghost predicate MaskOf(mask: nat, ctrls: set<nat>, locals: seq<nat>) {
    && (forall q :: q in ctrls ==> q in locals)
    && forall k: nat :: Bit(mask, k) <==> k < |locals| && locals[k] in ctrls
  }

  lemma CoversControls(a: set<nat>, locals: seq<nat>, mask: nat, ctrls: set<nat>)
    requires MaskOf(mask, ctrls, locals)
    ensures Covers(Local(a, locals), mask) <==> ctrls <= a
  {
    CoversBits(Local(a, locals), mask);
    forall k: nat ensures Bit(Local(a, locals), k) <==> k < |locals| && locals[k] in a {
      LocalBits(a, locals, k);
    }
    if ctrls <= a {
      forall k: nat | Bit(mask, k) ensures Bit(Local(a, locals), k) {
        assert locals[k] in ctrls;
      }
    } else {
      var q :| q in ctrls && q !in a;
      assert q in locals;
      var k: nat :| k < |locals| && locals[k] == q;
      AndNotBits(mask, Local(a, locals), k);
      BitOfZero(k);
    }
  }

  // The index above the base that spells j.
  lemma AboveIsReplaced(x: nat, ids: seq<nat>, j: nat)
    requires Distinct(ids)
    ensures Above(Base(x, ids), ids, j) == Replace(x, j, ids, |ids|)
  {
    assert ids[..|ids|] == ids;
    BaseTwice(x, ids);
    forall k: nat ensures Bit(Above(Base(x, ids), ids, j), k) == Bit(Replace(x, j, ids, |ids|), k) {
      AboveBits(Base(x, ids), ids, j, k);
      ReplaceBits(x, j, ids, |ids|, k);
      BaseBits(x, ids, k);
    }
    SameBits(Above(Base(x, ids), ids, j), Replace(x, j, ids, |ids|));
  }

  lemma NewIsApply(psi: seq<Complex>, mat: Matrix, idx: seq<nat>, locals: seq<nat>, ids: seq<nat>, a: set<nat>)
    requires Located(idx, locals, ids)
    ensures NewAt(psi, mat, ids, Local(a, locals)) == Apply(mat, idx, WaveOf(psi, locals))(a)
  {
    var x := Local(a, locals);
    LocatedDistinct(idx, locals, ids);
    LocalByPosition(a, idx, locals, ids);
    var f, g := CoreTerms(psi, mat, ids, Base(x, ids), Gather(x, ids, |ids|)), Terms(mat, idx, WaveOf(psi, locals), a);
    forall j: nat | j < Pow2(|ids|) ensures f(j) == g(j) {
      AboveIsReplaced(x, ids, j);
      LocalReplaced(a, idx, locals, ids, j);
      MulCommutes(At(psi, Above(Base(x, ids), ids, j)), Entry(mat, Gather(x, ids, |ids|), j));
    }
    SumSame(f, g, Pow2(|ids|));
  }

  // The array a kernel leaves is the controlled gate applied to the state the
  // array described before.
  lemma KernelIsGate(before: seq<Complex>, after: seq<Complex>, mat: Matrix, idx: seq<nat>, ctrls: set<nat>,
                     locals: seq<nat>, ids: seq<nat>, mask: nat, a: set<nat>)
    requires Located(idx, locals, ids) && MaskOf(mask, ctrls, locals) && |before| == Pow2(|locals|)
    requires DoneUpTo(before, after, mat, ids, mask, |before|)
    ensures WaveOf(after, locals)(a) == Gate(mat, idx, ctrls, WaveOf(before, locals))(a)
  {
    var x := Local(a, locals);
    assert DoneAt(before, after, mat, ids, mask, |before|, x);
    CoversControls(a, locals, mask, ctrls);
    NewIsApply(before, mat, idx, locals, ids, a);
    BaseAtMost(x, ids);
  }

  lemma BaseAtMost(x: nat, ids: seq<nat>)
    ensures Base(x, ids) <= x
  {
    forall k: nat ensures !(Bit(Base(x, ids), k) && Bit(AndNot(x, Base(x, ids)), k)) {
      AndNotBits(x, Base(x, ids), k);
    }
    forall k: nat ensures Bit(Base(x, ids) + AndNot(x, Base(x, ids)), k) == Bit(x, k) {
      DisjointSumBits(Base(x, ids), AndNot(x, Base(x, ids)), k);
      AndNotBits(x, Base(x, ids), k);
      BaseBits(x, ids, k);
    }
    SameBits(Base(x, ids) + AndNot(x, Base(x, ids)), x);
  }

  // ----- diagonal matrices ------------------------------------------------

  ghost predicate IsDiagonal(mat: Matrix, n: nat) {
    forall i: nat, j: nat :: i < n && j < n && i != j ==> Entry(mat, i, j) == ZERO
  }

  // is_diag
  method IsDiag(m: Matrix, rows: nat, cols: nat) returns (diag: bool)
    requires rows == cols == |m| && forall i :: 0 <= i < |m| ==> |m[i]| == cols
    ensures diag <==> IsDiagonal(m, rows)
  {
    for i := 0 to rows
      invariant forall x: nat, y: nat :: x < i && y < cols && x != y ==> Entry(m, x, y) == ZERO
    {
      for j := 0 to cols
        invariant forall x: nat, y: nat :: x < i && y < cols && x != y ==> Entry(m, x, y) == ZERO
        invariant forall y: nat :: y < j && y != i ==> Entry(m, i, y) == ZERO
      {
        if i != j && m[i][j] != ZERO {
          assert Entry(m, i, j) != ZERO;
          return false;
        }
      }
    }
    return true;
  }

  lemma DiagonalSum(psi: seq<Complex>, mat: Matrix, ids: seq<nat>, base: nat, j: nat)
    requires IsDiagonal(mat, Pow2(|ids|)) && j < Pow2(|ids|)
    ensures Sum(CoreTerms(psi, mat, ids, base, j), Pow2(|ids|)) == Mul(At(psi, Above(base, ids, j)), Entry(mat, j, j))
  {
    forall l: nat | l < Pow2(|ids|) && l != j ensures CoreTerms(psi, mat, ids, base, j)(l) == ZERO {
      MulUnits(At(psi, Above(base, ids, l)));
    }
    SumOfOne(CoreTerms(psi, mat, ids, base, j), Pow2(|ids|), j);
  }

  // kernel_core_diag: every amplitude by itself; for a diagonal matrix it
  // leaves what kernel_core leaves.
  method KernelCoreDiag(psi: array<Complex>, base: nat, ids: seq<nat>, mat: Matrix, ghost m: nat)
    requires psi.Length == Pow2(m) && base < psi.Length && Base(base, ids) == base && Distinct(ids)
    requires forall l :: 0 <= l < |ids| ==> ids[l] < m
    requires IsDiagonal(mat, Pow2(|ids|))
    modifies psi
    ensures CoreUpTo(old(psi[..]), psi[..], mat, ids, base, Pow2(|ids|))
  {
    ghost var before := psi[..];
    for j := 0 to Pow2(|ids|)
      invariant CoreUpTo(before, psi[..], mat, ids, base, j)
    {
      AboveBound(base, ids, j, m);
      DiagonalRow(before, psi[..], mat, ids, base, j);
      ghost var now := psi[..];
      var x := Above(base, ids, j);
      psi[x] := Mul(psi[x], Entry(mat, j, j));
      assert psi[..] == now[x := Mul(now[x], Entry(mat, j, j))];
    }
  }

  lemma DiagonalRow(before: seq<Complex>, now: seq<Complex>, mat: Matrix, ids: seq<nat>, base: nat, j: nat)
    requires CoreUpTo(before, now, mat, ids, base, j) && j < Pow2(|ids|) && IsDiagonal(mat, Pow2(|ids|))
    requires Base(base, ids) == base && Distinct(ids) && Above(base, ids, j) < |before|
    ensures var x := Above(base, ids, j); CoreUpTo(before, now[x := Mul(now[x], Entry(mat, j, j))], mat, ids, base, j + 1)
  {
    GatherOfAbove(base, ids, j);
    assert CoreAt(before, now, mat, ids, base, j, Above(base, ids, j));
    DiagonalSum(before, mat, ids, base, j);
    CoreRow(before, now, mat, ids, base, j);
  }

  // ----- the flat enumeration ---------------------------------------------

  // n & (hi - lo) for powers of two: the bits from lo to hi of n.
  function And(a: nat, b: nat): nat { AndNot(a, AndNot(a, b)) }

  // get_idx: the bits of n between two targets move up by the number of
  // targets below them. Segment t of the masks, t targets below.
  function SegmentMask(ps: seq<nat>, bits: nat, t: nat): nat
    requires t <= |ps|
  {
    var lo := if t == 0 then 0 else ps[t - 1] - (t - 1);
    var hi := if t == |ps| then bits else ps[t] - t;
    if 0 <= lo <= hi then Mask(lo, hi) else 0
  }

  // 2^hi - 2^lo
  function Mask(lo: nat, hi: nat): (r: nat)
    requires lo <= hi
    ensures r + Pow2(lo) == Pow2(hi)
  {
    PowerAtLeast(lo, hi - lo);
    Pow2(hi) - Pow2(lo)
  }

  function GetIdx(n: nat, ps: seq<nat>, bits: nat, t: nat): nat
    requires t <= |ps| + 1
  {
    if t == 0 then 0 else
    Xor(GetIdx(n, ps, bits, t - 1), Segment(n, ps, bits, t - 1))
  }

  // (n & m_t) << t
  function Segment(n: nat, ps: seq<nat>, bits: nat, t: nat): nat
    requires t <= |ps|
  {
    Pow2(t) * And(n, SegmentMask(ps, bits, t))
  }

  function Xor(a: nat, b: nat): nat { Or(AndNot(a, b), AndNot(b, a)) }

  lemma MaskBits(lo: nat, hi: nat, k: nat)
    requires lo <= hi
    ensures Bit(Mask(lo, hi), k) <==> lo <= k < hi
  {
    OffsetIsProduct(lo, hi - lo);
    BitsOfSum(0, Pow2(hi - lo) - 1, lo, k);
    if k < lo {
      BitOfZero(k);
    } else {
      BitsOfOnes(hi - lo, k - lo);
    }
  }

  lemma AndBits(a: nat, b: nat, k: nat)
    ensures Bit(And(a, b), k) == (Bit(a, k) && Bit(b, k))
  {
    AndNotBits(a, AndNot(a, b), k);
    AndNotBits(a, b, k);
  }

  lemma XorBits(a: nat, b: nat, k: nat)
    ensures Bit(Xor(a, b), k) == (Bit(a, k) != Bit(b, k))
  {
    OrBits(AndNot(a, b), AndNot(b, a), k);
    AndNotBits(a, b, k);
    AndNotBits(b, a, k);
  }

  // How many targets lie below bit k.
  ghost function Below(ps: seq<nat>, k: nat, t: nat): (r: nat)
    requires t <= |ps|
    ensures r <= t
  {
    if t == 0 then 0 else Below(ps, k, t - 1) + if ps[t - 1] < k then 1 else 0
  }

  lemma {:induction false} BelowIs(ps: seq<nat>, k: nat, t: nat, c: nat)
    requires Increasing(ps) && c <= t <= |ps|
    requires (c > 0 ==> ps[c - 1] < k) && (c < t ==> ps[c] >= k)
    ensures Below(ps, k, t) == c
  {
    if t > 0 {
      if c == t {
        BelowIs(ps, k, t - 1, c - 1);
      } else {
        BelowIs(ps, k, t - 1, c);
      }
    }
  }

  // Zero bits inserted at ascending positions.
  lemma {:induction false} ZeroInsertBits(n: nat, ps: seq<nat>, t: nat, k: nat)
    requires Increasing(ps) && t <= |ps|
    ensures Below(ps, k, t) <= k
    ensures Bit(ZeroInsert(n, ps, t), k) == (k !in ps[..t] && Bit(n, k - Below(ps, k, t)))
  {
    if t > 0 {
      var p := ps[t - 1];
      InsertZeroBits(ZeroInsert(n, ps, t - 1), p, k);
      assert ps[..t] == ps[..t - 1] + [p];
      if k <= p {
        ZeroInsertBits(n, ps, t - 1, k);
      } else {
        ZeroInsertBits(n, ps, t - 1, k - 1);
        AllBelow(ps, k, t);
        AllBelow(ps, k - 1, t - 1);
      }
    }
  }

  lemma AllBelow(ps: seq<nat>, k: nat, t: nat)
    requires Increasing(ps) && t <= |ps| && (t > 0 ==> ps[t - 1] < k)
    ensures Below(ps, k, t) == t && t <= k
  {
    BelowIs(ps, k, t, t);
    if t > 0 {
      AscendingAtLeast(ps, t - 1);
    }
  }

  lemma {:induction false} AscendingAtLeast(ps: seq<nat>, i: nat)
    requires Increasing(ps) && i < |ps|
    ensures ps[i] >= i
  {
    if i > 0 {
      AscendingAtLeast(ps, i - 1);
    }
  }

  // The segment of n that bit k of get_idx(n) comes from, if k is no target.
  lemma SegmentBit(n: nat, ps: seq<nat>, bits: nat, t: nat, k: nat)
    requires Increasing(ps) && t <= |ps| && (|ps| > 0 ==> ps[|ps| - 1] < bits + |ps|)
    ensures Bit(Segment(n, ps, bits, t), k)
            <==> (t == 0 || ps[t - 1] < k) && (if t == |ps| then k < bits + t else k < ps[t]) && k >= t && Bit(n, k - t)
  {
    var lo := if t == 0 then 0 else ps[t - 1] - (t - 1);
    var hi := if t == |ps| then bits else ps[t] - t;
    SegmentEnds(ps, bits, t);
    BitsOfSum(0, And(n, Mask(lo, hi)), t, k);
    BitOfZero(k);
    if k >= t {
      AndBits(n, Mask(lo, hi), k - t);
      MaskBits(lo, hi, k - t);
    }
  }

  lemma SegmentEnds(ps: seq<nat>, bits: nat, t: nat)
    requires Increasing(ps) && t <= |ps| && (|ps| > 0 ==> ps[|ps| - 1] < bits + |ps|)
    ensures var lo := if t == 0 then 0 else ps[t - 1] - (t - 1);
            var hi := if t == |ps| then bits else ps[t] - t;
            0 <= lo <= hi
  {
    if t > 0 {
      AscendingAtLeast(ps, t - 1);
    }
    if t < |ps| {
      AscendingAtLeast(ps, t);
    }
  }

  // get_idx up to segment t has the bits of ZeroInsert below the next target.
  lemma {:induction false} GetIdxBits(n: nat, ps: seq<nat>, bits: nat, t: nat, k: nat)
    requires Increasing(ps) && t <= |ps| + 1 && (|ps| > 0 ==> ps[|ps| - 1] < bits + |ps|)
    ensures Below(ps, k, |ps|) <= k
    ensures Bit(GetIdx(n, ps, bits, t), k)
            <==> k !in ps && Below(ps, k, |ps|) < t && k < bits + |ps| && Bit(n, k - Below(ps, k, |ps|))
  {
    ZeroInsertBits(n, ps, |ps|, k);
    if t == 0 {
      BitOfZero(k);
    } else {
      GetIdxBits(n, ps, bits, t - 1, k);
      GetIdxStep(n, ps, bits, t - 1, k);
    }
  }

  lemma GetIdxStep(n: nat, ps: seq<nat>, bits: nat, t: nat, k: nat)
    requires Increasing(ps) && t <= |ps| && (|ps| > 0 ==> ps[|ps| - 1] < bits + |ps|) && Below(ps, k, |ps|) <= k
    ensures Bit(GetIdx(n, ps, bits, t + 1), k)
            == (Bit(GetIdx(n, ps, bits, t), k)
                != (k !in ps && Below(ps, k, |ps|) == t && k < bits + |ps| && Bit(n, k - Below(ps, k, |ps|))))
  {
    XorBits(GetIdx(n, ps, bits, t), Segment(n, ps, bits, t), k);
    SegmentBit(n, ps, bits, t, k);
    InSegment(ps, bits, t, k);
  }

  // Bit k lies in segment t exactly when t targets are below it and it is none.
  lemma InSegment(ps: seq<nat>, bits: nat, t: nat, k: nat)
    requires Increasing(ps) && t <= |ps| && (|ps| > 0 ==> ps[|ps| - 1] < bits + |ps|)
    ensures (t == 0 || ps[t - 1] < k) && (if t == |ps| then k < bits + t else k < ps[t]) && k >= t
            <==> k !in ps && Below(ps, k, |ps|) == t && k < bits + |ps|
  {
    BelowSplits(ps, k, |ps|);
    if (t == 0 || ps[t - 1] < k) && (t == |ps| || k < ps[t]) {
      BelowIs(ps, k, |ps|, t);
      NoneBetween(ps, t, k);
      AllBelow(ps[..t], k, t);
    }
  }

  lemma NoneBetween(ps: seq<nat>, t: nat, k: nat)
    requires Increasing(ps) && t <= |ps| && (t == 0 || ps[t - 1] < k) && (t == |ps| || k < ps[t])
    ensures k !in ps
  {
    forall i | 0 <= i < |ps| ensures ps[i] != k {
      if i < t {
        assert ps[i] <= ps[t - 1];
      } else {
        assert ps[t] <= ps[i];
      }
    }
  }

  // The targets below k are the first ones.
  lemma {:induction false} BelowSplits(ps: seq<nat>, k: nat, t: nat)
    requires Increasing(ps) && t <= |ps|
    ensures var c := Below(ps, k, t); (c > 0 ==> ps[c - 1] < k) && (c < t ==> ps[c] >= k)
  {
    if t > 0 {
      BelowSplits(ps, k, t - 1);
    }
  }

  // get_idx enumerates the bases: it inserts zero bits at the targets.
  lemma GetIdxIsZeroInsert(n: nat, ps: seq<nat>, bits: nat)
    requires Increasing(ps) && n < Pow2(bits) && forall i :: 0 <= i < |ps| ==> ps[i] < bits + |ps|
    ensures GetIdx(n, ps, bits, |ps| + 1) == ZeroInsert(n, ps, |ps|)
  {
    forall k: nat ensures Bit(GetIdx(n, ps, bits, |ps| + 1), k) == Bit(ZeroInsert(n, ps, |ps|), k) {
      GetIdxBits(n, ps, bits, |ps| + 1, k);
      ZeroInsertBits(n, ps, |ps|, k);
      assert ps[..|ps|] == ps;
      if k >= bits + |ps| {
        HighBits(n, bits, k - Below(ps, k, |ps|));
      }
    }
    SameBits(GetIdx(n, ps, bits, |ps| + 1), ZeroInsert(n, ps, |ps|));
  }

  lemma InsertZeroGrows(x: nat, y: nat, p: nat)
    requires x < y
    ensures InsertZero(x, Pow2(p)) < InsertZero(y, Pow2(p))
  {
    var k := BitsFromLess(x, y);
    var a, b, q := InsertZero(x, Pow2(p)), InsertZero(y, Pow2(p)), if k < p then k else k + 1;
    InsertZeroBits(x, p, q);
    InsertZeroBits(y, p, q);
    forall j: nat | j > q ensures Bit(a, j) == Bit(b, j) {
      InsertZeroBits(x, p, j);
      InsertZeroBits(y, p, j);
    }
    LessFromBits(a, b, q);
  }

  lemma {:induction false} ZeroInsertGrows(x: nat, y: nat, ps: seq<nat>, k: nat)
    requires x < y && k <= |ps|
    ensures ZeroInsert(x, ps, k) < ZeroInsert(y, ps, k)
  {
    if k > 0 {
      ZeroInsertGrows(x, y, ps, k - 1);
      InsertZeroGrows(ZeroInsert(x, ps, k - 1), ZeroInsert(y, ps, k - 1), ps[k - 1]);
    }
  }

  lemma ZeroInsertIsBase(n: nat, ps: seq<nat>, ids: seq<nat>)
    requires Increasing(ps) && forall q :: q in ps <==> q in ids
    ensures Base(ZeroInsert(n, ps, |ps|), ids) == ZeroInsert(n, ps, |ps|)
  {
    var x := ZeroInsert(n, ps, |ps|);
    forall k: nat ensures Bit(Base(x, ids), k) == Bit(x, k) {
      BaseBits(x, ids, k);
      if k in ids {
        assert k in ps;
        var i :| 0 <= i < |ps| && ps[i] == k;
        ZeroBits(n, ps, |ps|, i);
      }
    }
    SameBits(Base(x, ids), x);
  }

  lemma BaseIsZeroInsert(y: nat, ps: seq<nat>, ids: seq<nat>, m: nat)
    requires Increasing(ps) && (forall q :: q in ps <==> q in ids) && |ps| <= m && y < Pow2(m) && Base(y, ids) == y
    requires forall i :: 0 <= i < |ps| ==> ps[i] < m
    ensures Extract(y, ps, |ps|) < Pow2(m - |ps|) && ZeroInsert(Extract(y, ps, |ps|), ps, |ps|) == y
  {
    forall i | 0 <= i < |ps| ensures !Bit(y, ps[i]) {
      BaseBits(y, ids, ps[i]);
      assert ps[i] in ps;
    }
    ExtractThenInsert(y, ps, |ps|);
    ExtractBound(y, ps, |ps|, m);
  }

  ghost function Enumeration(ps: seq<nat>, bits: nat): seq<nat> {
    seq(Pow2(bits), n requires 0 <= n => GetIdx(n, ps, bits, |ps| + 1))
  }

  // The nested loops visit exactly the indices that the flat loop computes, in
  // the same order.
  lemma LoopsAndEnumerationAgree(visited: seq<nat>, ids: seq<nat>, ps: seq<nat>, m: nat)
    requires BasesIn(visited, ids, 0, Pow2(m)) && Increasing(ps) && (forall q :: q in ps <==> q in ids)
    requires |ps| <= m && forall i :: 0 <= i < |ps| ==> ps[i] < m
    ensures visited == Enumeration(ps, m - |ps|)
  {
    var bits, e := m - |ps|, Enumeration(ps, m - |ps|);
    forall n: nat | n < Pow2(bits) ensures e[n] == ZeroInsert(n, ps, |ps|) {
      GetIdxIsZeroInsert(n, ps, bits);
    }
    forall i, j | 0 <= i < j < |e| ensures e[i] < e[j] {
      ZeroInsertGrows(i, j, ps, |ps|);
    }
    forall y ensures y in e <==> y in visited {
      if y in e {
        var n :| 0 <= n < |e| && e[n] == y;
        ZeroInsertIsBase(n, ps, ids);
        InsertBound(n, ps, |ps|, m);
      }
      if y in visited {
        BaseIsZeroInsert(y, ps, ids, m);
        assert e[Extract(y, ps, |ps|)] == y;
      }
    }
    AscendingUnique(e, visited);
  }

  // ----- batches ----------------------------------------------------------

  // The buffered kernel works through the flat loop in batches of `size`: it
  // reads all amplitudes of a batch before it writes any, and the last batch
  // may run past the end, where get_idx starts again from the first base.
  lemma GetIdxRepeats(n: nat, ps: seq<nat>, bits: nat)
    requires Increasing(ps) && forall i :: 0 <= i < |ps| ==> ps[i] < bits + |ps|
    ensures GetIdx(n, ps, bits, |ps| + 1) == GetIdx(n % Pow2(bits), ps, bits, |ps| + 1)
  {
    var t, n' := |ps| + 1, n % Pow2(bits);
    forall k: nat ensures Bit(GetIdx(n, ps, bits, t), k) == Bit(GetIdx(n', ps, bits, t), k) {
      GetIdxBits(n, ps, bits, t, k);
      GetIdxBits(n', ps, bits, t, k);
      if k !in ps && k < bits + |ps| {
        RoomAbove(ps, bits, k);
        LowBits(n, bits, k - Below(ps, k, |ps|));
      }
    }
    SameBits(GetIdx(n, ps, bits, t), GetIdx(n', ps, bits, t));
  }

  lemma {:induction false} LowBits(n: nat, bits: nat, k: nat)
    requires k < bits
    ensures Bit(n % Pow2(bits), k) == Bit(n, k)
  {
    var p := Pow2(bits - 1);
    HalfOfRemainder(n, p);
    if k > 0 {
      LowBits(n / 2, bits - 1, k - 1);
    }
  }

  lemma HalfOfRemainder(n: nat, p: nat)
    requires p > 0
    ensures (n % (2 * p)) / 2 == (n / 2) % p && (n % (2 * p)) % 2 == n % 2
  {
    var q, r, h := n / (2 * p), n % (2 * p), p * (n / (2 * p));
    assert n == 2 * h + r by {
      assert n == (2 * p) * q + r;
      assert (2 * p) * q == 2 * (p * q);
    }
    assert n / 2 == h + r / 2;
    Remainder(n / 2, p, q, r / 2);
  }

  // A bit that is no target has at most bits - 1 others below it that are none.
  lemma RoomAbove(ps: seq<nat>, bits: nat, k: nat)
    requires Increasing(ps) && k !in ps && k < bits + |ps| && forall i :: 0 <= i < |ps| ==> ps[i] < bits + |ps|
    ensures Below(ps, k, |ps|) <= k < bits + Below(ps, k, |ps|)
  {
    var c := Below(ps, k, |ps|);
    BelowSplits(ps, k, |ps|);
    AllBelow(ps[..c], k, c);
    if c < |ps| {
      assert ps[c] in ps;
      Spaced(ps, c, |ps| - 1);
    }
  }

  lemma {:induction false} Spaced(ps: seq<nat>, i: nat, j: nat)
    requires Increasing(ps) && i <= j < |ps|
    ensures ps[j] >= ps[i] + (j - i)
  {
    if i < j {
      Spaced(ps, i, j - 1);
      assert ps[j - 1] < ps[j];
    }
  }

  // The place in the enumeration that entry j of batch i computes.
  ghost function Place(size: nat, total: nat, i: nat, j: nat): nat
    requires total > 0
  {
    (size * i + j) % total
  }

  ghost predicate InBatch(size: nat, total: nat, i: nat, x: nat)
    requires total > 0
  {
    size * i < total && exists j: nat :: j < size && Place(size, total, i, j) == x
  }

  ghost predicate OnlyInOneBatch(size: nat, total: nat)
    requires total > 0
  {
    forall x: nat, i: nat, i': nat :: InBatch(size, total, i, x) && InBatch(size, total, i', x) ==> i == i'
  }

  // No base is left out ...
  lemma EveryBatched(size: nat, total: nat, x: nat)
    requires 0 < size && x < total
    ensures InBatch(size, total, x / size, x)
  {
    Divided(x, size, x / size, x % size);
    PlaceIs(size, total, x / size, x % size, x);
  }

  lemma Divided(x: nat, d: nat, q: nat, r: nat)
    requires d > 0 && q == x / d && r == x % d
    ensures x == d * q + r && r < d
  {
  }

  lemma PlaceIs(size: nat, total: nat, i: nat, j: nat, x: nat)
    requires j < size && size * i + j == x < total
    ensures InBatch(size, total, i, x)
  {
    assert Place(size, total, i, j) == x;
  }

  // ... and none is rewritten twice exactly when the batch size divides the
  // number of bases or all of them fit one batch.
  lemma BatchesExactIff(size: nat, total: nat)
    requires 0 < size && 0 < total
    ensures OnlyInOneBatch(size, total) <==> total % size == 0 || total <= size
  {
    if total <= size {
      forall x: nat, i: nat, i': nat | InBatch(size, total, i, x) && InBatch(size, total, i', x) ensures i == i' {
        FirstBatch(size, total, i);
        FirstBatch(size, total, i');
      }
    } else if total % size == 0 {
      forall x: nat, i: nat, i': nat | InBatch(size, total, i, x) && InBatch(size, total, i', x) ensures i == i' {
        BatchOf(size, total, i, x);
        BatchOf(size, total, i', x);
      }
    } else {
      FirstTwice(size, total);
    }
  }

  lemma FirstBatch(size: nat, total: nat, i: nat)
    requires total <= size && size * i < total
    ensures i == 0
  {
    if i > 0 {
      MultiplesGrow(size, 1, i);
    }
  }

  lemma BatchOf(size: nat, total: nat, i: nat, x: nat)
    requires 0 < size && 0 < total && total % size == 0 && InBatch(size, total, i, x)
    ensures i == x / size
  {
    var j: nat :| j < size && Place(size, total, i, j) == x;
    var q, start := total / size, size * i;
    Divided(total, size, q, 0);
    MoreMultiples(size, i, q);
    NotAhead(size, q, i);
    Remainder(start + j, total, 0, start + j);
    QuotientIs(size, i, j, x);
  }

  lemma NotAhead(d: nat, a: nat, b: nat)
    requires d * b < d * a
    ensures b < a
  {
    if a <= b { MultiplesGrow(d, a, b); }
  }

  lemma QuotientIs(d: nat, q: nat, r: nat, x: nat)
    requires r < d && x == d * q + r
    ensures x / d == q
  {
    Remainder(x, d, q, r);
    assert d * (x / d) == d * q;
    MoreMultiples(d, q, x / d);
    MoreMultiples(d, x / d, q);
  }

  // The last batch starts over with the first base.
  lemma FirstTwice(size: nat, total: nat)
    requires 0 < size < total && total % size != 0
    ensures !OnlyInOneBatch(size, total)
  {
    var i := total / size;
    assert total == size * i + total % size;
    assert Place(size, total, 0, 0) == 0 && InBatch(size, total, 0, 0);
    assert Place(size, total, i, total % size) == 0 && InBatch(size, total, i, 0);
  }
}
