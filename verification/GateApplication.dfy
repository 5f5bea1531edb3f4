// ApplyGate: every rank inserts its restriction of a gate, and together the
// ranks apply the gate to the distributed state.

module GateApplication {
  import opened Sequences
  import opened Bits
  import opened QubitSwap
  import opened Complexes
  import opened Operators
  import opened GateFusion
  import opened FusedGates
  import opened Kernels

  // ----- ranks ------------------------------------------------------------

  // The global qubits that are 1 on rank r.
  ghost function RankSet(r: nat, globals: seq<nat>): set<nat> {
    set g | 0 <= g < |globals| && Bit(r, g) :: globals[g]
  }

  // The state with its global qubits as on rank r.
  ghost function AtRank(b: set<nat>, globals: seq<nat>, r: nat): set<nat> {
    (b - Elements(globals)) + RankSet(r, globals)
  }

  // The part of a state that rank r holds.
  ghost function OnRank(psi: Wave, globals: seq<nat>, r: nat): Wave {
    (b: set<nat>) => psi(AtRank(b, globals, r))
  }

  lemma AtRankElements(b: set<nat>, globals: seq<nat>, r: nat, q: nat)
    requires Distinct(globals)
    ensures q !in globals ==> (q in AtRank(b, globals, r) <==> q in b)
    ensures q in globals ==> (q in AtRank(b, globals, r) <==> Bit(r, Find(globals, q)))
  {
    if q in globals {
      var g := Find(globals, q);
      assert globals[g] == q;
    }
  }

  // ----- the restricted matrix --------------------------------------------

  // The positions in ids of the local qubits, and these qubits.
  function LocalPositions(ids: seq<nat>, globals: seq<nat>, k: nat): seq<nat>
    requires k <= |ids|
  {
    if k == 0 then [] else
    LocalPositions(ids, globals, k - 1) + if ids[k - 1] in globals then [] else [k - 1]
  }

  function LocalIds(ids: seq<nat>, globals: seq<nat>, k: nat): seq<nat>
    requires k <= |ids|
  {
    if k == 0 then [] else
    LocalIds(ids, globals, k - 1) + if ids[k - 1] in globals then [] else [ids[k - 1]]
  }

  lemma {:induction false} LocalParts(ids: seq<nat>, globals: seq<nat>, k: nat)
    requires k <= |ids|
    ensures var lps, lids := LocalPositions(ids, globals, k), LocalIds(ids, globals, k);
            && Increasing(lps) && |lids| == |lps|
            && (forall l :: l in lps <==> 0 <= l < k && ids[l] !in globals)
            && (forall i :: 0 <= i < |lps| ==> lps[i] < k && lids[i] == ids[lps[i]])
  {
    if k > 0 {
      LocalParts(ids, globals, k - 1);
    }
  }

  // The index bits the rank fixes.
  ghost function Fixed(ids: seq<nat>, globals: seq<nat>, r: nat): nat {
    Local(RankSet(r, globals), ids)
  }

  // ok_bit: the index agrees with the rank on the global qubits.
  predicate OkBit(i: nat, ids: seq<nat>, globals: seq<nat>, r: nat) {
    forall l :: 0 <= l < |ids| ==> ids[l] in globals ==> Bit(i, l) == Bit(r, Find(globals, ids[l]))
  }

  lemma FixedBits(ids: seq<nat>, globals: seq<nat>, r: nat, l: nat)
    requires Distinct(globals)
    ensures Bit(Fixed(ids, globals, r), l) <==> l < |ids| && ids[l] in globals && Bit(r, Find(globals, ids[l]))
  {
    LocalBits(RankSet(r, globals), ids, l);
    if l < |ids| {
      AtRankElements({}, globals, r, ids[l]);
    }
  }

  lemma OkIsColor(i: nat, ids: seq<nat>, globals: seq<nat>, r: nat)
    requires Distinct(globals) && i < Pow2(|ids|)
    ensures var lps := LocalPositions(ids, globals, |ids|);
            OkBit(i, ids, globals, r) <==> Color(i, lps, |lps|) == Color(Fixed(ids, globals, r), lps, |lps|)
  {
    var lps, f := LocalPositions(ids, globals, |ids|), Fixed(ids, globals, r);
    LocalParts(ids, globals, |ids|);
    if OkBit(i, ids, globals, r) {
      forall l: nat ensures Bit(Base(i, lps), l) == Bit(Base(f, lps), l) {
        BaseBits(i, lps, l);
        BaseBits(f, lps, l);
        FixedBits(ids, globals, r, l);
        if l >= |ids| { HighBits(i, |ids|, l); }
      }
      SameBits(Base(i, lps), Base(f, lps));
    } else {
      var l :| 0 <= l < |ids| && ids[l] in globals && Bit(i, l) != Bit(r, Find(globals, ids[l]));
      BaseBits(i, lps, l);
      BaseBits(f, lps, l);
      FixedBits(ids, globals, r, l);
    }
  }

  // The indices that agree with the rank, in ascending order.
  function OkIndices(n: nat, ids: seq<nat>, globals: seq<nat>, r: nat): seq<nat> {
    if n == 0 then [] else
    OkIndices(n - 1, ids, globals, r) + if OkBit(n - 1, ids, globals, r) then [n - 1] else []
  }

  lemma {:induction false} OkIndicesAreOneColor(n: nat, ids: seq<nat>, globals: seq<nat>, r: nat)
    requires Distinct(globals) && n <= Pow2(|ids|)
    ensures var lps := LocalPositions(ids, globals, |ids|);
            OkIndices(n, ids, globals, r) == Communicator(n, lps, Color(Fixed(ids, globals, r), lps, |lps|))
  {
    if n > 0 {
      OkIndicesAreOneColor(n - 1, ids, globals, r);
      OkIsColor(n - 1, ids, globals, r);
    }
  }

  // The c-th of them has the bits of c at the local positions.
  lemma OkIndicesAre(ids: seq<nat>, globals: seq<nat>, r: nat)
    requires Distinct(globals)
    ensures var lps := LocalPositions(ids, globals, |ids|);
            OkIndices(Pow2(|ids|), ids, globals, r) == Members(Fixed(ids, globals, r), lps)
  {
    LocalParts(ids, globals, |ids|);
    OkIndicesAreOneColor(Pow2(|ids|), ids, globals, r);
    CommunicatorIsMembers(Fixed(ids, globals, r), LocalPositions(ids, globals, |ids|), |ids|);
  }

  ghost function Restricted(m: Matrix, ids: seq<nat>, globals: seq<nat>, r: nat): Matrix {
    var lps := LocalPositions(ids, globals, |ids|);
    seq(Pow2(|lps|), c requires 0 <= c => seq(Pow2(|lps|), d requires 0 <= d =>
          Entry(m, Member(Fixed(ids, globals, r), lps, c), Member(Fixed(ids, globals, r), lps, d))))
  }

  // The index of a state on rank r.
  lemma IndexAtRank(b: set<nat>, ids: seq<nat>, globals: seq<nat>, r: nat)
    requires Distinct(globals)
    ensures var lps, lids := LocalPositions(ids, globals, |ids|), LocalIds(ids, globals, |ids|);
            Local(AtRank(b, globals, r), ids) == Member(Fixed(ids, globals, r), lps, Local(b, lids))
  {
    var lps, lids := LocalPositions(ids, globals, |ids|), LocalIds(ids, globals, |ids|);
    LocalParts(ids, globals, |ids|);
    var x, y := Local(AtRank(b, globals, r), ids), Member(Fixed(ids, globals, r), lps, Local(b, lids));
    forall l: nat ensures Bit(x, l) == Bit(y, l) {
      IndexBit(b, ids, globals, r, lps, lids, l);
    }
    SameBits(x, y);
  }

  lemma IndexBit(b: set<nat>, ids: seq<nat>, globals: seq<nat>, r: nat, lps: seq<nat>, lids: seq<nat>, l: nat)
    requires Distinct(globals) && Increasing(lps) && |lids| == |lps|
    requires forall l :: l in lps <==> 0 <= l < |ids| && ids[l] !in globals
    requires forall i :: 0 <= i < |lps| ==> lps[i] < |ids| && lids[i] == ids[lps[i]]
    ensures Bit(Local(AtRank(b, globals, r), ids), l) == Bit(Member(Fixed(ids, globals, r), lps, Local(b, lids)), l)
  {
    LocalBits(AtRank(b, globals, r), ids, l);
    MemberBits(Fixed(ids, globals, r), lps, Local(b, lids), l);
    FixedBits(ids, globals, r, l);
    if l < |ids| {
      AtRankElements(b, globals, r, ids[l]);
    }
    if i: nat :| i < |lps| && lps[i] == l {
      LocalBits(b, lids, i);
    }
  }

  // On its own rank the restricted matrix acts as the whole one does, if that
  // is diagonal or has no global target.
  lemma RestrictedActs(m: Matrix, ids: seq<nat>, globals: seq<nat>, r: nat, psi: Wave, b: set<nat>)
    requires Distinct(globals) && Distinct(ids)
    requires IsDiagonal(m, Pow2(|ids|)) || forall l :: 0 <= l < |ids| ==> ids[l] !in globals
    ensures Apply(Restricted(m, ids, globals, r), LocalIds(ids, globals, |ids|), OnRank(psi, globals, r))(b)
            == Apply(m, ids, psi)(AtRank(b, globals, r))
  {
    LocalParts(ids, globals, |ids|);
    IndexAtRank(b, ids, globals, r);
    LocalIdsDistinct(ids, globals);
    if IsDiagonal(m, Pow2(|ids|)) {
      DiagonalActs(m, ids, globals, r, psi, b);
    } else {
      AllLocalActs(m, ids, globals, r, psi, b);
    }
  }

  lemma LocalIdsDistinct(ids: seq<nat>, globals: seq<nat>)
    requires Distinct(ids)
    ensures Distinct(LocalIds(ids, globals, |ids|)) && forall q :: q in LocalIds(ids, globals, |ids|) <==> q in ids && q !in globals
  {
    var lps, lids := LocalPositions(ids, globals, |ids|), LocalIds(ids, globals, |ids|);
    LocalParts(ids, globals, |ids|);
    forall i, j | 0 <= i < j < |lids| ensures lids[i] != lids[j] {
      assert lps[i] < lps[j];
    }
    forall q ensures q in lids <==> q in ids && q !in globals {
      if q in lids {
        var i :| 0 <= i < |lids| && lids[i] == q;
        assert lps[i] in lps;
      }
      if q in ids && q !in globals {
        var l :| 0 <= l < |ids| && ids[l] == q;
        assert l in lps;
        var i :| 0 <= i < |lps| && lps[i] == l;
        assert lids[i] == q;
      }
    }
  }

  // A diagonal matrix multiplies by one entry.
  lemma ApplyDiagonal(m: Matrix, idx: seq<nat>, psi: Wave, a: set<nat>)
    requires Distinct(idx) && forall j: nat :: j < Pow2(|idx|) && j != Local(a, idx) ==> Entry(m, Local(a, idx), j) == ZERO
    ensures Apply(m, idx, psi)(a) == Mul(Entry(m, Local(a, idx), Local(a, idx)), psi(a))
  {
    forall j: nat | j < Pow2(|idx|) && j != Local(a, idx) ensures Terms(m, idx, psi, a)(j) == ZERO {
      MulUnits(psi(With(a, idx, j)));
    }
    SumOfOne(Terms(m, idx, psi, a), Pow2(|idx|), Local(a, idx));
    WithLocal(a, idx);
  }

  lemma RestrictedEntry(m: Matrix, ids: seq<nat>, globals: seq<nat>, r: nat, c: nat, d: nat)
    requires c < Pow2(|LocalPositions(ids, globals, |ids|)|) && d < Pow2(|LocalPositions(ids, globals, |ids|)|)
    ensures var lps := LocalPositions(ids, globals, |ids|);
            Entry(Restricted(m, ids, globals, r), c, d)
            == Entry(m, Member(Fixed(ids, globals, r), lps, c), Member(Fixed(ids, globals, r), lps, d))
  {
  }

  lemma DiagonalActs(m: Matrix, ids: seq<nat>, globals: seq<nat>, r: nat, psi: Wave, b: set<nat>)
    requires Distinct(globals) && Distinct(ids) && IsDiagonal(m, Pow2(|ids|))
    ensures Apply(Restricted(m, ids, globals, r), LocalIds(ids, globals, |ids|), OnRank(psi, globals, r))(b)
            == Apply(m, ids, psi)(AtRank(b, globals, r))
  {
    var lps, lids, f := LocalPositions(ids, globals, |ids|), LocalIds(ids, globals, |ids|), Fixed(ids, globals, r);
    LocalParts(ids, globals, |ids|);
    LocalIdsDistinct(ids, globals);
    IndexAtRank(b, ids, globals, r);
    var c := Local(b, lids);
    forall d: nat | d < Pow2(|lids|) ensures d != c ==> Entry(Restricted(m, ids, globals, r), c, d) == ZERO {
      RestrictedEntry(m, ids, globals, r, c, d);
      MemberBound(f, lps, c, |ids|);
      MemberBound(f, lps, d, |ids|);
      GatherOfMember(f, lps, c);
      GatherOfMember(f, lps, d);
    }
    RestrictedEntry(m, ids, globals, r, c, c);
    ApplyDiagonal(Restricted(m, ids, globals, r), lids, OnRank(psi, globals, r), b);
    ApplyDiagonal(m, ids, psi, AtRank(b, globals, r));
  }

  lemma AllLocalActs(m: Matrix, ids: seq<nat>, globals: seq<nat>, r: nat, psi: Wave, b: set<nat>)
    requires Distinct(globals) && Distinct(ids) && forall l :: 0 <= l < |ids| ==> ids[l] !in globals
    ensures Apply(Restricted(m, ids, globals, r), LocalIds(ids, globals, |ids|), OnRank(psi, globals, r))(b)
            == Apply(m, ids, psi)(AtRank(b, globals, r))
  {
    AllPositions(ids, globals, |ids|);
    IndexAtRank(b, ids, globals, r);
    var f, g := Terms(Restricted(m, ids, globals, r), ids, OnRank(psi, globals, r), b), Terms(m, ids, psi, AtRank(b, globals, r));
    forall j: nat | j < Pow2(|ids|) ensures f(j) == g(j) {
      RestrictedEntry(m, ids, globals, r, Local(b, ids), j);
      MemberOfAll(ids, globals, r, j);
      SetAtRank(b, ids, globals, r, j);
    }
    SumSame(f, g, Pow2(|ids|));
  }

  lemma {:induction false} AllPositions(ids: seq<nat>, globals: seq<nat>, k: nat)
    requires k <= |ids| && forall l :: 0 <= l < |ids| ==> ids[l] !in globals
    ensures |LocalPositions(ids, globals, k)| == k && LocalIds(ids, globals, k) == ids[..k]
    ensures k == |ids| ==> LocalIds(ids, globals, k) == ids
  {
    if k > 0 {
      AllPositions(ids, globals, k - 1);
      assert ids[..k] == ids[..k - 1] + [ids[k - 1]];
    }
  }

  // Without global targets the rank fixes nothing.
  lemma MemberOfAll(ids: seq<nat>, globals: seq<nat>, r: nat, j: nat)
    requires Distinct(globals) && j < Pow2(|ids|) && forall l :: 0 <= l < |ids| ==> ids[l] !in globals
    ensures Member(Fixed(ids, globals, r), LocalPositions(ids, globals, |ids|), j) == j
  {
    LocalParts(ids, globals, |ids|);
    AllPositions(ids, globals, |ids|);
    forall l: nat ensures !Bit(Fixed(ids, globals, r), l) {
      FixedBits(ids, globals, r, l);
    }
    OwnIndex(Fixed(ids, globals, r), LocalPositions(ids, globals, |ids|), |ids|, j);
  }

  lemma OwnIndex(f: nat, lps: seq<nat>, n: nat, j: nat)
    requires Increasing(lps) && |lps| == n && (forall i :: 0 <= i < n ==> lps[i] < n) && j < Pow2(n)
    requires forall l: nat :: !Bit(f, l)
    ensures Member(f, lps, j) == j
  {
    forall l: nat ensures Bit(Member(f, lps, j), l) == Bit(j, l) {
      MemberBits(f, lps, j, l);
      if l >= n {
        HighBits(j, n, l);
      } else {
        AscendingBound(lps, l, n);
      }
    }
    SameBits(Member(f, lps, j), j);
  }

  // Ascending numbers below their count are their own positions.
  lemma AscendingBound(s: seq<nat>, i: nat, n: nat)
    requires Increasing(s) && |s| == n && i < n && forall k :: 0 <= k < n ==> s[k] < n
    ensures s[i] == i
  {
    AtLeastPlace(s, i);
    AtMostPlace(s, i, n);
  }

  lemma {:induction false} AtLeastPlace(s: seq<nat>, i: nat)
    requires Increasing(s) && i < |s|
    ensures s[i] >= i
  {
    if i > 0 {
      AtLeastPlace(s, i - 1);
      assert s[i - 1] < s[i];
    }
  }

  lemma {:induction false} AtMostPlace(s: seq<nat>, i: nat, n: nat)
    requires Increasing(s) && i < |s| == n && s[n - 1] < n
    ensures s[i] <= i
    decreases n - i
  {
    if i < n - 1 {
      AtMostPlace(s, i + 1, n);
      assert s[i] < s[i + 1];
    }
  }

  lemma SetAtRank(b: set<nat>, ids: seq<nat>, globals: seq<nat>, r: nat, j: nat)
    requires Distinct(globals) && Distinct(ids) && forall l :: 0 <= l < |ids| ==> ids[l] !in globals
    ensures AtRank(With(b, ids, j), globals, r) == With(AtRank(b, globals, r), ids, j)
  {
    forall q ensures q in AtRank(With(b, ids, j), globals, r) <==> q in With(AtRank(b, globals, r), ids, j) {
      AtRankElements(With(b, ids, j), globals, r, q);
      AtRankElements(b, globals, r, q);
      WithElements(b, ids, j, q);
      WithElements(AtRank(b, globals, r), ids, j, q);
    }
  }

  // ----- a rank's part of a gate -------------------------------------------

  predicate GlobalControlsOk(ctrls: seq<nat>, globals: seq<nat>, r: nat) {
    forall i :: 0 <= i < |ctrls| ==> ctrls[i] in globals ==> Bit(r, Find(globals, ctrls[i]))
  }

  ghost function LocalControls(ctrls: seq<nat>, globals: seq<nat>): set<nat> {
    set c | c in ctrls && c !in globals
  }

  // What a rank does to its part of the state for a gate.
  ghost function RankGate(m: Matrix, ids: seq<nat>, ctrls: seq<nat>, globals: seq<nat>, r: nat, psi: Wave): Wave {
    if GlobalControlsOk(ctrls, globals, r)
    then Gate(Restricted(m, ids, globals, r), LocalIds(ids, globals, |ids|), LocalControls(ctrls, globals), psi)
    else psi
  }

  // The sets of qubits that rank r has amplitudes for.
  ghost predicate OfRank(b: set<nat>, globals: seq<nat>, r: nat) {
    AtRank(b, globals, r) == b
  }

  // From psi to psi' the rank has done its part of the gate.
  ghost predicate Does(psi: Wave, psi': Wave, m: Matrix, ids: seq<nat>, ctrls: seq<nat>, globals: seq<nat>, r: nat) {
    forall b: set<nat> :: OfRank(b, globals, r) ==> psi'(b) == RankGate(m, ids, ctrls, globals, r, psi)(b)
  }

  ghost predicate SameOnRank(psi: Wave, psi': Wave, globals: seq<nat>, r: nat) {
    forall b: set<nat> :: OfRank(b, globals, r) ==> psi'(b) == psi(b)
  }

  ghost predicate RankHolds(ctrls: set<nat>, globals: seq<nat>, r: nat) {
    forall g :: 0 <= g < |globals| && globals[g] in ctrls ==> Bit(r, g)
  }

  // Common controls that are global hold on this rank, and no factor is kept
  // under a local one.
  ghost predicate RankOk(f: Fused, globals: seq<nat>, r: nat) {
    && FusedOk(f) && RankHolds(f.ctrls, globals, r)
    && (f.ctrls <= Elements(globals) || f.factor == ONE)
  }

  ghost predicate RankInserted(f: Fused, f': Fused, m: Matrix, ids: seq<nat>, ctrls: seq<nat>, globals: seq<nat>, r: nat) {
    forall psi: Wave :: Does(Denote(f, psi), Denote(f', psi), m, ids, ctrls, globals, r)
  }

  const EMPTY := Fused([], {}, {}, ONE)

  // Targets and local controls together are more than a cluster may have.
  ghost predicate Huge(ids: seq<nat>, ctrls: seq<nat>, globals: seq<nat>, maxClusterSize: nat) {
    |ids| + |LocalControls(ctrls, globals)| > maxClusterSize
  }

  // When inserting the gate keeps its meaning: a 1x1 matrix goes into the
  // factor without its controls, and under the common ones.
  ghost predicate Faithful(f: Fused, m: Matrix, ids: seq<nat>, ctrls: seq<nat>, globals: seq<nat>, r: nat, huge: bool) {
    !GlobalControlsOk(ctrls, globals, r)
    || if huge then ids != [] || Entry(m, 0, 0) == ONE
       else !IsScalar(ids, ctrls, globals) || Entry(Restricted(m, ids, globals, r), 0, 0) == ONE
            || f.ctrls <= Elements(globals)
  }

  ghost predicate IsScalar(ids: seq<nat>, ctrls: seq<nat>, globals: seq<nat>) {
    LocalIds(ids, globals, |ids|) == [] && LocalControls(ctrls, globals) == {}
  }

  ghost predicate HasGlobal(ids: seq<nat>, globals: seq<nat>) {
    exists l :: 0 <= l < |ids| && ids[l] in globals
  }

  // The rows and columns that agree with the rank.
  method RestrictMatrix(m: Matrix, ids: seq<nat>, globals: seq<nat>, r: nat) returns (restricted: Matrix)
    requires IsMatrix(m, |ids|) && Distinct(globals)
    ensures restricted == Restricted(m, ids, globals, r)
  {
    ghost var all := OkIndices(|m|, ids, globals, r);
    OkIndicesInRange(|m|, ids, globals, r);
    restricted := [];
    for i := 0 to |m|
      invariant RowsUpTo(m, ids, globals, r, all, restricted, i)
    {
      if OkBit(i, ids, globals, r) {
        var row := RestrictRow(m, ids, globals, r, i);
        NextRestrictedRow(m, ids, globals, r, all, restricted, i, row);
        restricted := restricted + [row];
      }
    }
    RowsAreRestricted(m, ids, globals, r, all, restricted);
  }

  // The rows of the first i indices that agree.
  ghost predicate RowsUpTo(m: Matrix, ids: seq<nat>, globals: seq<nat>, r: nat, all: seq<nat>, restricted: Matrix, i: nat) {
    var rows := OkIndices(i, ids, globals, r);
    |restricted| == |rows| && forall c :: 0 <= c < |rows| ==> RowOf(m, all, rows[c], restricted[c])
  }

  ghost predicate RowOf(m: Matrix, all: seq<nat>, i: nat, row: seq<Complex>) {
    |row| == |all| && forall d :: 0 <= d < |all| ==> row[d] == Entry(m, i, all[d])
  }

  method RestrictRow(m: Matrix, ids: seq<nat>, globals: seq<nat>, r: nat, i: nat) returns (row: seq<Complex>)
    requires IsMatrix(m, |ids|) && i < |m|
    ensures RowOf(m, OkIndices(|m|, ids, globals, r), i, row)
  {
    row := [];
    for j := 0 to |m|
      invariant RowOf(m, OkIndices(j, ids, globals, r), i, row)
    {
      if OkBit(j, ids, globals, r) {
        row := row + [m[i][j]];
      }
    }
  }

  lemma NextRestrictedRow(m: Matrix, ids: seq<nat>, globals: seq<nat>, r: nat, all: seq<nat>, restricted: Matrix, i: nat, row: seq<Complex>)
    requires RowsUpTo(m, ids, globals, r, all, restricted, i) && OkBit(i, ids, globals, r) && RowOf(m, all, i, row)
    ensures RowsUpTo(m, ids, globals, r, all, restricted + [row], i + 1)
  {
  }

  lemma {:induction false} OkIndicesInRange(n: nat, ids: seq<nat>, globals: seq<nat>, r: nat)
    ensures forall c :: 0 <= c < |OkIndices(n, ids, globals, r)| ==> OkIndices(n, ids, globals, r)[c] < n
  {
    if n > 0 {
      OkIndicesInRange(n - 1, ids, globals, r);
    }
  }

  lemma RowsAreRestricted(m: Matrix, ids: seq<nat>, globals: seq<nat>, r: nat, all: seq<nat>, restricted: Matrix)
    requires IsMatrix(m, |ids|) && Distinct(globals) && all == OkIndices(|m|, ids, globals, r)
    requires RowsUpTo(m, ids, globals, r, all, restricted, |m|)
    ensures restricted == Restricted(m, ids, globals, r)
  {
    OkIndicesAre(ids, globals, r);
    var lps := LocalPositions(ids, globals, |ids|);
    forall c | 0 <= c < |all| ensures restricted[c] == Restricted(m, ids, globals, r)[c] {
      assert RowOf(m, all, all[c], restricted[c]);
    }
  }

  // ExtractLocalCtrls
  method ExtractLocalCtrls(ctrls: seq<nat>, locals: seq<nat>, ghost globals: seq<nat>) returns (local: seq<nat>)
    requires Distinct(ctrls) && forall c :: c in ctrls ==> (c in locals <==> c !in globals)
    ensures Distinct(local) && Elements(local) == LocalControls(ctrls, globals)
  {
    local := [];
    for i := 0 to |ctrls|
      invariant Distinct(local) && forall c :: c in local <==> c in ctrls[..i] && c !in globals
    {
      assert ctrls[..i + 1] == ctrls[..i] + [ctrls[i]];
      assert ctrls[i] !in ctrls[..i];
      if ctrls[i] in locals {
        local := local + [ctrls[i]];
      }
    }
    assert ctrls[..|ctrls|] == ctrls;
  }

  lemma OneRow(mat: Matrix, idx: seq<nat>)
    requires IsMatrix(mat, |idx|)
    ensures |mat| == 1 <==> idx == []
  {
    if idx != [] {
      Pow2Grows(0, |idx|);
    }
  }

  // ----- states of a rank -------------------------------------------------

  lemma OfRankWith(b: set<nat>, ids: seq<nat>, globals: seq<nat>, r: nat, j: nat)
    requires OfRank(b, globals, r) && Distinct(globals) && Distinct(ids) && forall l :: 0 <= l < |ids| ==> ids[l] !in globals
    ensures OfRank(With(b, ids, j), globals, r)
  {
    SetAtRank(b, ids, globals, r, j);
  }

  // Controls that hold on the rank hold in all its states.
  lemma HeldAt(ctrls: set<nat>, globals: seq<nat>, r: nat, b: set<nat>)
    requires Distinct(globals) && RankHolds(ctrls, globals, r) && OfRank(b, globals, r)
    ensures ctrls * Elements(globals) <= b
  {
    forall q | q in ctrls && q in globals ensures q in b {
      AtRankElements(b, globals, r, q);
      assert globals[Find(globals, q)] == q;
    }
  }

  lemma OwnSet(globals: seq<nat>, r: nat)
    ensures OfRank(RankSet(r, globals), globals, r)
    ensures RankSet(r, globals) <= Elements(globals)
  {
    assert AtRank(RankSet(r, globals), globals, r) == RankSet(r, globals);
  }

  lemma LocalIdsAreLocal(ids: seq<nat>, globals: seq<nat>)
    requires Distinct(ids)
    ensures var lids := LocalIds(ids, globals, |ids|); Distinct(lids) && forall l :: 0 <= l < |lids| ==> lids[l] !in globals
  {
    LocalIdsDistinct(ids, globals);
    var lids := LocalIds(ids, globals, |ids|);
    forall l | 0 <= l < |lids| ensures lids[l] !in globals {
      assert lids[l] in lids;
    }
  }

  lemma RankGateSame(m: Matrix, ids: seq<nat>, ctrls: seq<nat>, globals: seq<nat>, r: nat, psi: Wave, psi': Wave, b: set<nat>)
    requires Distinct(globals) && Distinct(ids) && SameOnRank(psi, psi', globals, r) && OfRank(b, globals, r)
    ensures RankGate(m, ids, ctrls, globals, r, psi)(b) == RankGate(m, ids, ctrls, globals, r, psi')(b)
  {
    var rm, lids := Restricted(m, ids, globals, r), LocalIds(ids, globals, |ids|);
    LocalIdsAreLocal(ids, globals);
    forall j: nat | j < Pow2(|lids|) ensures psi(With(b, lids, j)) == psi'(With(b, lids, j)) {
      OfRankWith(b, lids, globals, r, j);
    }
    ApplySame(rm, lids, psi, psi', b);
  }

  // On the states of a rank the whole gate and the rank's part of it agree.
  lemma WholeIsRestricted(m: Matrix, ids: seq<nat>, ctrls: seq<nat>, globals: seq<nat>, r: nat, psi: Wave, b: set<nat>)
    requires Distinct(globals) && Distinct(ids) && r < Pow2(|globals|) && OfRank(b, globals, r)
    requires IsDiagonal(m, Pow2(|ids|)) || !HasGlobal(ids, globals)
    ensures Gate(m, ids, Elements(ctrls), psi)(b) == RankGate(m, ids, ctrls, globals, r, psi)(b)
  {
    RankOfAtRank(b, globals, r);
    ControlsAtRank(ctrls, globals, b);
    if Elements(ctrls) <= b {
      var rm, lids := Restricted(m, ids, globals, r), LocalIds(ids, globals, |ids|);
      LocalIdsAreLocal(ids, globals);
      forall j: nat | j < Pow2(|lids|) ensures psi(With(b, lids, j)) == OnRank(psi, globals, r)(With(b, lids, j)) {
        OfRankWith(b, lids, globals, r, j);
      }
      ApplySame(rm, lids, psi, OnRank(psi, globals, r), b);
      RestrictedActs(m, ids, globals, r, psi, b);
    }
  }

  // ----- inserting at a rank ----------------------------------------------

  // A matrix without controls, while there may be common ones.
  lemma InsertWithoutControls(f: Fused, f': Fused, mat: Matrix, idx: seq<nat>, globals: seq<nat>, r: nat,
                              gained: seq<nat>, dropped: seq<nat>, psi: Wave, b: set<nat>)
    requires RankOk(f, globals, r) && Distinct(globals) && GateOk(mat, idx, {})
    requires Inserted(f, f', mat, idx, {}, gained, dropped)
    requires OfRank(b, globals, r) && forall l :: 0 <= l < |idx| ==> idx[l] !in globals
    ensures f'.ctrls == {} && Denote(f', psi)(b) == Apply(mat, idx, Denote(f, psi))(b)
  {
    EmptyElements(gained);
    InsertedIs(f, f', mat, idx, {}, gained, dropped, psi, b);
    if f.factor == ONE || f.ctrls <= {} {
      GateInside(f, dropped, mat, idx, {}, psi, b);
    } else {
      GlobalInside(f, dropped, mat, idx, globals, r, psi, b);
    }
  }

  lemma GlobalInside(f: Fused, dropped: seq<nat>, mat: Matrix, idx: seq<nat>, globals: seq<nat>, r: nat, psi: Wave, b: set<nat>)
    requires RankOk(f, globals, r) && f.ctrls <= Elements(globals) && Distinct(globals) && Distinct(idx)
    requires Distinct(dropped) && Elements(dropped) == f.ctrls
    requires OfRank(b, globals, r) && forall l :: 0 <= l < |idx| ==> idx[l] !in globals
    ensures Apply(mat, idx, Denote(f, psi))(b) == Mul(f.factor, Apply(mat, idx, Inner(f, dropped, psi))(b))
  {
    var inner := Inner(f, dropped, psi);
    forall j: nat | j < Pow2(|idx|) ensures Denote(f, psi)(With(b, idx, j)) == Scaled(f.factor, inner)(With(b, idx, j)) {
      OfRankWith(b, idx, globals, r, j);
      HeldAt(f.ctrls, globals, r, With(b, idx, j));
      InnerIs(f, dropped, {}, psi, With(b, idx, j));
    }
    ApplySame(mat, idx, Denote(f, psi), Scaled(f.factor, inner), b);
    ApplyScaled(mat, idx, f.factor, inner, b);
  }

  lemma RestrictedInserted(f: Fused, f': Fused, m: Matrix, ids: seq<nat>, ctrls: seq<nat>, globals: seq<nat>, r: nat,
                           localCtrls: seq<nat>, idx: seq<nat>, gained: seq<nat>, dropped: seq<nat>)
    requires RankOk(f, globals, r) && FusedOk(f')
    requires Distinct(globals) && Distinct(ids) && GlobalControlsOk(ctrls, globals, r)
    requires idx == LocalIds(ids, globals, |ids|) + localCtrls && Distinct(idx) && Elements(localCtrls) == LocalControls(ctrls, globals)
    requires var mat := Added(Restricted(m, ids, globals, r), |LocalIds(ids, globals, |ids|)|, |localCtrls|);
             GateOk(mat, idx, {}) && Inserted(f, f', mat, idx, {}, gained, dropped)
    ensures RankOk(f', globals, r) && RankInserted(f, f', m, ids, ctrls, globals, r)
  {
    var lids, rm := LocalIds(ids, globals, |ids|), Restricted(m, ids, globals, r);
    var mat := Added(rm, |lids|, |localCtrls|);
    NoneGlobal(ids, ctrls, globals, localCtrls, idx);
    forall psi: Wave, b: set<nat> | OfRank(b, globals, r)
      ensures f'.ctrls == {} && Denote(f', psi)(b) == RankGate(m, ids, ctrls, globals, r, Denote(f, psi))(b)
    {
      InsertWithoutControls(f, f', mat, idx, globals, r, gained, dropped, psi, b);
      AddedControlsControl(rm, lids, localCtrls, Denote(f, psi), b);
    }
    assert f'.ctrls == {};
  }

  lemma NoneGlobal(ids: seq<nat>, ctrls: seq<nat>, globals: seq<nat>, localCtrls: seq<nat>, idx: seq<nat>)
    requires Distinct(ids) && Elements(localCtrls) == LocalControls(ctrls, globals)
    requires idx == LocalIds(ids, globals, |ids|) + localCtrls
    ensures forall l :: 0 <= l < |idx| ==> idx[l] !in globals
  {
    LocalIdsAreLocal(ids, globals);
    forall q | q in localCtrls ensures q !in globals {
      assert q in Elements(localCtrls);
    }
  }

  // A 1x1 matrix is inserted right exactly when it is 1 or no local control is
  // pending.
  lemma ScalarExactIff(f: Fused, m: Matrix, ids: seq<nat>, ctrls: seq<nat>, globals: seq<nat>, r: nat)
    requires RankOk(f, globals, r) && Distinct(globals) && Distinct(ids) && IsScalar(ids, ctrls, globals)
    requires GlobalControlsOk(ctrls, globals, r)
    ensures var c := Entry(Restricted(m, ids, globals, r), 0, 0);
            RankInserted(f, f.(factor := Mul(f.factor, c)), m, ids, ctrls, globals, r)
            <==> c == ONE || f.ctrls <= Elements(globals)
  {
    var c := Entry(Restricted(m, ids, globals, r), 0, 0);
    var f' := f.(factor := Mul(f.factor, c));
    if c == ONE || f.ctrls <= Elements(globals) {
      forall psi: Wave, b: set<nat> | OfRank(b, globals, r)
        ensures Denote(f', psi)(b) == RankGate(m, ids, ctrls, globals, r, Denote(f, psi))(b)
      {
        HeldAt(f.ctrls, globals, r, b);
        ScalarAt(f, m, ids, ctrls, globals, r, c, psi, b);
      }
    } else {
      var psi: Wave, b := (a: set<nat>) => ONE, RankSet(r, globals);
      OwnSet(globals, r);
      ScalarAt(f, m, ids, ctrls, globals, r, c, psi, b);
      assert !Does(Denote(f, psi), Denote(f', psi), m, ids, ctrls, globals, r);
    }
  }

  lemma ScalarAt(f: Fused, m: Matrix, ids: seq<nat>, ctrls: seq<nat>, globals: seq<nat>, r: nat, c: Complex, psi: Wave, b: set<nat>)
    requires Distinct(ids) && IsScalar(ids, ctrls, globals) && GlobalControlsOk(ctrls, globals, r)
    requires c == Entry(Restricted(m, ids, globals, r), 0, 0)
    ensures RankGate(m, ids, ctrls, globals, r, Denote(f, psi))(b) == Mul(c, Denote(f, psi)(b))
    ensures Denote(f.(factor := Mul(f.factor, c)), psi)(b) == if f.ctrls <= b then Mul(c, Denote(f, psi)(b)) else psi(b)
    ensures !(f.ctrls <= b) ==> Denote(f, psi)(b) == psi(b) && (psi(b) == ONE ==> Mul(c, psi(b)) == c)
    ensures c == ONE ==> Mul(c, Denote(f, psi)(b)) == Denote(f, psi)(b)
  {
    LocalParts(ids, globals, |ids|);
    ApplyScalar(Restricted(m, ids, globals, r), Denote(f, psi), b);
    ScaledFactor(f, c, psi, b);
    MulUnits(c);
    MulUnits(Denote(f, psi)(b));
  }

  // ----- huge gates -------------------------------------------------------

  // A huge gate is inserted whole, its global qubits and controls included.
  lemma HugeInserted(f': Fused, m: Matrix, ids: seq<nat>, ctrls: seq<nat>, globals: seq<nat>, r: nat,
                     gained: seq<nat>, dropped: seq<nat>)
    requires Distinct(globals) && Distinct(ids) && r < Pow2(|globals|) && GlobalControlsOk(ctrls, globals, r)
    requires IsDiagonal(m, Pow2(|ids|)) || !HasGlobal(ids, globals)
    requires GateOk(m, ids, Elements(ctrls)) && Inserted(EMPTY, f', m, ids, Elements(ctrls), gained, dropped) && FusedOk(f')
    ensures RankInserted(EMPTY, f', m, ids, ctrls, globals, r) && RankOk(f', globals, r)
  {
    InsertKeepsMeaning(EMPTY, f', m, ids, Elements(ctrls), gained, dropped);
    forall psi: Wave, b: set<nat> | OfRank(b, globals, r)
      ensures Denote(f', psi)(b) == RankGate(m, ids, ctrls, globals, r, Denote(EMPTY, psi))(b)
    {
      WholeIsRestricted(m, ids, ctrls, globals, r, Denote(EMPTY, psi), b);
    }
    forall g | 0 <= g < |globals| && globals[g] in Elements(ctrls) ensures Bit(r, g) {
      var i :| 0 <= i < |ctrls| && ctrls[i] == globals[g];
      assert globals[Find(globals, ctrls[i])] == globals[g];
    }
  }

  // A huge 1x1 matrix has only local controls, and they are lost.
  lemma HugeScalarExactIff(f: Fused, m: Matrix, ids: seq<nat>, ctrls: seq<nat>, globals: seq<nat>, r: nat)
    requires f == EMPTY && Distinct(globals) && IsMatrix(m, 0) && |ids| == 0
    requires GlobalControlsOk(ctrls, globals, r) && LocalControls(ctrls, globals) != {}
    ensures RankInserted(f, f.(factor := m[0][0]), m, ids, ctrls, globals, r) <==> m[0][0] == ONE
  {
    var f' := f.(factor := m[0][0]);
    if m[0][0] == ONE {
      HugeScalarKept(f, f', m, ids, ctrls, globals, r);
    } else {
      HugeScalarLost(f, f', m, ids, ctrls, globals, r);
    }
  }

  lemma HugeScalarKept(f: Fused, f': Fused, m: Matrix, ids: seq<nat>, ctrls: seq<nat>, globals: seq<nat>, r: nat)
    requires f == EMPTY && IsMatrix(m, 0) && |ids| == 0 && GlobalControlsOk(ctrls, globals, r)
    requires m[0][0] == ONE && f' == f.(factor := m[0][0])
    ensures RankInserted(f, f', m, ids, ctrls, globals, r)
  {
    forall psi: Wave, b: set<nat> | OfRank(b, globals, r)
      ensures Denote(f', psi)(b) == RankGate(m, ids, ctrls, globals, r, Denote(f, psi))(b)
    {
      HugeScalarAt(f, f', m, ids, ctrls, globals, r, psi, b);
    }
  }

  lemma HugeScalarLost(f: Fused, f': Fused, m: Matrix, ids: seq<nat>, ctrls: seq<nat>, globals: seq<nat>, r: nat)
    requires f == EMPTY && Distinct(globals) && IsMatrix(m, 0) && |ids| == 0
    requires GlobalControlsOk(ctrls, globals, r) && LocalControls(ctrls, globals) != {}
    requires m[0][0] != ONE && f' == f.(factor := m[0][0])
    ensures !RankInserted(f, f', m, ids, ctrls, globals, r)
  {
    var psi: Wave, b := (a: set<nat>) => ONE, RankSet(r, globals);
    OwnSet(globals, r);
    var q :| q in LocalControls(ctrls, globals);
    assert q !in b;
    HugeScalarAt(f, f', m, ids, ctrls, globals, r, psi, b);
    assert !Does(Denote(f, psi), Denote(f', psi), m, ids, ctrls, globals, r);
  }

  lemma HugeScalarAt(f: Fused, f': Fused, m: Matrix, ids: seq<nat>, ctrls: seq<nat>, globals: seq<nat>, r: nat, psi: Wave, b: set<nat>)
    requires f == EMPTY && IsMatrix(m, 0) && |ids| == 0 && GlobalControlsOk(ctrls, globals, r) && f' == f.(factor := m[0][0])
    ensures m[0][0] == ONE ==> Denote(f', psi)(b) == RankGate(m, ids, ctrls, globals, r, Denote(f, psi))(b)
    ensures psi(b) == ONE && !(LocalControls(ctrls, globals) <= b)
            ==> Denote(f', psi)(b) == m[0][0] && RankGate(m, ids, ctrls, globals, r, Denote(f, psi))(b) == ONE
  {
    RankScalar(m, ids, ctrls, globals, r, Denote(f, psi), b);
    EmptyHolds(psi);
    EmptyScaled(m[0][0], psi, b);
    MulUnits(m[0][0]);
    MulUnits(psi(b));
  }

  lemma EmptyScaled(c: Complex, psi: Wave, b: set<nat>)
    ensures Denote(EMPTY.(factor := c), psi)(b) == Mul(c, psi(b))
  {
  }

  lemma RankScalar(m: Matrix, ids: seq<nat>, ctrls: seq<nat>, globals: seq<nat>, r: nat, psi: Wave, b: set<nat>)
    requires IsMatrix(m, 0) && |ids| == 0 && GlobalControlsOk(ctrls, globals, r)
    ensures RankGate(m, ids, ctrls, globals, r, psi)(b)
            == if LocalControls(ctrls, globals) <= b then Mul(m[0][0], psi(b)) else psi(b)
  {
    WholeScalar(m, ids, globals, r);
    LocalParts(ids, globals, |ids|);
    assert LocalIds(ids, globals, |ids|) == [];
    ApplyScalar(Restricted(m, ids, globals, r), psi, b);
  }

  lemma WholeScalar(m: Matrix, ids: seq<nat>, globals: seq<nat>, r: nat)
    requires IsMatrix(m, 0) && |ids| == 0
    ensures IsMatrix(Restricted(m, ids, globals, r), 0) && Restricted(m, ids, globals, r)[0][0] == m[0][0]
  {
    LocalParts(ids, globals, |ids|);
    var lps := LocalPositions(ids, globals, |ids|);
    assert lps == [];
    MemberBound(Fixed(ids, globals, r), lps, 0, |ids|);
    RestrictedEntry(m, ids, globals, r, 0, 0);
  }

  lemma HugeEffect(f': Fused, m: Matrix, ids: seq<nat>, ctrls: seq<nat>, globals: seq<nat>, r: nat,
                   gained: seq<nat>, dropped: seq<nat>, before: Wave, psi: Wave)
    requires Distinct(globals) && Distinct(ids) && r < Pow2(|globals|) && GlobalControlsOk(ctrls, globals, r)
    requires IsDiagonal(m, Pow2(|ids|)) || !HasGlobal(ids, globals)
    requires GateOk(m, ids, Elements(ctrls)) && FusedOk(f') && SameOnRank(before, psi, globals, r)
    requires if ids == [] then f' == EMPTY.(factor := Mul(ONE, m[0][0])) && LocalControls(ctrls, globals) != {}
             else Inserted(EMPTY, f', m, ids, Elements(ctrls), gained, dropped)
    ensures ids != [] || m[0][0] == ONE ==> RankOk(f', globals, r) && Does(before, Denote(f', psi), m, ids, ctrls, globals, r)
    ensures ids == [] ==> f' == EMPTY.(factor := m[0][0])
    ensures f'.ctrls <= Elements(ctrls)
  {
    if ids == [] {
      MulUnits(m[0][0]);
      HugeScalarExactIff(EMPTY, m, ids, ctrls, globals, r);
    } else {
      HugeInserted(f', m, ids, ctrls, globals, r, gained, dropped);
    }
    if ids != [] || m[0][0] == ONE {
      EmptyHolds(psi);
      assert Does(Denote(EMPTY, psi), Denote(f', psi), m, ids, ctrls, globals, r);
      DoesFrom(before, Denote(EMPTY, psi), Denote(f', psi), m, ids, ctrls, globals, r);
    }
  }

  lemma RestrictedEffect(f: Fused, f': Fused, m: Matrix, ids: seq<nat>, ctrls: seq<nat>, globals: seq<nat>, r: nat,
                         localCtrls: seq<nat>, mat: Matrix, idx: seq<nat>, gained: seq<nat>, dropped: seq<nat>, psi: Wave)
    requires RankOk(f, globals, r) && FusedOk(f')
    requires Distinct(globals) && Distinct(ids) && GlobalControlsOk(ctrls, globals, r)
    requires idx == LocalIds(ids, globals, |ids|) + localCtrls && Distinct(idx) && Elements(localCtrls) == LocalControls(ctrls, globals)
    requires mat == Added(Restricted(m, ids, globals, r), |LocalIds(ids, globals, |ids|)|, |localCtrls|)
    requires IsMatrix(mat, |idx|)
    requires if idx == [] then f' == f.(factor := Mul(f.factor, mat[0][0])) else Inserted(f, f', mat, idx, {}, gained, dropped)
    ensures Faithful(f, m, ids, ctrls, globals, r, false)
            ==> RankOk(f', globals, r) && Does(Denote(f, psi), Denote(f', psi), m, ids, ctrls, globals, r)
    ensures IsScalar(ids, ctrls, globals) ==> f' == f.(factor := Mul(f.factor, Entry(Restricted(m, ids, globals, r), 0, 0)))
    ensures f'.ctrls <= f.ctrls
  {
    ScalarMatrix(m, ids, ctrls, globals, r, localCtrls);
    if idx == [] {
      ScalarEffect(f, m, ids, ctrls, globals, r, psi);
    } else {
      RestrictedInserted(f, f', m, ids, ctrls, globals, r, localCtrls, idx, gained, dropped);
      assert Does(Denote(f, psi), Denote(f', psi), m, ids, ctrls, globals, r);
    }
  }

  lemma ScalarEffect(f: Fused, m: Matrix, ids: seq<nat>, ctrls: seq<nat>, globals: seq<nat>, r: nat, psi: Wave)
    requires RankOk(f, globals, r) && Distinct(globals) && Distinct(ids) && IsScalar(ids, ctrls, globals)
    requires GlobalControlsOk(ctrls, globals, r)
    ensures var f' := f.(factor := Mul(f.factor, Entry(Restricted(m, ids, globals, r), 0, 0)));
            Faithful(f, m, ids, ctrls, globals, r, false)
            ==> RankOk(f', globals, r) && Does(Denote(f, psi), Denote(f', psi), m, ids, ctrls, globals, r)
  {
    var c := Entry(Restricted(m, ids, globals, r), 0, 0);
    var f' := f.(factor := Mul(f.factor, c));
    if Faithful(f, m, ids, ctrls, globals, r, false) {
      ScalarExactIff(f, m, ids, ctrls, globals, r);
      ScalarKeepsOk(f, c, globals, r);
      assert RankInserted(f, f', m, ids, ctrls, globals, r);
    }
  }

  lemma ScalarKeepsOk(f: Fused, c: Complex, globals: seq<nat>, r: nat)
    requires RankOk(f, globals, r) && (c == ONE || f.ctrls <= Elements(globals))
    ensures RankOk(f.(factor := Mul(f.factor, c)), globals, r)
  {
    MulUnits(f.factor);
  }

  // ----- one rank ---------------------------------------------------------

  class RankSimulator {
    const rank: nat
    const locals: seq<nat>
    const globals: seq<nat>
    const vec: array<Complex>
    const maxClusterSize: nat
    var fused: Fusion

    ghost predicate Valid()
      reads this, fused
    {
      && Distinct(locals) && Distinct(globals) && Elements(locals) !! Elements(globals)
      && rank < Pow2(|globals|) && vec.Length == Pow2(|locals|)
      && RankOk(fused.Value(), globals, rank) && fused.ctrlSet <= Elements(locals) + Elements(globals)
    }

    // The state this rank stands for: its array, with the collected gates applied.
    ghost function Held(): Wave
      reads this, fused, vec
    {
      Denote(fused.Value(), WaveOf(vec[..], locals))
    }

    // Whether multiplying out and applying the collected gates is possible.
    ghost predicate Runs(f: Fused) {
      f.qubits <= Elements(locals) && |f.qubits| <= 5
    }

    constructor (rank: nat, locals: seq<nat>, globals: seq<nat>, vec: array<Complex>, maxClusterSize: nat)
      requires Distinct(locals) && Distinct(globals) && Elements(locals) !! Elements(globals)
      requires rank < Pow2(|globals|) && vec.Length == Pow2(|locals|)
      ensures this.rank == rank && this.locals == locals && this.globals == globals && this.vec == vec
      ensures this.maxClusterSize == maxClusterSize
      ensures Valid() && fresh(fused) && fused.Value() == EMPTY
    {
      this.rank, this.locals, this.globals, this.vec, this.maxClusterSize := rank, locals, globals, vec, maxClusterSize;
      fused := new Fusion();
    }

    ghost predicate Known(ids: seq<nat>) {
      forall q :: q in ids ==> q in locals || q in globals
    }

    // ApplyGate; !ok is an exception.
    method ApplyGate(m: Matrix, ids: seq<nat>, ctrls: seq<nat>) returns (ok: bool)
      requires Valid() && Distinct(ids) && Distinct(ctrls) && Known(ctrls)
      requires IsMatrix(m, |ids|) && forall q :: q in ids ==> q !in ctrls
      modifies this`fused, fused, vec
      ensures fused == old(fused) || fresh(fused)
      ensures var huge := Huge(ids, ctrls, globals, maxClusterSize);
              ok <==> && (huge ==> Runs(old(fused.Value())))
                      && (GlobalControlsOk(ctrls, globals, rank) ==> !HasGlobal(ids, globals) || IsDiagonal(m, Pow2(|ids|)))
      // the rank does its part of the gate ...
      ensures ok && Faithful(old(fused.Value()), m, ids, ctrls, globals, rank, Huge(ids, ctrls, globals, maxClusterSize))
              ==> Valid() && Does(old(Held()), Held(), m, ids, ctrls, globals, rank)
      // ... or scales what is pending
      ensures ok && !Faithful(old(fused.Value()), m, ids, ctrls, globals, rank, Huge(ids, ctrls, globals, maxClusterSize))
              ==> if Huge(ids, ctrls, globals, maxClusterSize) then fused.Value() == EMPTY.(factor := Entry(m, 0, 0))
                  else fused.Value() == old(fused.Value()).(factor := Mul(old(fused.factor), Entry(Restricted(m, ids, globals, rank), 0, 0)))
      ensures !ok && (Huge(ids, ctrls, globals, maxClusterSize) ==> Runs(old(fused.Value())))
              ==> Valid() && SameOnRank(old(Held()), Held(), globals, rank)
    {
      var diag := IsDiag(m, |m|, |m|);
      KnownLocal(ctrls);
      var localCtrls := ExtractLocalCtrls(ctrls, locals, globals);
      CountElements(localCtrls);
      var huge := |ids| + |localCtrls| > maxClusterSize;
      if huge {
        ok := Run();
        if !ok {
          return;
        }
      }
      if !GlobalControlsOk(ctrls, globals, rank) {
        return true;
      }
      if (exists l :: 0 <= l < |ids| && ids[l] in globals) && !diag {
        return false;
      }
      ok := true;
      if huge {
        InsertHuge(m, ids, ctrls, old(Held()));
      } else {
        InsertRestricted(m, ids, ctrls, localCtrls);
      }
    }

    lemma KnownLocal(ctrls: seq<nat>)
      requires Valid() && Known(ctrls)
      ensures forall c :: c in ctrls ==> (c in locals <==> c !in globals)
    {
      forall c | c in ctrls ensures c in locals <==> c !in globals {
        assert c in locals <==> c in Elements(locals);
        assert c in globals <==> c in Elements(globals);
      }
    }

    method InsertHuge(m: Matrix, ids: seq<nat>, ctrls: seq<nat>, ghost before: Wave)
      requires Valid() && fused.Value() == EMPTY && SameOnRank(before, WaveOf(vec[..], locals), globals, rank)
      requires Distinct(ids) && Distinct(ctrls) && Known(ctrls) && IsMatrix(m, |ids|) && forall q :: q in ids ==> q !in ctrls
      requires GlobalControlsOk(ctrls, globals, rank) && (IsDiagonal(m, Pow2(|ids|)) || !HasGlobal(ids, globals))
      requires Huge(ids, ctrls, globals, maxClusterSize)
      modifies fused
      ensures ids != [] || Entry(m, 0, 0) == ONE ==> Valid() && Does(before, Held(), m, ids, ctrls, globals, rank)
      ensures ids == [] ==> fused.Value() == EMPTY.(factor := Entry(m, 0, 0))
    {
      ghost var gained, dropped;
      gained, dropped := fused.Insert(m, ids, ctrls);
      OneRow(m, ids);
      HugeEffect(fused.Value(), m, ids, ctrls, globals, rank, gained, dropped, before, WaveOf(vec[..], locals));
    }

    method InsertRestricted(m: Matrix, ids: seq<nat>, ctrls: seq<nat>, localCtrls: seq<nat>)
      requires Valid() && Distinct(ids) && IsMatrix(m, |ids|) && forall q :: q in ids ==> q !in ctrls
      requires Distinct(localCtrls) && Elements(localCtrls) == LocalControls(ctrls, globals)
      requires GlobalControlsOk(ctrls, globals, rank)
      modifies fused
      ensures Faithful(old(fused.Value()), m, ids, ctrls, globals, rank, false)
              ==> Valid() && Does(old(Held()), Held(), m, ids, ctrls, globals, rank)
      ensures IsScalar(ids, ctrls, globals)
              ==> fused.Value() == old(fused.Value()).(factor := Mul(old(fused.factor), Entry(Restricted(m, ids, globals, rank), 0, 0)))
    {
      ghost var f := fused.Value();
      var newMatrix := RestrictMatrix(m, ids, globals, rank);
      var lids := LocalIds(ids, globals, |ids|);
      LocalParts(ids, globals, |ids|);
      DistinctTargets(ids, ctrls, globals, localCtrls);
      var mat, idx := AddControls(newMatrix, lids, localCtrls);
      ghost var gained, dropped;
      gained, dropped := fused.Insert(mat, idx, []);
      OneRow(mat, idx);
      RestrictedEffect(f, fused.Value(), m, ids, ctrls, globals, rank, localCtrls, mat, idx, gained, dropped, WaveOf(vec[..], locals));
    }

    // IdsToBits
    method IdsToBits(ids: seq<nat>) returns (mask: nat)
      requires Distinct(locals)
      ensures MaskOf(mask, Elements(ids) * Elements(locals), locals)
    {
      mask := 0;
      forall k: nat ensures !Bit(0, k) { BitOfZero(k); }
      for i := 0 to |ids|
        invariant MaskOf(mask, Elements(ids[..i]) * Elements(locals), locals)
      {
        OneMoreBit(ids, i, locals, mask);
        if ids[i] in locals {
          mask := Or(mask, Pow2(Find(locals, ids[i])));
        }
      }
      assert ids[..|ids|] == ids;
    }

    // Run: multiply out what was collected, apply it to the array, start afresh.
    // Kernels exist for up to five targets, all of them local; !ok is an exception.
    method Run() returns (ok: bool)
      requires Valid()
      modifies this`fused, fused, vec
      ensures ok <==> Runs(old(fused.Value()))
      ensures ok ==> Valid() && fresh(fused) && fused.Value() == EMPTY
      ensures ok ==> SameOnRank(old(Held()), WaveOf(vec[..], locals), globals, rank)
      ensures ok ==> SameOnRank(old(Held()), Held(), globals, rank)
      ensures !ok ==> vec[..] == old(vec[..]) && fused == old(fused)
    {
      ghost var f, before := fused.Value(), vec[..];
      var m, ids, ctrls := fused.PerformFusion();
      CountElements(ids);
      assert forall l :: 0 <= l < |ids| ==> ids[l] in f.qubits;
      var mask := IdsToBits(ctrls);
      if exists l :: 0 <= l < |ids| && ids[l] !in locals {
        return false;
      }
      var idsPos := Positions(ids, locals);
      if |ids| > 5 {
        return false;
      }
      ghost var localCtrls := Elements(ctrls) * Elements(locals);
      TargetsAreNotControls(ids, localCtrls, locals, idsPos, mask);
      ghost var visited := Kernel(vec, idsPos, m, mask, |locals|);
      fused := new Fusion();
      forall a: set<nat> | OfRank(a, globals, rank) ensures WaveOf(vec[..], locals)(a) == Denote(f, WaveOf(before, locals))(a) {
        KernelIsGate(before, vec[..], m, ids, localCtrls, locals, idsPos, mask, a);
        HeldAt(f.ctrls, globals, rank, a);
        assert f.ctrls <= a <==> localCtrls <= a;
      }
      EmptyHolds(WaveOf(vec[..], locals));
      return true;
    }
  }

  lemma EmptyHolds(psi: Wave)
    ensures forall a: set<nat> :: Denote(EMPTY, psi)(a) == psi(a)
  {
    forall a: set<nat> ensures Denote(EMPTY, psi)(a) == psi(a) {
      MulUnits(psi(a));
    }
  }

  lemma DoesFrom(before: Wave, psi: Wave, psi': Wave, m: Matrix, ids: seq<nat>, ctrls: seq<nat>, globals: seq<nat>, r: nat)
    requires Distinct(globals) && Distinct(ids) && SameOnRank(before, psi, globals, r)
    requires Does(psi, psi', m, ids, ctrls, globals, r)
    ensures Does(before, psi', m, ids, ctrls, globals, r)
  {
    forall b: set<nat> | OfRank(b, globals, r) ensures psi'(b) == RankGate(m, ids, ctrls, globals, r, before)(b) {
      RankGateSame(m, ids, ctrls, globals, r, before, psi, b);
    }
  }

  lemma ScalarMatrix(m: Matrix, ids: seq<nat>, ctrls: seq<nat>, globals: seq<nat>, r: nat, localCtrls: seq<nat>)
    requires Elements(localCtrls) == LocalControls(ctrls, globals)
    ensures LocalIds(ids, globals, |ids|) + localCtrls == [] <==> IsScalar(ids, ctrls, globals)
    ensures IsScalar(ids, ctrls, globals) ==> Entry(Added(Restricted(m, ids, globals, r), 0, 0), 0, 0) == Entry(Restricted(m, ids, globals, r), 0, 0)
  {
    if localCtrls != [] {
      assert localCtrls[0] in Elements(localCtrls);
    }
    AddedEntries(Restricted(m, ids, globals, r), 0, 0, 0, 0);
  }

  lemma OneMoreBit(ids: seq<nat>, i: nat, locals: seq<nat>, mask: nat)
    requires i < |ids| && Distinct(locals) && MaskOf(mask, Elements(ids[..i]) * Elements(locals), locals)
    ensures var more := if ids[i] in locals then Or(mask, Pow2(Find(locals, ids[i]))) else mask;
            MaskOf(more, Elements(ids[..i + 1]) * Elements(locals), locals)
  {
    assert ids[..i + 1] == ids[..i] + [ids[i]];
    if ids[i] in locals {
      var p := Find(locals, ids[i]);
      var more := Or(mask, Pow2(p));
      forall k: nat ensures Bit(more, k) <==> k < |locals| && locals[k] in Elements(ids[..i + 1]) * Elements(locals) {
        OrBits(mask, Pow2(p), k);
        Pow2Bits(p, k);
        if k < |locals| {
          assert locals[k] == ids[i] <==> k == p;
        }
      }
    } else {
      assert Elements(ids[..i + 1]) * Elements(locals) == Elements(ids[..i]) * Elements(locals);
    }
  }

  lemma TargetsAreNotControls(ids: seq<nat>, ctrls: set<nat>, locals: seq<nat>, ids': seq<nat>, mask: nat)
    requires Distinct(ids) && Distinct(locals) && (forall l :: 0 <= l < |ids| ==> ids[l] in locals) && Elements(ids) !! ctrls
    requires MaskOf(mask, ctrls, locals) && ids' == Positions(ids, locals)
    ensures Located(ids, locals, ids') && Distinct(ids')
    ensures forall l :: 0 <= l < |ids'| ==> ids'[l] < |locals| && !Bit(mask, ids'[l])
  {
    forall l | 0 <= l < |ids| ensures ids[l] in locals && ids[l] !in ctrls {
      assert ids[l] in Elements(ids);
    }
    LocatedDistinct(ids, locals, ids');
  }

  lemma DistinctTargets(ids: seq<nat>, ctrls: seq<nat>, globals: seq<nat>, localCtrls: seq<nat>)
    requires Distinct(ids) && Distinct(localCtrls) && Elements(localCtrls) == LocalControls(ctrls, globals)
    requires forall q :: q in ids ==> q !in ctrls
    ensures Distinct(LocalIds(ids, globals, |ids|) + localCtrls)
  {
    LocalIdsDistinct(ids, globals);
    forall q | q in LocalIds(ids, globals, |ids|) ensures q !in localCtrls {
      assert q in localCtrls <==> q in Elements(localCtrls);
    }
    DistinctConcat(LocalIds(ids, globals, |ids|), localCtrls);
  }

  // ----- all ranks --------------------------------------------------------

  // The state all ranks stand for together.
  ghost function Whole(parts: seq<Wave>, globals: seq<nat>): Wave
    requires |parts| == Pow2(|globals|)
  {
    (a: set<nat>) => parts[Local(a, globals)](a)
  }

  lemma AtOwnRank(a: set<nat>, globals: seq<nat>)
    requires Distinct(globals)
    ensures AtRank(a, globals, Local(a, globals)) == a
  {
    forall q ensures q in AtRank(a, globals, Local(a, globals)) <==> q in a {
      AtRankElements(a, globals, Local(a, globals), q);
      if q in globals {
        LocalBits(a, globals, Find(globals, q));
      }
    }
  }

  lemma RankOfAtRank(b: set<nat>, globals: seq<nat>, r: nat)
    requires Distinct(globals) && r < Pow2(|globals|)
    ensures Local(AtRank(b, globals, r), globals) == r
  {
    forall g: nat ensures Bit(Local(AtRank(b, globals, r), globals), g) == Bit(r, g) {
      LocalBits(AtRank(b, globals, r), globals, g);
      if g < |globals| {
        AtRankElements(b, globals, r, globals[g]);
        assert globals[Find(globals, globals[g])] == globals[g];
      } else {
        HighBits(r, |globals|, g);
      }
    }
    SameBits(Local(AtRank(b, globals, r), globals), r);
  }

  lemma ControlsAtRank(ctrls: seq<nat>, globals: seq<nat>, a: set<nat>)
    requires Distinct(globals)
    ensures Elements(ctrls) <= a <==> GlobalControlsOk(ctrls, globals, Local(a, globals)) && LocalControls(ctrls, globals) <= a
  {
    var r := Local(a, globals);
    forall i | 0 <= i < |ctrls| ensures ctrls[i] in globals ==> (Bit(r, Find(globals, ctrls[i])) <==> ctrls[i] in a) {
      LocalBits(a, globals, Find(globals, ctrls[i]));
    }
    if Elements(ctrls) <= a {
      assert forall i :: 0 <= i < |ctrls| ==> ctrls[i] in Elements(ctrls);
    } else if GlobalControlsOk(ctrls, globals, r) {
      var c :| c in ctrls && c !in a;
      var i :| 0 <= i < |ctrls| && ctrls[i] == c;
      assert c in LocalControls(ctrls, globals);
    }
  }

  lemma PartOfWhole(parts: seq<Wave>, globals: seq<nat>, r: nat)
    requires |parts| == Pow2(|globals|) && Distinct(globals) && r < |parts|
    ensures SameOnRank(parts[r], Whole(parts, globals), globals, r)
  {
    forall b: set<nat> | OfRank(b, globals, r) ensures Whole(parts, globals)(b) == parts[r](b) {
      RankOfAtRank(b, globals, r);
    }
  }

  // When every rank does its part, the ranks together apply the gate to the
  // state, global controls and global diagonal targets included.
  lemma AllRanksApplyTheGate(parts: seq<Wave>, parts': seq<Wave>, m: Matrix, ids: seq<nat>, ctrls: seq<nat>, globals: seq<nat>,
                             a: set<nat>)
    requires |parts| == |parts'| == Pow2(|globals|) && Distinct(globals) && Distinct(ids)
    requires IsDiagonal(m, Pow2(|ids|)) || !HasGlobal(ids, globals)
    requires forall r :: 0 <= r < |parts| ==> Does(parts[r], parts'[r], m, ids, ctrls, globals, r)
    ensures Whole(parts', globals)(a) == Gate(m, ids, Elements(ctrls), Whole(parts, globals))(a)
  {
    var r := Local(a, globals);
    AtOwnRank(a, globals);
    assert Does(parts[r], parts'[r], m, ids, ctrls, globals, r);
    PartOfWhole(parts, globals, r);
    RankGateSame(m, ids, ctrls, globals, r, parts[r], Whole(parts, globals), a);
    WholeIsRestricted(m, ids, ctrls, globals, r, Whole(parts, globals), a);
  }

  datatype Call = Gated(m: Matrix, ids: seq<nat>, ctrls: seq<nat>) | Flush

  // The gates one after the other.
  ghost function InOrder(calls: seq<Call>, psi: Wave): Wave {
    if calls == [] then psi else
    var last, before := calls[|calls| - 1], InOrder(calls[..|calls| - 1], psi);
    if last.Flush? then before else Gate(last.m, last.ids, Elements(last.ctrls), before)
  }

  // What the ranks stand for before and after a call of ApplyGate or Run on all of them.
  ghost predicate RanksCall(parts: seq<Wave>, parts': seq<Wave>, call: Call, globals: seq<nat>) {
    && |parts| == |parts'| == Pow2(|globals|)
    && if call.Flush? then forall r :: 0 <= r < |parts| ==> SameOnRank(parts[r], parts'[r], globals, r)
       else && Distinct(call.ids) && (IsDiagonal(call.m, Pow2(|call.ids|)) || !HasGlobal(call.ids, globals))
            && forall r :: 0 <= r < |parts| ==> Does(parts[r], parts'[r], call.m, call.ids, call.ctrls, globals, r)
  }

  ghost predicate RanksRun(parts: seq<seq<Wave>>, calls: seq<Call>, globals: seq<nat>) {
    && |parts| == |calls| + 1 && (forall k :: 0 <= k < |parts| ==> |parts[k]| == Pow2(|globals|))
    && forall k :: 0 <= k < |calls| ==> RanksCall(parts[k], parts[k + 1], calls[k], globals)
  }

  lemma OneCall(parts: seq<Wave>, parts': seq<Wave>, call: Call, globals: seq<nat>, psi: Wave, a: set<nat>)
    requires Distinct(globals) && RanksCall(parts, parts', call, globals)
    requires forall b: set<nat> :: Whole(parts, globals)(b) == psi(b)
    ensures Whole(parts', globals)(a) == if call.Flush? then psi(a) else Gate(call.m, call.ids, Elements(call.ctrls), psi)(a)
  {
    if call.Flush? {
      var r := Local(a, globals);
      AtOwnRank(a, globals);
      assert SameOnRank(parts[r], parts'[r], globals, r);
    } else {
      AllRanksApplyTheGate(parts, parts', call.m, call.ids, call.ctrls, globals, a);
      ApplySame(call.m, call.ids, Whole(parts, globals), psi, a);
    }
  }

  // After any calls the arrays of all ranks, with what is still collected, are
  // the gates in order on the first state.
  lemma {:induction false} CallsApplyInOrder(parts: seq<seq<Wave>>, calls: seq<Call>, globals: seq<nat>, a: set<nat>)
    requires Distinct(globals) && RanksRun(parts, calls, globals)
    ensures Whole(parts[|calls|], globals)(a) == InOrder(calls, Whole(parts[0], globals))(a)
  {
    var k := |calls| - 1;
    if k >= 0 {
      var first := Whole(parts[0], globals);
      assert RanksCall(parts[k], parts[k + 1], calls[k], globals);
      forall b: set<nat> ensures Whole(parts[k], globals)(b) == InOrder(calls[..k], first)(b) {
        CallsApplyInOrder(parts[..k + 1], calls[..k], globals, b);
      }
      OneCall(parts[k], parts[k + 1], calls[k], globals, InOrder(calls[..k], first), a);
    }
  }
}
