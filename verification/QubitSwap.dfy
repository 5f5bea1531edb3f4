// Exchanging global and local qubits: the bit tables, who sends which
// amplitude where, and why the state they describe stays the same.

module QubitSwap {
  import opened Sequences
  import opened Bits

  // ----- cells ------------------------------------------------------------

  // The swapped local positions, ascending (ls), and in the order of the
  // global positions they are swapped with (lp).
  ghost predicate IsTable(ls: seq<nat>, lp: seq<nat>) {
    && |ls| == |lp| && Increasing(ls) && Distinct(lp)
    && (forall k :: k in lp <==> k in ls)
  }

  // The local index with swapped bits d and the other bits free.
  function Cell(ls: seq<nat>, lp: seq<nat>, free: nat, d: nat): nat {
    ZeroInsert(free, ls, |ls|) + Scatter(d, lp, |lp|)
  }

  lemma NoOverlap(ls: seq<nat>, lp: seq<nat>, free: nat, d: nat, k: nat)
    requires IsTable(ls, lp)
    ensures !(Bit(ZeroInsert(free, ls, |ls|), k) && Bit(Scatter(d, lp, |lp|), k))
  {
    ScatterBits(d, lp, |lp|, k);
    if Bit(Scatter(d, lp, |lp|), k) {
      var i :| 0 <= i < |lp| && lp[i] == k && Bit(d, i);
      assert lp[i] in ls;
      var j :| 0 <= j < |ls| && ls[j] == k;
      ZeroBits(free, ls, |ls|, j);
    }
  }

  lemma CellBits(ls: seq<nat>, lp: seq<nat>, free: nat, d: nat, k: nat)
    requires IsTable(ls, lp)
    ensures k !in lp ==> Bit(Cell(ls, lp, free, d), k) == Bit(ZeroInsert(free, ls, |ls|), k)
    ensures forall i :: 0 <= i < |lp| && lp[i] == k ==> Bit(Cell(ls, lp, free, d), k) == Bit(d, i)
  {
    var z, s := ZeroInsert(free, ls, |ls|), Scatter(d, lp, |lp|);
    forall j: nat ensures !(Bit(z, j) && Bit(s, j)) {
      NoOverlap(ls, lp, free, d, j);
    }
    DisjointSumBits(z, s, k);
    ScatterBits(d, lp, |lp|, k);
    if k in lp {
      assert k in ls;
      var j :| 0 <= j < |ls| && ls[j] == k;
      ZeroBits(free, ls, |ls|, j);
    }
  }

  // Different chunks, and different blocks of a chunk, have different cells.
  lemma CellInjective(ls: seq<nat>, lp: seq<nat>, free: nat, d: nat, free': nat, d': nat)
    requires IsTable(ls, lp) && d < Pow2(|lp|) && d' < Pow2(|lp|)
    requires Cell(ls, lp, free, d) == Cell(ls, lp, free', d')
    ensures free == free' && d == d'
  {
    forall i: nat ensures Bit(d, i) == Bit(d', i) {
      if i < |lp| {
        CellBits(ls, lp, free, d, lp[i]);
        CellBits(ls, lp, free', d', lp[i]);
      } else {
        HighBits(d, |lp|, i);
        HighBits(d', |lp|, i);
      }
    }
    SameBits(d, d');
    ZeroInsertInjective(free, free', ls, |ls|);
  }

  // Every local index is a cell.
  lemma CellCovers(ls: seq<nat>, lp: seq<nat>, x: nat, m: nat) returns (free: nat, d: nat)
    requires IsTable(ls, lp) && x < Pow2(m) && |ls| <= m && forall i :: 0 <= i < |ls| ==> ls[i] < m
    ensures free < Pow2(m - |ls|) && d == Gather(x, lp, |lp|) && Cell(ls, lp, free, d) == x
  {
    d := Gather(x, lp, |lp|);
    var s := Scatter(d, lp, |lp|);
    var y := AndNot(x, s);
    forall i | 0 <= i < |ls| ensures !Bit(y, ls[i]) {
      CoveredBit(x, ls, lp, ls[i]);
      AndNotBits(x, s, ls[i]);
    }
    free := Extract(y, ls, |ls|);
    ExtractThenInsert(y, ls, |ls|);
    forall k: nat | k >= m ensures !Bit(y, k) {
      AndNotBits(x, s, k);
      HighBits(x, m, k);
    }
    BoundedByBits(y, m);
    ExtractBound(y, ls, |ls|, m);
    forall k: nat ensures !(Bit(y, k) && Bit(s, k)) {
      AndNotBits(x, s, k);
    }
    forall k: nat ensures Bit(y + s, k) == Bit(x, k) {
      DisjointSumBits(y, s, k);
      AndNotBits(x, s, k);
      CoveredBit(x, ls, lp, k);
    }
    SameBits(y + s, x);
  }

  lemma CoveredBit(x: nat, ls: seq<nat>, lp: seq<nat>, k: nat)
    requires IsTable(ls, lp)
    ensures Bit(Scatter(Gather(x, lp, |lp|), lp, |lp|), k) == (k in lp && Bit(x, k))
    ensures k in lp <==> k in ls
  {
    var d := Gather(x, lp, |lp|);
    ScatterBits(d, lp, |lp|, k);
    forall i | 0 <= i < |lp| ensures Bit(d, i) == Bit(x, lp[i]) {
      GatherBits(x, lp, |lp|, i);
    }
  }

  lemma CellBound(ls: seq<nat>, lp: seq<nat>, free: nat, d: nat, m: nat)
    requires IsTable(ls, lp) && |ls| <= m && forall i :: 0 <= i < |ls| ==> ls[i] < m
    requires free < Pow2(m - |ls|)
    ensures Cell(ls, lp, free, d) < Pow2(m)
  {
    InsertBound(free, ls, |ls|, m);
    forall k: nat | k >= m ensures !Bit(Cell(ls, lp, free, d), k) {
      CellBits(ls, lp, free, d, k);
      HighBits(ZeroInsert(free, ls, |ls|), m, k);
      CoveredBit(0, ls, lp, k);
    }
    BoundedByBits(Cell(ls, lp, free, d), m);
  }

  // ----- communicators ----------------------------------------------------

  // The colour of a rank: its bits at the swapped global positions cleared,
  // one position after the other.
  function Color(r: nat, gs: seq<nat>, k: nat): nat
    requires k <= |gs|
  {
    if k == 0 then r else AndNot(Color(r, gs, k - 1), Pow2(gs[k - 1]))
  }

  lemma {:induction false} ColorBits(r: nat, gs: seq<nat>, k: nat, j: nat)
    requires k <= |gs|
    ensures Bit(Color(r, gs, k), j) <==> Bit(r, j) && j !in gs[..k]
  {
    if k > 0 {
      ColorBits(r, gs, k - 1, j);
      AndNotBits(Color(r, gs, k - 1), Pow2(gs[k - 1]), j);
      Pow2Bits(gs[k - 1], j);
      assert gs[..k] == gs[..k - 1] + [gs[k - 1]];
    }
  }

  // The order of the positions does not matter for the colour.
  lemma ColorOfSameSet(r: nat, gs: seq<nat>, gs': seq<nat>)
    requires forall j :: j in gs <==> j in gs'
    ensures Color(r, gs, |gs|) == Color(r, gs', |gs'|)
  {
    assert gs[..|gs|] == gs && gs'[..|gs'|] == gs';
    forall j: nat ensures Bit(Color(r, gs, |gs|), j) == Bit(Color(r, gs', |gs'|), j) {
      ColorBits(r, gs, |gs|, j);
      ColorBits(r, gs', |gs'|, j);
    }
    SameBits(Color(r, gs, |gs|), Color(r, gs', |gs'|));
  }

  // The member of r's communicator with the bits of c at the swapped global positions.
  function Member(r: nat, gs: seq<nat>, c: nat): nat {
    Or(Color(r, gs, |gs|), Scatter(c, gs, |gs|))
  }

  lemma MemberBits(r: nat, gs: seq<nat>, c: nat, j: nat)
    requires Distinct(gs)
    ensures j !in gs ==> Bit(Member(r, gs, c), j) == Bit(r, j)
    ensures forall i :: 0 <= i < |gs| && gs[i] == j ==> Bit(Member(r, gs, c), j) == Bit(c, i)
  {
    OrBits(Color(r, gs, |gs|), Scatter(c, gs, |gs|), j);
    ColorBits(r, gs, |gs|, j);
    ScatterBits(c, gs, |gs|, j);
    assert gs[..|gs|] == gs;
  }

  lemma MemberColor(r: nat, gs: seq<nat>, c: nat)
    requires Distinct(gs)
    ensures Color(Member(r, gs, c), gs, |gs|) == Color(r, gs, |gs|)
  {
    assert gs[..|gs|] == gs;
    forall j: nat ensures Bit(Color(Member(r, gs, c), gs, |gs|), j) == Bit(Color(r, gs, |gs|), j) {
      ColorBits(Member(r, gs, c), gs, |gs|, j);
      ColorBits(r, gs, |gs|, j);
      MemberBits(r, gs, c, j);
    }
    SameBits(Color(Member(r, gs, c), gs, |gs|), Color(r, gs, |gs|));
  }

  // A rank is the member of its own communicator given by its own bits ...
  lemma MemberOfSameColor(r: nat, r': nat, gs: seq<nat>)
    requires Distinct(gs) && Color(r', gs, |gs|) == Color(r, gs, |gs|)
    ensures Member(r, gs, Gather(r', gs, |gs|)) == r'
  {
    assert gs[..|gs|] == gs;
    var c := Gather(r', gs, |gs|);
    forall j: nat ensures Bit(Member(r, gs, c), j) == Bit(r', j) {
      MemberBits(r, gs, c, j);
      ColorBits(r, gs, |gs|, j);
      ColorBits(r', gs, |gs|, j);
      if j in gs {
        var i :| 0 <= i < |gs| && gs[i] == j;
        GatherBits(r', gs, |gs|, i);
      }
    }
    SameBits(Member(r, gs, c), r');
  }

  // ... and its bits are those of c.
  lemma GatherOfMember(r: nat, gs: seq<nat>, c: nat)
    requires Distinct(gs) && c < Pow2(|gs|)
    ensures Gather(Member(r, gs, c), gs, |gs|) == c
  {
    forall i: nat ensures Bit(Gather(Member(r, gs, c), gs, |gs|), i) == Bit(c, i) {
      GatherBits(Member(r, gs, c), gs, |gs|, i);
      if i < |gs| {
        MemberBits(r, gs, c, gs[i]);
      } else {
        HighBits(c, |gs|, i);
      }
    }
    SameBits(Gather(Member(r, gs, c), gs, |gs|), c);
  }

  // With ascending positions the members come in rank order.
  lemma MembersAscend(r: nat, gs: seq<nat>, c: nat, c': nat)
    requires Increasing(gs) && c < c' < Pow2(|gs|)
    ensures Member(r, gs, c) < Member(r, gs, c')
  {
    var k := BitsFromLess(c, c');
    if k >= |gs| {
      HighBits(c', |gs|, k);
      assert false;
    } else {
      var a, b := Member(r, gs, c), Member(r, gs, c');
      forall j: nat | j > gs[k] ensures Bit(a, j) == Bit(b, j) {
        SameAbove(r, gs, c, c', k, j);
      }
      MemberBits(r, gs, c, gs[k]);
      MemberBits(r, gs, c', gs[k]);
      LessFromBits(a, b, gs[k]);
    }
  }

  lemma SameAbove(r: nat, gs: seq<nat>, c: nat, c': nat, k: nat, j: nat)
    requires Increasing(gs) && k < |gs| && LessAt(c, c', k) && j > gs[k]
    ensures Bit(Member(r, gs, c), j) == Bit(Member(r, gs, c'), j)
  {
    MemberBits(r, gs, c, j);
    MemberBits(r, gs, c', j);
    if j in gs {
      var i :| 0 <= i < |gs| && gs[i] == j;
      LaterPosition(gs, i, k);
      assert Bit(c, i) == Bit(c', i);
    }
  }

  lemma LaterPosition(gs: seq<nat>, i: nat, k: nat)
    requires Increasing(gs) && i < |gs| && k < |gs| && gs[i] > gs[k]
    ensures i > k
  {
  }

  // world.split(color): the ranks of one colour, in rank order.
  function Communicator(world: nat, gs: seq<nat>, color: nat): seq<nat> {
    if world == 0 then [] else
    Communicator(world - 1, gs, color) + if Color(world - 1, gs, |gs|) == color then [world - 1] else []
  }

  lemma {:induction false} CommunicatorElements(world: nat, gs: seq<nat>, color: nat)
    ensures Increasing(Communicator(world, gs, color))
    ensures forall r :: r in Communicator(world, gs, color) <==> 0 <= r < world && Color(r, gs, |gs|) == color
  {
    if world > 0 {
      CommunicatorElements(world - 1, gs, color);
      var s := Communicator(world - 1, gs, color);
      assert forall i :: 0 <= i < |s| ==> s[i] in s;
    }
  }

  lemma MemberBound(r: nat, gs: seq<nat>, c: nat, globals: nat)
    requires Distinct(gs) && r < Pow2(globals) && forall i :: 0 <= i < |gs| ==> gs[i] < globals
    ensures Member(r, gs, c) < Pow2(globals)
  {
    forall j: nat | j >= globals ensures !Bit(Member(r, gs, c), j) {
      MemberBits(r, gs, c, j);
      HighBits(r, globals, j);
    }
    BoundedByBits(Member(r, gs, c), globals);
  }

  // The split orders ranks by number, so the c-th member of r's communicator
  // has the bits of c at the swapped global positions, lowest position first.
  lemma CommunicatorIsMembers(r: nat, gs: seq<nat>, globals: nat)
    requires Increasing(gs) && r < Pow2(globals) && forall i :: 0 <= i < |gs| ==> gs[i] < globals
    ensures Communicator(Pow2(globals), gs, Color(r, gs, |gs|)) == Members(r, gs)
  {
    var comm := Communicator(Pow2(globals), gs, Color(r, gs, |gs|));
    CommunicatorElements(Pow2(globals), gs, Color(r, gs, |gs|));
    forall i, j | 0 <= i < j < Pow2(|gs|) ensures Members(r, gs)[i] < Members(r, gs)[j] {
      MembersAscend(r, gs, i, j);
    }
    forall r' ensures r' in comm <==> r' in Members(r, gs) {
      if r' in comm {
        MemberOfSameColor(r, r', gs);
        assert Members(r, gs)[Gather(r', gs, |gs|)] == r';
      }
      if r' in Members(r, gs) {
        var c :| 0 <= c < Pow2(|gs|) && Members(r, gs)[c] == r';
        MemberColor(r, gs, c);
        MemberBound(r, gs, c, globals);
      }
    }
    AscendingUnique(comm, Members(r, gs));
  }

  function Members(r: nat, gs: seq<nat>): seq<nat> {
    seq(Pow2(|gs|), c requires 0 <= c => Member(r, gs, c))
  }

  // ----- the state --------------------------------------------------------

  // Which qubit each bit of a local index, and each bit of a rank, stands for.
  datatype Layout = Layout(locals: seq<nat>, globals: seq<nat>)

  // The number whose bit i says whether qubit ids[i] is in the set.
  ghost function Address(ones: set<nat>, ids: seq<nat>, k: nat): (x: nat)
    requires k <= |ids|
    ensures x < Pow2(k)
  {
    if k == 0 then 0 else Address(ones, ids, k - 1) + if ids[k - 1] in ones then Pow2(k - 1) else 0
  }

  lemma {:induction false} AddressBits(ones: set<nat>, ids: seq<nat>, k: nat, i: nat)
    requires k <= |ids|
    ensures Bit(Address(ones, ids, k), i) <==> i < k && ids[i] in ones
  {
    if k == 0 {
      BitOfZero(i);
    } else {
      var x := Address(ones, ids, k - 1);
      if ids[k - 1] in ones {
        forall j: nat ensures !(Bit(x, j) && Bit(Pow2(k - 1), j)) {
          Pow2Bits(k - 1, j);
          HighBits(x, k - 1, k - 1);
        }
        DisjointSumBits(x, Pow2(k - 1), i);
        Pow2Bits(k - 1, i);
      }
      AddressBits(ones, ids, k - 1, i);
    }
  }

  // One array of 2^M amplitudes on each of 2^G ranks.
  ghost predicate IsState<T>(vec: seq<seq<T>>, l: Layout) {
    |vec| == Pow2(|l.globals|) && forall r :: 0 <= r < |vec| ==> |vec[r]| == Pow2(|l.locals|)
  }

  // The amplitude of the basis state in which exactly the qubits of `ones` are 1.
  ghost function Amplitude<T>(vec: seq<seq<T>>, l: Layout, ones: set<nat>): T
    requires IsState(vec, l)
  {
    vec[Address(ones, l.globals, |l.globals|)][Address(ones, l.locals, |l.locals|)]
  }

  // ----- the exchange -----------------------------------------------------

  // The positions exchanged: global position gs[i] with local position lp[i].
  ghost predicate IsExchange(l: Layout, gs: seq<nat>, ls: seq<nat>, lp: seq<nat>) {
    && IsTable(ls, lp) && |gs| == |lp| && Increasing(gs)
    && |ls| <= |l.locals|
    && (forall i :: 0 <= i < |gs| ==> gs[i] < |l.globals|)
    && (forall i :: 0 <= i < |lp| ==> lp[i] < |l.locals|)
    && (forall i :: 0 <= i < |ls| ==> ls[i] < |l.locals|)
  }

  ghost predicate Relabelled(l: Layout, l': Layout, gs: seq<nat>, lp: seq<nat>)
    requires |gs| == |lp|
    requires forall i :: 0 <= i < |gs| ==> gs[i] < |l.globals| && lp[i] < |l.locals|
  {
    && |l'.locals| == |l.locals| && |l'.globals| == |l.globals|
    && (forall i :: 0 <= i < |gs| ==> l'.locals[lp[i]] == l.globals[gs[i]])
    && (forall i :: 0 <= i < |gs| ==> l'.globals[gs[i]] == l.locals[lp[i]])
    && (forall k :: 0 <= k < |l.locals| && k !in lp ==> l'.locals[k] == l.locals[k])
    && (forall k :: 0 <= k < |l.globals| && k !in gs ==> l'.globals[k] == l.globals[k])
  }

  // Where rank r gets its cell (free, d) from: block CommRank(r) of member d.
  ghost predicate Exchanged<T>(vec: seq<seq<T>>, vec': seq<seq<T>>, m: nat, gs: seq<nat>, ls: seq<nat>, lp: seq<nat>)
  {
    && |vec'| == |vec| && |ls| <= m
    && (forall r :: 0 <= r < |vec| ==> |vec[r]| == |vec'[r]| == Pow2(m))
    && forall r, free, d {:trigger CellExchanged(vec, vec', gs, ls, lp, r, free, d)} ::
         0 <= r < |vec| && 0 <= free < Pow2(m - |ls|) && 0 <= d < Pow2(|lp|) ==>
           CellExchanged(vec, vec', gs, ls, lp, r, free, d)
  }

  ghost predicate CellExchanged<T>(vec: seq<seq<T>>, vec': seq<seq<T>>, gs: seq<nat>, ls: seq<nat>, lp: seq<nat>,
                                   r: nat, free: nat, d: nat)
  {
    var x, r', x' := Cell(ls, lp, free, d), Member(r, gs, d), Cell(ls, lp, free, Gather(r, gs, |gs|));
    && r < |vec'| && x < |vec'[r]| && r' < |vec| && x' < |vec[r']|
    && vec'[r][x] == vec[r'][x']
  }

  // Exchanging the amplitudes and relabelling the qubits leaves the state as it was.
  lemma SwapKeepsAmplitudes<T>(vec: seq<seq<T>>, vec': seq<seq<T>>, l: Layout, l': Layout,
                               gs: seq<nat>, ls: seq<nat>, lp: seq<nat>, ones: set<nat>)
    requires IsState(vec, l) && IsState(vec', l') && IsExchange(l, gs, ls, lp)
    requires Relabelled(l, l', gs, lp) && Exchanged(vec, vec', |l.locals|, gs, ls, lp)
    ensures Amplitude(vec', l', ones) == Amplitude(vec, l, ones)
  {
    var free, d := Origin(l, l', gs, ls, lp, ones);
    assert CellExchanged(vec, vec', gs, ls, lp, Address(ones, l'.globals, |l'.globals|), free, d);
  }

  // The cell of a basis state in the new layout is filled from its place in the old one.
  lemma Origin(l: Layout, l': Layout, gs: seq<nat>, ls: seq<nat>, lp: seq<nat>, ones: set<nat>) returns (free: nat, d: nat)
    requires IsExchange(l, gs, ls, lp) && Relabelled(l, l', gs, lp)
    ensures free < Pow2(|l.locals| - |ls|) && d < Pow2(|lp|)
    ensures Cell(ls, lp, free, d) == Address(ones, l'.locals, |l'.locals|)
    ensures Member(Address(ones, l'.globals, |l'.globals|), gs, d) == Address(ones, l.globals, |l.globals|)
    ensures Cell(ls, lp, free, Gather(Address(ones, l'.globals, |l'.globals|), gs, |gs|)) == Address(ones, l.locals, |l.locals|)
  {
    free, d := CellOf(l, gs, ls, lp, ones, l'.locals);
    SameRank(l, l', gs, ls, lp, ones, d);
    SameIndex(l, l', gs, ls, lp, ones, free, d);
  }

  lemma CellOf(l: Layout, gs: seq<nat>, ls: seq<nat>, lp: seq<nat>, ones: set<nat>, ids: seq<nat>) returns (free: nat, d: nat)
    requires IsExchange(l, gs, ls, lp) && |ids| == |l.locals|
    ensures free < Pow2(|l.locals| - |ls|) && d < Pow2(|lp|) && d == Gather(Address(ones, ids, |ids|), lp, |lp|)
    ensures Cell(ls, lp, free, d) == Address(ones, ids, |ids|)
  {
    free, d := CellCovers(ls, lp, Address(ones, ids, |ids|), |l.locals|);
  }

  lemma SameRank(l: Layout, l': Layout, gs: seq<nat>, ls: seq<nat>, lp: seq<nat>, ones: set<nat>, d: nat)
    requires IsExchange(l, gs, ls, lp) && Relabelled(l, l', gs, lp)
    requires d == Gather(Address(ones, l'.locals, |l'.locals|), lp, |lp|)
    ensures Member(Address(ones, l'.globals, |l'.globals|), gs, d) == Address(ones, l.globals, |l.globals|)
  {
    var r', x' := Address(ones, l'.globals, |l'.globals|), Address(ones, l'.locals, |l'.locals|);
    var r := Address(ones, l.globals, |l.globals|);
    forall j: nat ensures Bit(Member(r', gs, d), j) == Bit(r, j) {
      MemberBits(r', gs, d, j);
      AddressBits(ones, l'.globals, |l'.globals|, j);
      AddressBits(ones, l.globals, |l.globals|, j);
      if j in gs {
        var i :| 0 <= i < |gs| && gs[i] == j;
        GatherBits(x', lp, |lp|, i);
        AddressBits(ones, l'.locals, |l'.locals|, lp[i]);
      }
    }
    SameBits(Member(r', gs, d), r);
  }

  lemma SameIndex(l: Layout, l': Layout, gs: seq<nat>, ls: seq<nat>, lp: seq<nat>, ones: set<nat>, free: nat, d: nat)
    requires IsExchange(l, gs, ls, lp) && Relabelled(l, l', gs, lp)
    requires Cell(ls, lp, free, d) == Address(ones, l'.locals, |l'.locals|)
    ensures Cell(ls, lp, free, Gather(Address(ones, l'.globals, |l'.globals|), gs, |gs|)) == Address(ones, l.locals, |l.locals|)
  {
    var r', x' := Address(ones, l'.globals, |l'.globals|), Address(ones, l'.locals, |l'.locals|);
    var x, c := Address(ones, l.locals, |l.locals|), Gather(r', gs, |gs|);
    forall k: nat ensures Bit(Cell(ls, lp, free, c), k) == Bit(x, k) {
      CellBits(ls, lp, free, c, k);
      CellBits(ls, lp, free, d, k);
      AddressBits(ones, l'.locals, |l'.locals|, k);
      AddressBits(ones, l.locals, |l.locals|, k);
      if k in lp {
        var i :| 0 <= i < |lp| && lp[i] == k;
        GatherBits(r', gs, |gs|, i);
        AddressBits(ones, l'.globals, |l'.globals|, gs[i]);
      }
    }
    SameBits(Cell(ls, lp, free, c), x);
  }
}
