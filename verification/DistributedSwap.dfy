// SwapQubits on all ranks: filling the send buffers, the exchange of blocks,
// writing back, and the layout after it.

module DistributedSwap {
  import opened Sequences
  import opened Bits
  import opened QubitSwap
  import opened SwapTables
  import opened Complexes

  // ----- slots of a buffer ------------------------------------------------

  // A buffer holds one block of n values for each member of the communicator.
  function Slot(n: nat, d: nat, i: nat): nat { n * d + i }

  lemma SlotBound(n: nat, d: nat, i: nat, size: nat)
    requires d < size && i < n
    ensures Slot(n, d, i) < n * size
  {
    NextMultiple(n, d, size);
  }

  lemma SlotInjective(n: nat, d: nat, i: nat, d': nat, i': nat)
    requires i < n && i' < n && Slot(n, d, i) == Slot(n, d', i')
    ensures d == d' && i == i'
  {
    if d < d' {
      NextMultiple(n, d, d');
    } else if d' < d {
      NextMultiple(n, d', d);
    }
  }

  // ----- the producer's work ----------------------------------------------

  ghost predicate SlotFilled(vec: seq<Complex>, svalues: seq<Complex>, indices: seq<nat>, n: nat, start: nat,
                                ls: seq<nat>, lp: seq<nat>, i: nat, d: nat) {
    var s, x := Slot(n, d, i), Cell(ls, lp, start + i, d);
    && s < |svalues| && s < |indices| && x < |vec|
    && indices[s] == x && svalues[s] == vec[x]
  }

  ghost predicate Filled(vec: seq<Complex>, svalues: seq<Complex>, indices: seq<nat>, n: nat, start: nat, ls: seq<nat>, lp: seq<nat>) {
    forall i, d :: 0 <= i < n && 0 <= d < Pow2(|lp|) ==> SlotFilled(vec, svalues, indices, n, start, ls, lp, i, d)
  }

  // Some of the slots: all blocks of the first rows, and the first blocks of the next one.
  ghost predicate FilledUpTo(vec: seq<Complex>, svalues: seq<Complex>, indices: seq<nat>, n: nat, start: nat,
                                ls: seq<nat>, lp: seq<nat>, rows: nat, blocks: nat) {
    forall i, d {:trigger SlotFilled(vec, svalues, indices, n, start, ls, lp, i, d)} ::
      0 <= i < n && 0 <= d < Pow2(|lp|) && (i < rows || (i == rows && d < blocks)) ==>
        SlotFilled(vec, svalues, indices, n, start, ls, lp, i, d)
  }

  lemma FillSlot(vec: seq<Complex>, svalues: seq<Complex>, indices: seq<nat>, n: nat, start: nat,
                    ls: seq<nat>, lp: seq<nat>, row: nat, block: nat)
    requires FilledUpTo(vec, svalues, indices, n, start, ls, lp, row, block)
    requires row < n && block < Pow2(|lp|) && |svalues| == |indices| >= n * Pow2(|lp|)
    requires Cell(ls, lp, start + row, block) < |vec|
    ensures Slot(n, block, row) < |svalues|
    ensures var s, x := Slot(n, block, row), Cell(ls, lp, start + row, block);
            FilledUpTo(vec, svalues[s := vec[x]], indices[s := x], n, start, ls, lp, row, block + 1)
  {
    SlotBound(n, block, row, Pow2(|lp|));
    var s, x := Slot(n, block, row), Cell(ls, lp, start + row, block);
    var sv, ind := svalues[s := vec[x]], indices[s := x];
    forall i, d | 0 <= i < n && 0 <= d < Pow2(|lp|) && (i < row || (i == row && d < block + 1))
      ensures SlotFilled(vec, sv, ind, n, start, ls, lp, i, d)
    {
      if i != row || d != block {
        assert SlotFilled(vec, svalues, indices, n, start, ls, lp, i, d);
        if Slot(n, d, i) == s {
          SlotInjective(n, d, i, block, row);
        }
      }
    }
  }

  // The zero bits inserted into free_idx.
  method InsertZeros(free: nat, swapBits: seq<nat>, nBits: nat, ghost ls: seq<nat>) returns (x: nat)
    requires nBits == |ls| <= |swapBits| && swapBits[..nBits] == Powers(ls)
    ensures x == ZeroInsert(free, ls, |ls|)
  {
    x := free;
    for bit := 0 to nBits
      invariant x == ZeroInsert(free, ls, bit)
    {
      assert swapBits[bit] == swapBits[..nBits][bit] == Pow2(ls[bit]);
      x := InsertZero(x, swapBits[bit]);
    }
  }

  // The bits of swap_idx at the swapped positions.
  method SwapOffset(swapIdx: nat, swapBits: seq<nat>, nBits: nat, ghost ls: seq<nat>, ghost lp: seq<nat>) returns (x: nat)
    requires nBits == |ls| && Encodes(swapBits, ls, lp)
    ensures x == Scatter(swapIdx, lp, |lp|)
  {
    x := 0;
    for bi := 0 to nBits
      invariant x == Scatter(swapIdx, lp, bi)
    {
      ghost var order := swapBits[nBits..2 * nBits];
      assert swapBits[nBits + bi] == order[bi];
      assert swapBits[order[bi]] == swapBits[..nBits][order[bi]] == Pow2(lp[bi]);
      var bv := if Bit(swapIdx, bi) then 1 else 0;
      x := Or(x, bv * swapBits[swapBits[nBits + bi]]);
    }
  }

  // doCalc
  method DoCalc(vec: array<Complex>, n: nat, start: nat, svalues: array<Complex>, indices: array<nat>,
                   swapBits: seq<nat>, nBits: nat, ghost m: nat, ghost ls: seq<nat>, ghost lp: seq<nat>)
    returns (end: nat)
    requires nBits == |ls| <= m && IsTable(ls, lp) && Encodes(swapBits, ls, lp)
    requires vec.Length == Pow2(m) && forall i :: 0 <= i < |ls| ==> ls[i] < m
    requires start + n <= Pow2(m - |ls|) && n * Pow2(nBits) <= svalues.Length == indices.Length
    requires svalues != vec
    modifies svalues, indices
    ensures end == start + n && Filled(vec[..], svalues[..], indices[..], n, start, ls, lp)
  {
    end := start + n;
    for free := start to end
      invariant FilledUpTo(vec[..], svalues[..], indices[..], n, start, ls, lp, free - start, 0)
    {
      FillRow(vec, n, start, free, svalues, indices, swapBits, nBits, m, ls, lp);
    }
  }

  // One pass of doCalc's outer loop: a value for each member.
  method FillRow(vec: array<Complex>, n: nat, start: nat, free: nat, svalues: array<Complex>, indices: array<nat>,
                    swapBits: seq<nat>, nBits: nat, ghost m: nat, ghost ls: seq<nat>, ghost lp: seq<nat>)
    requires nBits == |ls| <= m && IsTable(ls, lp) && Encodes(swapBits, ls, lp)
    requires vec.Length == Pow2(m) && forall i :: 0 <= i < |ls| ==> ls[i] < m
    requires start <= free < start + n <= Pow2(m - |ls|) && n * Pow2(nBits) <= svalues.Length == indices.Length
    requires svalues != vec && FilledUpTo(vec[..], svalues[..], indices[..], n, start, ls, lp, free - start, 0)
    modifies svalues, indices
    ensures FilledUpTo(vec[..], svalues[..], indices[..], n, start, ls, lp, free - start + 1, 0)
  {
    var resFree := InsertZeros(free, swapBits, nBits, ls);
    for swapIdx := 0 to Pow2(nBits)
      invariant FilledUpTo(vec[..], svalues[..], indices[..], n, start, ls, lp, free - start, swapIdx)
    {
      var offset := SwapOffset(swapIdx, swapBits, nBits, ls, lp);
      CellBound(ls, lp, free, swapIdx, m);
      FillSlot(vec[..], svalues[..], indices[..], n, start, ls, lp, free - start, swapIdx);
      ghost var sv, ind := svalues[..], indices[..];
      var res := resFree + offset;
      var idx := n * swapIdx + (free - start);
      indices[idx] := res;
      svalues[idx] := vec[res];
      assert indices[..] == ind[idx := res] && svalues[..] == sv[idx := vec[res]];
    }
  }

  // ----- the consumer's work ----------------------------------------------

  // Cell (free, d) after the blocks before `blocks`, and the first rows of that
  // block, have been written; a rank's own block is skipped.
  ghost predicate CellWritten(before: seq<Complex>, after: seq<Complex>, rvalues: seq<Complex>, n: nat, start: nat, own: nat,
                              ls: seq<nat>, lp: seq<nat>, blocks: nat, rows: nat, free: nat, d: nat) {
    var x := Cell(ls, lp, free, d);
    && x < |before| && x < |after|
    && if start <= free < start + n && d != own && (d < blocks || (d == blocks && free - start < rows))
       then Slot(n, d, free - start) < |rvalues| && after[x] == rvalues[Slot(n, d, free - start)]
       else after[x] == before[x]
  }

  ghost predicate Written(before: seq<Complex>, after: seq<Complex>, rvalues: seq<Complex>, n: nat, start: nat, own: nat,
                          m: nat, ls: seq<nat>, lp: seq<nat>, blocks: nat, rows: nat) {
    && |ls| <= m && |before| == |after| == Pow2(m)
    && forall free, d {:trigger CellWritten(before, after, rvalues, n, start, own, ls, lp, blocks, rows, free, d)} :: 0 <= free < Pow2(m - |ls|) && 0 <= d < Pow2(|lp|) ==>
         CellWritten(before, after, rvalues, n, start, own, ls, lp, blocks, rows, free, d)
  }

  lemma WriteSlot(before: seq<Complex>, after: seq<Complex>, rvalues: seq<Complex>, n: nat, start: nat, own: nat,
                  m: nat, ls: seq<nat>, lp: seq<nat>, block: nat, row: nat)
    requires Written(before, after, rvalues, n, start, own, m, ls, lp, block, row) && IsTable(ls, lp)
    requires block != own && block < Pow2(|lp|) && row < n && start + n <= Pow2(m - |ls|)
    requires Slot(n, block, row) < |rvalues|
    ensures Cell(ls, lp, start + row, block) < |after|
    ensures Written(before, after[Cell(ls, lp, start + row, block) := rvalues[Slot(n, block, row)]], rvalues,
                    n, start, own, m, ls, lp, block, row + 1)
  {
    assert CellWritten(before, after, rvalues, n, start, own, ls, lp, block, row, start + row, block);
    var x := Cell(ls, lp, start + row, block);
    var now, rows := after[x := rvalues[Slot(n, block, row)]], row + 1;
    forall free, d | 0 <= free < Pow2(m - |ls|) && 0 <= d < Pow2(|lp|)
      ensures CellWritten(before, now, rvalues, n, start, own, ls, lp, block, rows, free, d)
    {
      assert CellWritten(before, after, rvalues, n, start, own, ls, lp, block, row, free, d);
      WriteOne(before, after, rvalues, n, start, own, ls, lp, block, row, free, d);
    }
  }

  lemma WriteOne(before: seq<Complex>, after: seq<Complex>, rvalues: seq<Complex>, n: nat, start: nat, own: nat,
                 ls: seq<nat>, lp: seq<nat>, block: nat, row: nat, free: nat, d: nat)
    requires CellWritten(before, after, rvalues, n, start, own, ls, lp, block, row, free, d) && IsTable(ls, lp)
    requires block != own && block < Pow2(|lp|) && row < n && d < Pow2(|lp|)
    requires Slot(n, block, row) < |rvalues| && Cell(ls, lp, start + row, block) < |after|
    ensures CellWritten(before, after[Cell(ls, lp, start + row, block) := rvalues[Slot(n, block, row)]], rvalues,
                        n, start, own, ls, lp, block, row + 1, free, d)
  {
    if Cell(ls, lp, free, d) == Cell(ls, lp, start + row, block) {
      CellInjective(ls, lp, free, d, start + row, block);
    }
  }

  lemma NextBlock(before: seq<Complex>, after: seq<Complex>, rvalues: seq<Complex>, n: nat, start: nat, own: nat,
                  m: nat, ls: seq<nat>, lp: seq<nat>, block: nat, rows: nat)
    requires Written(before, after, rvalues, n, start, own, m, ls, lp, block, rows) && (rows == n || block == own)
    ensures Written(before, after, rvalues, n, start, own, m, ls, lp, block + 1, 0)
  {
    var next := block + 1;
    forall free, d | 0 <= free < Pow2(m - |ls|) && 0 <= d < Pow2(|lp|)
      ensures CellWritten(before, after, rvalues, n, start, own, ls, lp, next, 0, free, d)
    {
      assert CellWritten(before, after, rvalues, n, start, own, ls, lp, block, rows, free, d);
    }
  }

  ghost predicate Addressed(indices: seq<nat>, n: nat, start: nat, ls: seq<nat>, lp: seq<nat>) {
    forall i, d :: 0 <= i < n && 0 <= d < Pow2(|lp|) ==> SlotAddressed(indices, n, start, ls, lp, i, d)
  }

  ghost predicate SlotAddressed(indices: seq<nat>, n: nat, start: nat, ls: seq<nat>, lp: seq<nat>, i: nat, d: nat) {
    Slot(n, d, i) < |indices| && indices[Slot(n, d, i)] == Cell(ls, lp, start + i, d)
  }

  lemma FilledIsAddressed(vec: seq<Complex>, svalues: seq<Complex>, indices: seq<nat>, n: nat, start: nat, ls: seq<nat>, lp: seq<nat>)
    requires Filled(vec, svalues, indices, n, start, ls, lp)
    ensures Addressed(indices, n, start, ls, lp)
  {
    forall i, d | 0 <= i < n && 0 <= d < Pow2(|lp|) ensures SlotAddressed(indices, n, start, ls, lp, i, d) {
      assert SlotFilled(vec, svalues, indices, n, start, ls, lp, i, d);
    }
  }

  // One pass of f_consumer2: every block but the rank's own.
  method Consume(vec: array<Complex>, n: nat, commSize: nat, commRank: nat, rvalues: seq<Complex>, indices: seq<nat>,
                 ghost start: nat, ghost m: nat, ghost ls: seq<nat>, ghost lp: seq<nat>)
    requires IsTable(ls, lp) && |ls| <= m && forall i :: 0 <= i < |ls| ==> ls[i] < m
    requires vec.Length == Pow2(m) && commSize == Pow2(|lp|) && commRank < commSize
    requires start + n <= Pow2(m - |ls|) && n * commSize <= |rvalues| && Addressed(indices, n, start, ls, lp)
    modifies vec
    ensures Written(old(vec[..]), vec[..], rvalues, n, start, commRank, m, ls, lp, commSize, 0)
  {
    ghost var before := vec[..];
    NothingWritten(vec[..], rvalues, n, start, commRank, m, ls, lp);
    WriteBlocks(vec, n, commSize, 0, commRank, rvalues, indices, before, start, commRank, m, ls, lp);
    NextBlock(before, vec[..], rvalues, n, start, commRank, m, ls, lp, commRank, 0);
    WriteBlocks(vec, n, commSize, commRank + 1, commSize, rvalues, indices, before, start, commRank, m, ls, lp);
  }

  // The blocks from first on and before last.
  method WriteBlocks(vec: array<Complex>, n: nat, commSize: nat, first: nat, last: nat, rvalues: seq<Complex>, indices: seq<nat>,
                     ghost before: seq<Complex>, ghost start: nat, ghost own: nat, ghost m: nat, ghost ls: seq<nat>, ghost lp: seq<nat>)
    requires IsTable(ls, lp) && Written(before, vec[..], rvalues, n, start, own, m, ls, lp, first, 0)
    requires first <= last <= commSize == Pow2(|lp|) && (last <= own || own < first) && start + n <= Pow2(m - |ls|)
    requires n * commSize <= |rvalues| && Addressed(indices, n, start, ls, lp)
    modifies vec
    ensures Written(before, vec[..], rvalues, n, start, own, m, ls, lp, last, 0)
  {
    for c := first to last
      invariant Written(before, vec[..], rvalues, n, start, own, m, ls, lp, c, 0)
    {
      WriteBlock(vec, n, commSize, c, rvalues, indices, before, start, own, m, ls, lp);
    }
  }

  lemma NothingWritten(vec: seq<Complex>, rvalues: seq<Complex>, n: nat, start: nat, own: nat, m: nat, ls: seq<nat>, lp: seq<nat>)
    requires IsTable(ls, lp) && |ls| <= m && |vec| == Pow2(m) && forall i :: 0 <= i < |ls| ==> ls[i] < m
    ensures Written(vec, vec, rvalues, n, start, own, m, ls, lp, 0, 0)
  {
    forall free, d | 0 <= free < Pow2(m - |ls|) && 0 <= d < Pow2(|lp|)
      ensures CellWritten(vec, vec, rvalues, n, start, own, ls, lp, 0, 0, free, d)
    {
      CellBound(ls, lp, free, d, m);
    }
  }

  // The next write of the loop below.
  lemma WriteAddressed(before: seq<Complex>, after: seq<Complex>, rvalues: seq<Complex>, indices: seq<nat>, n: nat, start: nat,
                     own: nat, m: nat, ls: seq<nat>, lp: seq<nat>, commSize: nat, block: nat, row: nat, ii: nat)
    requires Written(before, after, rvalues, n, start, own, m, ls, lp, block, row) && IsTable(ls, lp)
    requires block != own && block < commSize == Pow2(|lp|) && row < n && start + n <= Pow2(m - |ls|)
    requires n * commSize <= |rvalues| && Addressed(indices, n, start, ls, lp) && ii == Slot(n, block, row)
    ensures ii < |rvalues| && ii < |indices| && indices[ii] < |after|
    ensures Written(before, after[indices[ii] := rvalues[ii]], rvalues, n, start, own, m, ls, lp, block, row + 1)
  {
    SlotBound(n, block, row, commSize);
    WriteSlot(before, after, rvalues, n, start, own, m, ls, lp, block, row);
    assert SlotAddressed(indices, n, start, ls, lp, row, block);
  }

  method WriteBlock(vec: array<Complex>, n: nat, commSize: nat, c: nat, rvalues: seq<Complex>, indices: seq<nat>,
                    ghost before: seq<Complex>, ghost start: nat, ghost own: nat, ghost m: nat, ghost ls: seq<nat>, ghost lp: seq<nat>)
    requires IsTable(ls, lp) && Written(before, vec[..], rvalues, n, start, own, m, ls, lp, c, 0)
    requires c != own && c < commSize == Pow2(|lp|) && start + n <= Pow2(m - |ls|)
    requires n * commSize <= |rvalues| && Addressed(indices, n, start, ls, lp)
    modifies vec
    ensures Written(before, vec[..], rvalues, n, start, own, m, ls, lp, c + 1, 0)
  {
    for i := 0 to n
      invariant Written(before, vec[..], rvalues, n, start, own, m, ls, lp, c, i)
    {
      ghost var v := vec[..];
      var ii := n * c + i;
      WriteAddressed(before, v, rvalues, indices, n, start, own, m, ls, lp, commSize, c, i, ii);
      vec[indices[ii]] := rvalues[ii];
      assert vec[..] == v[indices[ii] := rvalues[ii]];
    }
    NextBlock(before, vec[..], rvalues, n, start, own, m, ls, lp, c, n);
  }

  // ----- the chunk size ---------------------------------------------------

  // calcSendCount, for 16-byte amplitudes.
  function CalcSendCount(commSize: nat, m: nat, maxSendBytes: nat): nat
    requires commSize > 0
  {
    ChunkSize(Pow2(m) / commSize, (maxSendBytes / 16) / commSize)
  }

  // At least 1, at most the rows there are.
  function ChunkSize(rows: nat, n0: nat): nat {
    var n1 := if n0 < 1 then 1 else n0;
    if rows < n1 then rows else n1
  }

  lemma {:induction false} DividePowers(a: nat, b: nat)
    requires b <= a
    ensures Pow2(a) / Pow2(b) == Pow2(a - b)
  {
    Pow2Sum(a - b, b);
    Quotient(Pow2(a), Pow2(b), Pow2(a - b));
  }

  lemma Quotient(x: nat, d: nat, q: nat)
    requires d > 0 && x == d * q
    ensures x / d == q
  {
    Remainder(x, d, q, 0);
    var q' := x / d;
    assert d * q' == d * q;
    if q < q' {
      NextMultiple(d, q, q');
    } else if q' < q {
      NextMultiple(d, q', q);
    }
  }

  // With 2^e amplitudes per buffer and 2^nBits members, the chunks divide the
  // array evenly, and they fit the buffers exactly when nBits <= e.
  lemma SendCountFits(nBits: nat, m: nat, e: nat) returns (rounds: nat)
    requires nBits <= m
    ensures var n := CalcSendCount(Pow2(nBits), m, 16 * Pow2(e));
            && n > 0 && n * rounds == Pow2(m - nBits)
            && (n * Pow2(nBits) <= Pow2(e) <==> nBits <= e)
  {
    DividePowers(m, nBits);
    var j := if nBits <= e && e - nBits < m - nBits then e - nBits else if nBits <= e then m - nBits else 0;
    SendCountIsPower(nBits, m, e, j);
    rounds := Pow2(m - nBits - j);
    Pow2Sum(j, m - nBits - j);
    Pow2Sum(j, nBits);
    if nBits > e {
      Pow2Grows(e, nBits);
    } else if j + nBits < e {
      Pow2Grows(j + nBits, e);
    }
  }

  lemma SendCountIsPower(nBits: nat, m: nat, e: nat, j: nat)
    requires nBits <= m
    requires j == if nBits <= e && e - nBits < m - nBits then e - nBits else if nBits <= e then m - nBits else 0
    ensures CalcSendCount(Pow2(nBits), m, 16 * Pow2(e)) == Pow2(j)
  {
    DividePowers(m, nBits);
    Quota(nBits, e);
    var rows, n0 := Pow2(m) / Pow2(nBits), ((16 * Pow2(e)) / 16) / Pow2(nBits);
    SmallerPower(nBits, m, e, j, rows, n0);
  }

  lemma SmallerPower(nBits: nat, m: nat, e: nat, j: nat, rows: nat, n0: nat)
    requires nBits <= m
    requires j == if nBits <= e && e - nBits < m - nBits then e - nBits else if nBits <= e then m - nBits else 0
    requires rows == Pow2(m - nBits) && n0 == if nBits <= e then Pow2(e - nBits) else 0
    ensures ChunkSize(rows, n0) == Pow2(j)
  {
    if nBits <= e {
      PowersOrdered(m - nBits, e - nBits);
    }
  }

  lemma Quota(nBits: nat, e: nat)
    ensures ((16 * Pow2(e)) / 16) / Pow2(nBits) == if nBits <= e then Pow2(e - nBits) else 0
  {
    SixteenBytes(Pow2(e));
    if nBits <= e {
      DividePowers(e, nBits);
    } else {
      Pow2Grows(e, nBits);
      SmallQuotient(Pow2(e), Pow2(nBits));
    }
  }

  lemma SixteenBytes(k: nat)
    ensures (16 * k) / 16 == k
  {
  }

  lemma SmallQuotient(a: nat, b: nat)
    requires a < b
    ensures a / b == 0
  {
  }

  // ----- one round --------------------------------------------------------

  // What has been exchanged after the first `done` free indices.
  ghost predicate CellMoved(vec: seq<seq<Complex>>, vec': seq<seq<Complex>>, gs: seq<nat>, ls: seq<nat>, lp: seq<nat>,
                            done: nat, r: nat, free: nat, d: nat) {
    if free < done then CellExchanged(vec, vec', gs, ls, lp, r, free, d)
    else
      var x := Cell(ls, lp, free, d);
      r < |vec| && r < |vec'| && x < |vec[r]| && x < |vec'[r]| && vec'[r][x] == vec[r][x]
  }

  ghost predicate MovedUpTo(vec: seq<seq<Complex>>, vec': seq<seq<Complex>>, m: nat, gs: seq<nat>, ls: seq<nat>, lp: seq<nat>, done: nat) {
    && |vec'| == |vec| && |ls| <= m
    && (forall r :: 0 <= r < |vec| ==> |vec[r]| == Pow2(m))
    && (forall r :: 0 <= r < |vec'| ==> |vec'[r]| == Pow2(m))
    && forall r, free, d {:trigger CellMoved(vec, vec', gs, ls, lp, done, r, free, d)} ::
         0 <= r < |vec| && 0 <= free < Pow2(m - |ls|) && 0 <= d < Pow2(|lp|) ==>
           CellMoved(vec, vec', gs, ls, lp, done, r, free, d)
  }

  lemma NothingMoved(vec: seq<seq<Complex>>, m: nat, gs: seq<nat>, ls: seq<nat>, lp: seq<nat>)
    requires IsTable(ls, lp) && |ls| <= m && forall i :: 0 <= i < |ls| ==> ls[i] < m
    requires forall r :: 0 <= r < |vec| ==> |vec[r]| == Pow2(m)
    ensures MovedUpTo(vec, vec, m, gs, ls, lp, 0)
  {
    forall r, free, d | 0 <= r < |vec| && 0 <= free < Pow2(m - |ls|) && 0 <= d < Pow2(|lp|)
      ensures CellMoved(vec, vec, gs, ls, lp, 0, r, free, d)
    {
      CellBound(ls, lp, free, d, m);
    }
  }

  lemma AllMoved(vec: seq<seq<Complex>>, vec': seq<seq<Complex>>, m: nat, gs: seq<nat>, ls: seq<nat>, lp: seq<nat>)
    requires |ls| <= m && MovedUpTo(vec, vec', m, gs, ls, lp, Pow2(m - |ls|))
    ensures Exchanged(vec, vec', m, gs, ls, lp)
  {
    forall r, free, d | 0 <= r < |vec| && 0 <= free < Pow2(m - |ls|) && 0 <= d < Pow2(|lp|)
      ensures CellExchanged(vec, vec', gs, ls, lp, r, free, d)
    {
      assert CellMoved(vec, vec', gs, ls, lp, Pow2(m - |ls|), r, free, d);
    }
  }

  // all_to_all for rank r, the own-th member of its communicator: the i-th
  // block it receives is the own-th block the i-th member sends.
  function Received(sent: seq<seq<Complex>>, comm: seq<nat>, own: nat, n: nat, zero: Complex): seq<Complex> {
    seq(n * |comm|, s requires 0 <= s =>
          if n > 0 && s / n < |comm| && comm[s / n] < |sent| && Slot(n, own, s % n) < |sent[comm[s / n]]|
          then sent[comm[s / n]][Slot(n, own, s % n)] else zero)
  }

  lemma ReceivedSlot(sent: seq<seq<Complex>>, comm: seq<nat>, own: nat, n: nat, zero: Complex, d: nat, i: nat)
    requires d < |comm| && i < n && comm[d] < |sent| && Slot(n, own, i) < |sent[comm[d]]|
    ensures Slot(n, d, i) < n * |comm|
    ensures Received(sent, comm, own, n, zero)[Slot(n, d, i)] == sent[comm[d]][Slot(n, own, i)]
  {
    SlotBound(n, d, i, |comm|);
    Remainder(Slot(n, d, i), n, d, i);
    SameFactor(n, Slot(n, d, i) / n, d);
  }

  lemma SameFactor(n: nat, a: nat, b: nat)
    requires n > 0 && n * a == n * b
    ensures a == b
  {
    MoreMultiples(n, a, b);
    MoreMultiples(n, b, a);
  }

  // The buffers all ranks have filled for one chunk.
  ghost predicate AllFilled(vec: seq<seq<Complex>>, sent: seq<seq<Complex>>, indices: seq<seq<nat>>, n: nat, start: nat,
                            ls: seq<nat>, lp: seq<nat>, ranks: nat) {
    && ranks <= |vec| && |sent| == |indices| == ranks
    && forall r :: 0 <= r < ranks ==> Filled(vec[r], sent[r], indices[r], n, start, ls, lp)
  }

  // What rank r, the own-th member of its communicator, has after writing what it received.
  ghost predicate RankDone(vec: seq<seq<Complex>>, row: seq<Complex>, sent: seq<seq<Complex>>, zero: Complex, r: nat,
                           n: nat, start: nat, m: nat, gs: seq<nat>, ls: seq<nat>, lp: seq<nat>)
  {
    var comm, own := Members(r, gs), Gather(r, gs, |gs|);
    && r < |vec| && |gs| == |lp|
    && (forall c :: 0 <= c < |comm| ==> comm[c] < |vec|)
    && Written(vec[r], row, Received(sent, comm, own, n, zero), n, start, own, m, ls, lp, Pow2(|lp|), 0)
  }

  // It has moved one more chunk ...
  lemma ChunkMoved(vec0: seq<seq<Complex>>, vec: seq<seq<Complex>>, row: seq<Complex>, sent: seq<seq<Complex>>, indices: seq<seq<nat>>,
                   zero: Complex, r: nat, n: nat, start: nat, m: nat, gs: seq<nat>, ls: seq<nat>, lp: seq<nat>, free: nat, d: nat)
    requires Increasing(gs) && MovedUpTo(vec0, vec, m, gs, ls, lp, start)
    requires AllFilled(vec, sent, indices, n, start, ls, lp, |vec|) && RankDone(vec, row, sent, zero, r, n, start, m, gs, ls, lp)
    requires start <= free < start + n <= Pow2(m - |ls|) && d < Pow2(|lp|)
    ensures CellExchanged(vec0, vec[r := row], gs, ls, lp, r, free, d)
  {
    var comm, own := Members(r, gs), Gather(r, gs, |gs|);
    assert CellWritten(vec[r], row, Received(sent, comm, own, n, zero), n, start, own, ls, lp, Pow2(|lp|), 0, free, d);
    MemberOfSameColor(r, r, gs);
    assert comm[d] == Member(r, gs, d);
    ValueSent(vec0, vec, sent, indices, comm[d], n, start, m, gs, ls, lp, free, own);
    if d != own {
      ReceivedSlot(sent, comm, own, n, zero, d, free - start);
    }
  }

  // ... and nothing else.
  lemma OthersStay(vec0: seq<seq<Complex>>, vec: seq<seq<Complex>>, row: seq<Complex>, sent: seq<seq<Complex>>,
                   zero: Complex, r: nat, n: nat, start: nat, m: nat, gs: seq<nat>, ls: seq<nat>, lp: seq<nat>, free: nat, d: nat)
    requires MovedUpTo(vec0, vec, m, gs, ls, lp, start) && RankDone(vec, row, sent, zero, r, n, start, m, gs, ls, lp)
    requires free < Pow2(m - |ls|) && !(start <= free < start + n) && d < Pow2(|lp|)
    ensures CellMoved(vec0, vec[r := row], gs, ls, lp, start + n, r, free, d)
  {
    var comm, own := Members(r, gs), Gather(r, gs, |gs|);
    assert CellMoved(vec0, vec, gs, ls, lp, start, r, free, d);
    assert CellWritten(vec[r], row, Received(sent, comm, own, n, zero), n, start, own, ls, lp, Pow2(|lp|), 0, free, d);
  }

  // The own-th block sent by rank r' holds its old amplitudes of the chunk.
  lemma ValueSent(vec0: seq<seq<Complex>>, vec: seq<seq<Complex>>, sent: seq<seq<Complex>>, indices: seq<seq<nat>>, r': nat,
                  n: nat, start: nat, m: nat, gs: seq<nat>, ls: seq<nat>, lp: seq<nat>, free: nat, own: nat)
    requires MovedUpTo(vec0, vec, m, gs, ls, lp, start) && AllFilled(vec, sent, indices, n, start, ls, lp, |vec|)
    requires r' < |vec| && start <= free < start + n <= Pow2(m - |ls|) && own < Pow2(|lp|)
    ensures var s, x := Slot(n, own, free - start), Cell(ls, lp, free, own);
            && s < |sent[r']| && x < |vec[r']| == |vec0[r']|
            && sent[r'][s] == vec0[r'][x] == vec[r'][x]
  {
    assert CellMoved(vec0, vec, gs, ls, lp, start, r', free, own);
    assert SlotFilled(vec[r'], sent[r'], indices[r'], n, start, ls, lp, free - start, own);
  }

  lemma RoundMoved(vec0: seq<seq<Complex>>, vec: seq<seq<Complex>>, vec': seq<seq<Complex>>, sent: seq<seq<Complex>>,
                   indices: seq<seq<nat>>, zero: Complex, n: nat, start: nat, m: nat, gs: seq<nat>, ls: seq<nat>, lp: seq<nat>)
    requires Increasing(gs) && MovedUpTo(vec0, vec, m, gs, ls, lp, start) && start + n <= Pow2(m - |ls|)
    requires AllFilled(vec, sent, indices, n, start, ls, lp, |vec|) && |vec'| == |vec|
    requires forall r :: 0 <= r < |vec| ==> RankDone(vec, vec'[r], sent, zero, r, n, start, m, gs, ls, lp)
    ensures MovedUpTo(vec0, vec', m, gs, ls, lp, start + n)
  {
    var done := start + n;
    forall r, free, d | 0 <= r < |vec| && 0 <= free < Pow2(m - |ls|) && 0 <= d < Pow2(|lp|)
      ensures CellMoved(vec0, vec', gs, ls, lp, done, r, free, d)
    {
      if start <= free < start + n {
        ChunkMoved(vec0, vec, vec'[r], sent, indices, zero, r, n, start, m, gs, ls, lp, free, d);
        assert CellExchanged(vec0, vec[r := vec'[r]], gs, ls, lp, r, free, d);
      } else {
        OthersStay(vec0, vec, vec'[r], sent, zero, r, n, start, m, gs, ls, lp, free, d);
        assert CellMoved(vec0, vec[r := vec'[r]], gs, ls, lp, done, r, free, d);
      }
    }
    forall r | 0 <= r < |vec'| ensures |vec'[r]| == Pow2(m) {
      assert RankDone(vec, vec'[r], sent, zero, r, n, start, m, gs, ls, lp);
    }
  }
}
