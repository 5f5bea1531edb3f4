// Indices as bit strings: powers of two, single bits, inserting zero bits,
// spreading the bits of a number over given positions.

module Bits {
  import opened Sequences

  function Pow2(k: nat): (r: nat)
    ensures r >= 1
  {
    if k == 0 then 1 else 2 * Pow2(k - 1)
  }

  function Bit(x: nat, k: nat): bool {
    if k == 0 then x % 2 == 1 else Bit(x / 2, k - 1)
  }

  function Or(a: nat, b: nat): nat
    decreases a + b
  {
    if a == 0 then b else if b == 0 then a
    else 2 * Or(a / 2, b / 2) + if a % 2 == 1 || b % 2 == 1 then 1 else 0
  }

  // ----- single bits ------------------------------------------------------

  lemma {:induction false} BitOfZero(k: nat)
    ensures !Bit(0, k)
  {
    if k > 0 { BitOfZero(k - 1); }
  }

  lemma {:induction false} Pow2Grows(a: nat, b: nat)
    requires a < b
    ensures Pow2(a) < Pow2(b)
  {
    if a < b - 1 { Pow2Grows(a, b - 1); }
  }

  lemma {:induction false} Pow2Sum(a: nat, b: nat)
    ensures Pow2(a + b) == Pow2(a) * Pow2(b)
  {
    if a > 0 { Pow2Sum(a - 1, b); }
  }

  lemma {:induction false} Pow2Bits(k: nat, j: nat)
    ensures Bit(Pow2(k), j) <==> j == k
  {
    if k == 0 {
      if j > 0 { BitOfZero(j - 1); }
    } else if j > 0 {
      Pow2Bits(k - 1, j - 1);
    }
  }

  // A number below 2^m has no bit from m on.
  lemma {:induction false} HighBits(x: nat, m: nat, k: nat)
    requires x < Pow2(m) && m <= k
    ensures !Bit(x, k)
  {
    if m == 0 {
      BitOfZero(k);
    } else {
      HighBits(x / 2, m - 1, k - 1);
    }
  }

  lemma {:induction false} BoundedByBits(x: nat, m: nat)
    requires forall k: nat :: k >= m ==> !Bit(x, k)
    ensures x < Pow2(m)
  {
    if x == 0 {
    } else if m == 0 {
      var k := TopBit(x);
      assert false;
    } else {
      forall k: nat | k >= m - 1 ensures !Bit(x / 2, k) {
        assert !Bit(x, k + 1);
      }
      BoundedByBits(x / 2, m - 1);
    }
  }

  lemma {:induction false} TopBit(x: nat) returns (k: nat)
    requires x > 0
    ensures Bit(x, k)
  {
    if x == 1 {
      k := 0;
    } else {
      k := TopBit(x / 2);
      k := k + 1;
    }
  }

  // Numbers with the same bits are equal.
  lemma {:induction false} SameBits(x: nat, y: nat)
    requires forall k: nat :: Bit(x, k) == Bit(y, k)
    ensures x == y
    decreases x + y
  {
    if x != 0 || y != 0 {
      forall k: nat ensures Bit(x / 2, k) == Bit(y / 2, k) {
        assert Bit(x, k + 1) == Bit(y, k + 1);
      }
      assert Bit(x, 0) == Bit(y, 0);
      SameBits(x / 2, y / 2);
    }
  }

  lemma {:induction false} OrBits(a: nat, b: nat, k: nat)
    ensures Bit(Or(a, b), k) == (Bit(a, k) || Bit(b, k))
    decreases a + b
  {
    if a == 0 || b == 0 {
      BitOfZero(k);
    } else if k > 0 {
      OrBits(a / 2, b / 2, k - 1);
    }
  }

  // Numbers without a common bit are added like they are combined.
  lemma {:induction false} DisjointSum(a: nat, b: nat)
    requires forall k: nat :: !(Bit(a, k) && Bit(b, k))
    ensures a + b == Or(a, b)
    decreases a + b
  {
    if a != 0 && b != 0 {
      forall k: nat ensures !(Bit(a / 2, k) && Bit(b / 2, k)) {
        assert !(Bit(a, k + 1) && Bit(b, k + 1));
      }
      assert !(Bit(a, 0) && Bit(b, 0));
      DisjointSum(a / 2, b / 2);
    }
  }

  lemma DisjointSumBits(a: nat, b: nat, k: nat)
    requires forall k: nat :: !(Bit(a, k) && Bit(b, k))
    ensures Bit(a + b, k) == (Bit(a, k) || Bit(b, k))
  {
    DisjointSum(a, b);
    OrBits(a, b, k);
  }

  // ----- inserting a zero bit ---------------------------------------------

  // One step of the loop over the bits in doCalc, for the bit with value w.
  function InsertZero(x: nat, w: nat): nat
    requires w > 0
  {
    var l := x % w;
    var r := x - l;
    2 * r + l
  }

  lemma InsertZeroHalf(x: nat, w: nat)
    requires w > 0
    ensures InsertZero(x, 2 * w) / 2 == InsertZero(x / 2, w) && InsertZero(x, 2 * w) % 2 == x % 2
  {
    var a, e := x / 2, x % 2;
    var q, l := a / w, a % w;
    assert x == (2 * w) * q + (2 * l + e) by {
      assert a == w * q + l;
      assert (2 * w) * q == 2 * (w * q);
    }
    Remainder(x, 2 * w, q, 2 * l + e);
  }

  lemma Remainder(x: nat, d: nat, q: nat, r: nat)
    requires r < d && x == d * q + r
    ensures x % d == r
  {
    var q', r' := x / d, x % d;
    assert x == d * q' + r';
    if q < q' {
      NextMultiple(d, q, q');
    } else if q' < q {
      NextMultiple(d, q', q);
    }
  }

  lemma NextMultiple(d: nat, a: nat, b: nat)
    requires a < b
    ensures d * a + d <= d * b
  {
    assert d * (a + 1) <= d * b by { MultiplesGrow(d, a + 1, b); }
  }

  lemma MoreMultiples(n: nat, a: nat, b: nat)
    ensures a < b ==> n * a + n <= n * b
  {
    if a < b { NextMultiple(n, a, b); }
  }

  lemma {:induction false} MultiplesGrow(d: nat, a: nat, b: nat)
    requires a <= b
    ensures d * a <= d * b
  {
    if a < b { MultiplesGrow(d, a, b - 1); }
  }

  lemma {:induction false} InsertZeroBits(x: nat, p: nat, k: nat)
    ensures Bit(InsertZero(x, Pow2(p)), k) == if k < p then Bit(x, k) else k > p && Bit(x, k - 1)
  {
    if p == 0 {
      assert InsertZero(x, 1) == 2 * x;
    } else {
      InsertZeroHalf(x, Pow2(p - 1));
      if k > 0 {
        InsertZeroBits(x / 2, p - 1, k - 1);
      }
    }
  }

  // ----- several positions ------------------------------------------------

  // Zero bits inserted at the first k positions, lowest first.
  function ZeroInsert(x: nat, ps: seq<nat>, k: nat): nat
    requires k <= |ps|
  {
    if k == 0 then x else InsertZero(ZeroInsert(x, ps, k - 1), Pow2(ps[k - 1]))
  }

  // The first k bits of d, bit i moved to position ps[i].
  function Scatter(d: nat, ps: seq<nat>, k: nat): nat
    requires k <= |ps|
  {
    if k == 0 then 0 else Or(Scatter(d, ps, k - 1), if Bit(d, k - 1) then Pow2(ps[k - 1]) else 0)
  }

  // The inverse: the bits at the first k positions.
  function Gather(x: nat, ps: seq<nat>, k: nat): (d: nat)
    requires k <= |ps|
    ensures d < Pow2(k)
  {
    if k == 0 then 0 else Gather(x, ps, k - 1) + if Bit(x, ps[k - 1]) then Pow2(k - 1) else 0
  }

  lemma {:induction false} ZeroBits(x: nat, ps: seq<nat>, k: nat, i: nat)
    requires Increasing(ps) && i < k <= |ps|
    ensures !Bit(ZeroInsert(x, ps, k), ps[i])
  {
    InsertZeroBits(ZeroInsert(x, ps, k - 1), ps[k - 1], ps[i]);
    if i < k - 1 {
      ZeroBits(x, ps, k - 1, i);
    }
  }

  lemma {:induction false} InsertZeroInjective(x: nat, y: nat, p: nat)
    requires InsertZero(x, Pow2(p)) == InsertZero(y, Pow2(p))
    ensures x == y
  {
    forall k: nat ensures Bit(x, k) == Bit(y, k) {
      var j := if k < p then k else k + 1;
      InsertZeroBits(x, p, j);
      InsertZeroBits(y, p, j);
    }
    SameBits(x, y);
  }

  lemma {:induction false} ZeroInsertInjective(x: nat, y: nat, ps: seq<nat>, k: nat)
    requires k <= |ps| && ZeroInsert(x, ps, k) == ZeroInsert(y, ps, k)
    ensures x == y
  {
    if k > 0 {
      InsertZeroInjective(ZeroInsert(x, ps, k - 1), ZeroInsert(y, ps, k - 1), ps[k - 1]);
      ZeroInsertInjective(x, y, ps, k - 1);
    }
  }

  lemma {:induction false} ScatterBits(d: nat, ps: seq<nat>, k: nat, j: nat)
    requires k <= |ps|
    ensures Bit(Scatter(d, ps, k), j) <==> exists i :: 0 <= i < k && ps[i] == j && Bit(d, i)
  {
    if k == 0 {
      BitOfZero(j);
    } else {
      ScatterBits(d, ps, k - 1, j);
      var b := if Bit(d, k - 1) then Pow2(ps[k - 1]) else 0;
      OrBits(Scatter(d, ps, k - 1), b, j);
      Pow2Bits(ps[k - 1], j);
      BitOfZero(j);
    }
  }

  lemma {:induction false} GatherBits(x: nat, ps: seq<nat>, k: nat, i: nat)
    requires k <= |ps|
    ensures Bit(Gather(x, ps, k), i) <==> i < k && Bit(x, ps[i])
  {
    if k == 0 {
      BitOfZero(i);
    } else {
      var g := Gather(x, ps, k - 1);
      if Bit(x, ps[k - 1]) {
        forall j: nat ensures !(Bit(g, j) && Bit(Pow2(k - 1), j)) {
          Pow2Bits(k - 1, j);
          HighBits(g, k - 1, k - 1);
        }
        DisjointSumBits(g, Pow2(k - 1), i);
        Pow2Bits(k - 1, i);
      }
      GatherBits(x, ps, k - 1, i);
    }
  }

  // ----- clearing and removing bits ---------------------------------------

  function AndNot(a: nat, b: nat): nat {
    if a == 0 then 0 else 2 * AndNot(a / 2, b / 2) + if a % 2 == 1 && b % 2 == 0 then 1 else 0
  }

  lemma {:induction false} AndNotBits(a: nat, b: nat, k: nat)
    ensures Bit(AndNot(a, b), k) == (Bit(a, k) && !Bit(b, k))
  {
    if a == 0 {
      BitOfZero(k);
    } else if k > 0 {
      AndNotBits(a / 2, b / 2, k - 1);
    }
  }

  function RemoveBit(x: nat, p: nat): nat {
    if p == 0 then x / 2 else 2 * RemoveBit(x / 2, p - 1) + x % 2
  }

  lemma {:induction false} RemoveBitBits(x: nat, p: nat, k: nat)
    ensures Bit(RemoveBit(x, p), k) == if k < p then Bit(x, k) else Bit(x, k + 1)
  {
    if p > 0 && k > 0 {
      RemoveBitBits(x / 2, p - 1, k - 1);
    }
  }

  // The number whose zero bits at the first k positions have been taken out.
  function Extract(x: nat, ps: seq<nat>, k: nat): nat
    requires k <= |ps|
    decreases k
  {
    if k == 0 then x else Extract(RemoveBit(x, ps[k - 1]), ps, k - 1)
  }

  lemma {:induction false} ExtractThenInsert(x: nat, ps: seq<nat>, k: nat)
    requires Increasing(ps) && k <= |ps| && forall i :: 0 <= i < k ==> !Bit(x, ps[i])
    ensures ZeroInsert(Extract(x, ps, k), ps, k) == x
    decreases k
  {
    if k > 0 {
      var p := ps[k - 1];
      var y := RemoveBit(x, p);
      forall i | 0 <= i < k - 1 ensures !Bit(y, ps[i]) {
        RemoveBitBits(x, p, ps[i]);
      }
      ExtractThenInsert(y, ps, k - 1);
      forall j: nat ensures Bit(InsertZero(y, Pow2(p)), j) == Bit(x, j) {
        InsertZeroBits(y, p, j);
        if j != p {
          RemoveBitBits(x, p, if j < p then j else j - 1);
        }
      }
      SameBits(InsertZero(y, Pow2(p)), x);
    }
  }

  lemma {:induction false} ExtractBound(x: nat, ps: seq<nat>, k: nat, m: nat)
    requires Increasing(ps) && k <= |ps| && x < Pow2(m) && k <= m && forall i :: 0 <= i < k ==> ps[i] < m
    ensures Extract(x, ps, k) < Pow2(m - k)
    decreases k
  {
    if k > 0 {
      var y := RemoveBit(x, ps[k - 1]);
      forall j: nat | j >= m - 1 ensures !Bit(y, j) {
        RemoveBitBits(x, ps[k - 1], j);
        HighBits(x, m, j + 1);
      }
      BoundedByBits(y, m - 1);
      ExtractBound(y, ps, k - 1, m - 1);
    }
  }

  // With the k lowest of the positions below m filled in, k + rest <= m bits are in use.
  lemma {:induction false} InsertBound(x: nat, ps: seq<nat>, k: nat, m: nat)
    requires Increasing(ps) && k <= |ps| && k <= m && x < Pow2(m - k) && forall i :: 0 <= i < k ==> ps[i] < m
    ensures ZeroInsert(x, ps, k) < Pow2(m)
  {
    if k > 0 {
      var y := ZeroInsert(x, ps, k - 1);
      assert k > 1 ==> ps[k - 2] < ps[k - 1];
      InsertBound(x, ps, k - 1, m - 1);
      var z := InsertZero(y, Pow2(ps[k - 1]));
      forall j: nat | j >= m ensures !Bit(z, j) {
        InsertZeroBits(y, ps[k - 1], j);
        HighBits(y, m - 1, j - 1);
      }
      BoundedByBits(z, m);
    }
  }

  // ----- order ------------------------------------------------------------

  ghost predicate LessAt(a: nat, b: nat, k: nat) {
    !Bit(a, k) && Bit(b, k) && forall j: nat :: j > k ==> Bit(a, j) == Bit(b, j)
  }

  lemma {:induction false} LessFromBits(a: nat, b: nat, k: nat)
    requires LessAt(a, b, k)
    ensures a < b
  {
    forall j: nat | j >= k ensures Bit(a / 2, j) == Bit(b / 2, j) {
      assert Bit(a, j + 1) == Bit(b, j + 1);
    }
    if k == 0 {
      SameBits(a / 2, b / 2);
    } else {
      assert Bit(a / 2, k - 1) == Bit(a, k) && Bit(b / 2, k - 1) == Bit(b, k);
      LessFromBits(a / 2, b / 2, k - 1);
    }
  }

  lemma {:induction false} BitsFromLess(a: nat, b: nat) returns (k: nat)
    requires a < b
    ensures LessAt(a, b, k)
    decreases b
  {
    if a / 2 == b / 2 {
      k := 0;
      forall j: nat | j > 0 ensures Bit(a, j) == Bit(b, j) {
        assert Bit(a, j) == Bit(a / 2, j - 1) && Bit(b, j) == Bit(b / 2, j - 1);
      }
    } else {
      k := BitsFromLess(a / 2, b / 2);
      forall j: nat | j > k + 1 ensures Bit(a, j) == Bit(b, j) {
        assert Bit(a, j) == Bit(a / 2, j - 1) && Bit(b, j) == Bit(b / 2, j - 1);
      }
      k := k + 1;
    }
  }
}
