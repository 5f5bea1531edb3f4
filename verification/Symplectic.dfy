// Linear algebra over GF(2) behind the stabilizer tableau: rows of x and z
// bits, the symplectic product that says whether two rows anticommute, and
// symplectic bases.

module Symplectic {

  // ----- parities ---------------------------------------------------------

  ghost function Parity(s: seq<bool>): bool {
    if s == [] then false else Parity(s[..|s| - 1]) != s[|s| - 1]
  }

  function XorAll(s: seq<bool>, t: seq<bool>): seq<bool>
    requires |s| == |t|
  {
    seq(|s|, j requires 0 <= j < |s| => s[j] != t[j])
  }

  lemma {:induction false} ParityXor(s: seq<bool>, t: seq<bool>)
    requires |s| == |t|
    ensures Parity(XorAll(s, t)) == (Parity(s) != Parity(t))
  {
    if s != [] {
      var m := |s| - 1;
      ParityXor(s[..m], t[..m]);
      assert XorAll(s, t)[..m] == XorAll(s[..m], t[..m]);
    }
  }

  lemma {:induction false} ParityUpdate(s: seq<bool>, i: nat, b: bool)
    requires i < |s|
    ensures Parity(s[i := b]) == (Parity(s) != (s[i] != b))
  {
    var m := |s| - 1;
    if i == m {
      assert s[i := b][..m] == s[..m];
    } else {
      ParityUpdate(s[..m], i, b);
      assert s[i := b][..m] == s[..m][i := b];
    }
  }

  lemma {:induction false} ParityOfNone(s: seq<bool>)
    requires forall j :: 0 <= j < |s| ==> !s[j]
    ensures !Parity(s)
  {
    if s != [] {
      ParityOfNone(s[..|s| - 1]);
    }
  }

  // The parity of a sequence with at most one true entry.
  lemma ParityOfOne(s: seq<bool>, i: nat)
    requires i < |s| && forall j :: 0 <= j < |s| && j != i ==> !s[j]
    ensures Parity(s) == s[i]
  {
    ParityUpdate(s, i, false);
    ParityOfNone(s[i := false]);
  }

  // ----- rows -------------------------------------------------------------

  datatype Row = Row(x: seq<bool>, z: seq<bool>)

  ghost predicate IsRow(a: Row, n: nat) {
    |a.x| == n && |a.z| == n
  }

  function Zero(n: nat): Row {
    Row(seq(n, _ => false), seq(n, _ => false))
  }

  function XAt(n: nat, q: nat): Row {
    Row(seq(n, j => j == q), seq(n, _ => false))
  }

  function ZAt(n: nat, q: nat): Row {
    Row(seq(n, _ => false), seq(n, j => j == q))
  }

  function Add(a: Row, b: Row): Row
    requires |a.x| == |b.x| && |a.z| == |b.z|
  {
    Row(XorAll(a.x, b.x), XorAll(a.z, b.z))
  }

  // Whether the two rows anticommute at qubit j.
  ghost predicate Clash(a: Row, b: Row, j: nat)
    requires j < |a.x| && j < |a.z| && j < |b.x| && j < |b.z|
  {
    (a.x[j] && b.z[j]) != (a.z[j] && b.x[j])
  }

  ghost function Clashes(a: Row, b: Row): seq<bool>
    requires |a.x| == |a.z| == |b.x| == |b.z|
  {
    seq(|a.x|, j requires 0 <= j < |a.x| => Clash(a, b, j))
  }

  // The symplectic product: true iff the rows anticommute.
  ghost predicate Sp(a: Row, b: Row)
    requires |a.x| == |a.z| == |b.x| == |b.z|
  {
    Parity(Clashes(a, b))
  }

  lemma SpSymmetric(a: Row, b: Row)
    requires |a.x| == |a.z| == |b.x| == |b.z|
    ensures Sp(a, b) == Sp(b, a)
  {
    assert Clashes(a, b) == Clashes(b, a);
  }

  lemma SpAdd(a: Row, b: Row, c: Row)
    requires |a.x| == |a.z| == |b.x| == |b.z| == |c.x| == |c.z|
    ensures Sp(Add(a, b), c) == (Sp(a, c) != Sp(b, c))
    ensures Sp(c, Add(a, b)) == (Sp(c, a) != Sp(c, b))
  {
    assert Clashes(Add(a, b), c) == XorAll(Clashes(a, c), Clashes(b, c));
    assert Clashes(c, Add(a, b)) == XorAll(Clashes(c, a), Clashes(c, b));
    ParityXor(Clashes(a, c), Clashes(b, c));
    ParityXor(Clashes(c, a), Clashes(c, b));
  }

  lemma SpSelf(a: Row)
    requires |a.x| == |a.z|
    ensures !Sp(a, a)
  {
    ParityOfNone(Clashes(a, a));
  }

  // The product with a single Z or X reads off one bit.
  lemma SpUnits(a: Row, n: nat, q: nat)
    requires IsRow(a, n) && q < n
    ensures Sp(a, ZAt(n, q)) == a.x[q] && Sp(ZAt(n, q), a) == a.x[q]
    ensures Sp(a, XAt(n, q)) == a.z[q]
  {
    ParityOfOne(Clashes(a, ZAt(n, q)), q);
    ParityOfOne(Clashes(a, XAt(n, q)), q);
    SpSymmetric(a, ZAt(n, q));
  }

  lemma SpZero(a: Row, n: nat)
    requires IsRow(a, n)
    ensures !Sp(a, Zero(n)) && !Sp(Zero(n), a)
  {
    ParityOfNone(Clashes(a, Zero(n)));
    ParityOfNone(Clashes(Zero(n), a));
  }

  // ----- sums of rows -----------------------------------------------------

  ghost predicate AreRows(rows: seq<Row>, n: nat) {
    forall i :: 0 <= i < |rows| ==> IsRow(rows[i], n)
  }

  // The sum of the first k rows that are selected.
  ghost function SumRows(n: nat, rows: seq<Row>, sel: seq<bool>, k: nat): (r: Row)
    requires AreRows(rows, n) && |sel| == |rows| && k <= |rows|
    ensures IsRow(r, n)
  {
    if k == 0 then Zero(n)
    else if sel[k - 1] then Add(SumRows(n, rows, sel, k - 1), rows[k - 1])
    else SumRows(n, rows, sel, k - 1)
  }

  ghost function SelectedProducts(n: nat, rows: seq<Row>, sel: seq<bool>, v: Row, k: nat): seq<bool>
    requires AreRows(rows, n) && |sel| == |rows| && k <= |rows| && IsRow(v, n)
  {
    seq(k, i requires 0 <= i < k => sel[i] && Sp(rows[i], v))
  }

  lemma {:induction false} SpSum(n: nat, rows: seq<Row>, sel: seq<bool>, v: Row, k: nat)
    requires AreRows(rows, n) && |sel| == |rows| && k <= |rows| && IsRow(v, n)
    ensures Sp(SumRows(n, rows, sel, k), v) == Parity(SelectedProducts(n, rows, sel, v, k))
  {
    if k == 0 {
      SpZero(v, n);
    } else {
      SpSum(n, rows, sel, v, k - 1);
      var s := SelectedProducts(n, rows, sel, v, k);
      assert s[..k - 1] == SelectedProducts(n, rows, sel, v, k - 1);
      SpAdd(SumRows(n, rows, sel, k - 1), rows[k - 1], v);
    }
  }

  // A row that meets only one of the summands.
  lemma SpSumOfOne(n: nat, rows: seq<Row>, sel: seq<bool>, v: Row, i: nat)
    requires AreRows(rows, n) && |sel| == |rows| && IsRow(v, n) && i < |rows|
    requires forall j :: 0 <= j < |rows| && j != i ==> !Sp(rows[j], v)
    ensures Sp(SumRows(n, rows, sel, |rows|), v) == (sel[i] && Sp(rows[i], v))
  {
    SpSum(n, rows, sel, v, |rows|);
    ParityOfOne(SelectedProducts(n, rows, sel, v, |rows|), i);
  }

  lemma MeetsOneSummand(n: nat, rows: seq<Row>, sel: seq<bool>, v: Row, i: nat)
    requires AreRows(rows, n) && |sel| == |rows| && IsRow(v, n) && i < |rows| && sel[i]
    requires forall j :: 0 <= j < |rows| && j != i ==> !Sp(v, rows[j])
    ensures Sp(v, SumRows(n, rows, sel, |rows|)) == Sp(v, rows[i])
  {
    forall j | 0 <= j < |rows| ensures Sp(rows[j], v) == Sp(v, rows[j]) {
      SpSymmetric(v, rows[j]);
    }
    SpSumOfOne(n, rows, sel, v, i);
    SpSymmetric(v, SumRows(n, rows, sel, |rows|));
  }

  // ----- symplectic bases -------------------------------------------------

  // Row i < n is the destabilizer of stabilizer row i + n, and conversely.
  function Partner(n: nat, i: nat): nat {
    if i < n then i + n else i - n
  }

  // Every row anticommutes with its partner and with no other row.
  ghost predicate Paired(n: nat, rows: seq<Row>) {
    && |rows| == 2 * n && AreRows(rows, n)
    && forall i, j {:trigger Sp(rows[i], rows[j])} ::
         0 <= i < 2 * n && 0 <= j < 2 * n ==> (Sp(rows[i], rows[j]) <==> j == Partner(n, i))
  }

  ghost predicate Orthogonal(n: nat, rows: seq<Row>, v: Row)
    requires AreRows(rows, n) && IsRow(v, n)
  {
    forall i :: 0 <= i < |rows| ==> !Sp(v, rows[i])
  }

  // Only the zero row commutes with every row.
  ghost predicate Complete(n: nat, rows: seq<Row>)
    requires AreRows(rows, n)
  {
    forall v: Row {:trigger Orthogonal(n, rows, v)} :: IsRow(v, n) && Orthogonal(n, rows, v) ==> v == Zero(n)
  }

  ghost predicate SymplecticBasis(n: nat, rows: seq<Row>) {
    Paired(n, rows) && Complete(n, rows)
  }

  ghost function Coordinates(n: nat, rows: seq<Row>, v: Row): seq<bool>
    requires Paired(n, rows) && IsRow(v, n)
  {
    seq(2 * n, i requires 0 <= i < 2 * n => Sp(v, rows[Partner(n, i)]))
  }

  // A symplectic basis spans: every row is the sum of the basis rows selected
  // by its products with their partners.
  lemma Spanning(n: nat, rows: seq<Row>, v: Row)
    requires SymplecticBasis(n, rows) && IsRow(v, n)
    ensures v == SumRows(n, rows, Coordinates(n, rows, v), 2 * n)
  {
    var s := SumRows(n, rows, Coordinates(n, rows, v), 2 * n);
    forall k | 0 <= k < 2 * n {
      ResidueOrthogonal(n, rows, v, k);
    }
    assert Orthogonal(n, rows, Add(v, s));
    AddIsZero(n, v, s);
  }

  lemma ResidueOrthogonal(n: nat, rows: seq<Row>, v: Row, k: nat)
    requires Paired(n, rows) && IsRow(v, n) && k < 2 * n
    ensures !Sp(Add(v, SumRows(n, rows, Coordinates(n, rows, v), 2 * n)), rows[k])
  {
    var c := Coordinates(n, rows, v);
    assert c[Partner(n, k)] == Sp(v, rows[k]);
    SpSumOfOne(n, rows, c, rows[k], Partner(n, k));
    SpAdd(v, SumRows(n, rows, c, 2 * n), rows[k]);
  }

  lemma AddIsZero(n: nat, a: Row, b: Row)
    requires IsRow(a, n) && IsRow(b, n) && Add(a, b) == Zero(n)
    ensures a == b
  {
    forall j | 0 <= j < n ensures a.x[j] == b.x[j] && a.z[j] == b.z[j] {
      assert Add(a, b).x[j] == Zero(n).x[j] && Add(a, b).z[j] == Zero(n).z[j];
    }
    assert a.x == b.x && a.z == b.z;
  }

  // ----- the all-zero state -----------------------------------------------

  ghost function InitialRow(n: nat, i: nat): Row {
    if i < n then XAt(n, i) else ZAt(n, i - n)
  }

  ghost function InitialRows(n: nat): (rows: seq<Row>)
    ensures AreRows(rows, n)
  {
    seq(2 * n, i requires 0 <= i < 2 * n => InitialRow(n, i))
  }

  lemma InitialPaired(n: nat, i: nat, j: nat)
    requires i < 2 * n && j < 2 * n
    ensures Sp(InitialRow(n, i), InitialRow(n, j)) <==> j == Partner(n, i)
  {
    SpUnits(InitialRow(n, i), n, if j < n then j else j - n);
  }

  lemma InitialComplete(n: nat, v: Row)
    requires IsRow(v, n) && Orthogonal(n, InitialRows(n), v)
    ensures v == Zero(n)
  {
    forall q | 0 <= q < n ensures !v.x[q] && !v.z[q] {
      SpUnits(v, n, q);
      assert InitialRows(n)[q] == XAt(n, q) && InitialRows(n)[q + n] == ZAt(n, q);
    }
    assert v.x == Zero(n).x && v.z == Zero(n).z;
  }

  lemma InitialBasis(n: nat)
    ensures SymplecticBasis(n, InitialRows(n))
  {
    forall i, j | 0 <= i < 2 * n && 0 <= j < 2 * n {
      InitialPaired(n, i, j);
    }
    forall v: Row | IsRow(v, n) && Orthogonal(n, InitialRows(n), v) {
      InitialComplete(n, v);
    }
  }

  // ----- replacing a basis ------------------------------------------------

  // The rows after the first stage of a measurement of qubit q with a random
  // outcome: row p is added to every other row with an x bit at q, becomes the
  // destabilizer of row p, and is replaced by Z at q.
  ghost function MeasuredRow(n: nat, rows: seq<Row>, q: nat, p: nat, j: nat): Row
    requires AreRows(rows, n) && q < n && n <= p < |rows| == 2 * n && j < |rows|
  {
    if j == p then ZAt(n, q)
    else if j == p - n then rows[p]
    else if rows[j].x[q] then Add(rows[j], rows[p])
    else rows[j]
  }

  ghost function MeasuredRows(n: nat, rows: seq<Row>, q: nat, p: nat): (r: seq<Row>)
    requires AreRows(rows, n) && q < n && n <= p < |rows| == 2 * n
    ensures AreRows(r, n)
  {
    seq(2 * n, j requires 0 <= j < 2 * n => MeasuredRow(n, rows, q, p, j))
  }

  lemma MeasuredPair(n: nat, rows: seq<Row>, q: nat, p: nat, i: nat, j: nat)
    requires Paired(n, rows) && q < n && n <= p < 2 * n && rows[p].x[q]
    requires i < 2 * n && j < 2 * n
    ensures Sp(MeasuredRow(n, rows, q, p, i), MeasuredRow(n, rows, q, p, j)) <==> j == Partner(n, i)
  {
    MeasuredWithOld(n, rows, q, p, i, j);
    MeasuredWithOld(n, rows, q, p, i, p);
    SpAdd(rows[j], rows[p], MeasuredRow(n, rows, q, p, i));
    SpUnits(MeasuredRow(n, rows, q, p, i), n, q);
  }

  // Products of a new row with an old one.
  lemma MeasuredWithOld(n: nat, rows: seq<Row>, q: nat, p: nat, i: nat, j: nat)
    requires Paired(n, rows) && q < n && n <= p < 2 * n && rows[p].x[q]
    requires i < 2 * n && j < 2 * n
    ensures i != p && i != p - n ==>
              Sp(MeasuredRow(n, rows, q, p, i), rows[j])
              == ((j == Partner(n, i)) != (rows[i].x[q] && j == p - n))
    ensures i == p - n ==> Sp(MeasuredRow(n, rows, q, p, i), rows[j]) == (j == p - n)
    ensures i == p ==> Sp(MeasuredRow(n, rows, q, p, i), rows[j]) == rows[j].x[q]
  {
    if i == p {
      SpUnits(rows[j], n, q);
    } else if i != p - n {
      SpAdd(rows[i], rows[p], rows[j]);
    }
  }

  lemma OrthogonalToOthers(n: nat, rows: seq<Row>, q: nat, p: nat, v: Row)
    requires Paired(n, rows) && q < n && n <= p < 2 * n
    requires IsRow(v, n) && Orthogonal(n, MeasuredRows(n, rows, q, p), v)
    ensures !Sp(v, ZAt(n, q))
    ensures forall j :: 0 <= j < 2 * n && j != p - n ==> !Sp(v, rows[j])
  {
    var measured := MeasuredRows(n, rows, q, p);
    assert measured[p] == ZAt(n, q) && measured[p - n] == rows[p];
    forall j | 0 <= j < 2 * n && j != p - n && j != p ensures !Sp(v, rows[j]) {
      assert measured[j] == MeasuredRow(n, rows, q, p, j);
      SpAdd(rows[j], rows[p], v);
    }
  }

  // Z at q is a sum of basis rows in which row p - n occurs.
  lemma ZMeetsPartner(n: nat, rows: seq<Row>, q: nat, p: nat, v: Row)
    requires SymplecticBasis(n, rows) && q < n && n <= p < 2 * n && rows[p].x[q]
    requires IsRow(v, n) && forall j :: 0 <= j < 2 * n && j != p - n ==> !Sp(v, rows[j])
    ensures Sp(v, ZAt(n, q)) == Sp(v, rows[p - n])
  {
    var c := ZAsSum(n, rows, q, p);
    MeetsOneSummand(n, rows, c, v, p - n);
  }

  lemma ZAsSum(n: nat, rows: seq<Row>, q: nat, p: nat) returns (c: seq<bool>)
    requires SymplecticBasis(n, rows) && q < n && n <= p < 2 * n && rows[p].x[q]
    ensures |c| == 2 * n && c[p - n] && ZAt(n, q) == SumRows(n, rows, c, 2 * n)
  {
    c := Coordinates(n, rows, ZAt(n, q));
    CoordinateOfZ(n, rows, q, p);
    Spanning(n, rows, ZAt(n, q));
  }

  lemma CoordinateOfZ(n: nat, rows: seq<Row>, q: nat, p: nat)
    requires Paired(n, rows) && q < n && n <= p < 2 * n
    ensures Coordinates(n, rows, ZAt(n, q))[p - n] == rows[p].x[q]
  {
    SpUnits(rows[p], n, q);
  }

  lemma MeasuredComplete(n: nat, rows: seq<Row>, q: nat, p: nat, v: Row)
    requires SymplecticBasis(n, rows) && q < n && n <= p < 2 * n && rows[p].x[q]
    requires IsRow(v, n) && Orthogonal(n, MeasuredRows(n, rows, q, p), v)
    ensures v == Zero(n)
  {
    OrthogonalToOthers(n, rows, q, p, v);
    ZMeetsPartner(n, rows, q, p, v);
    assert Orthogonal(n, rows, v);
  }

  lemma MeasuredBasis(n: nat, rows: seq<Row>, q: nat, p: nat)
    requires SymplecticBasis(n, rows) && q < n && n <= p < 2 * n && rows[p].x[q]
    ensures SymplecticBasis(n, MeasuredRows(n, rows, q, p))
  {
    forall i, j | 0 <= i < 2 * n && 0 <= j < 2 * n {
      MeasuredPair(n, rows, q, p, i, j);
    }
    forall v: Row | IsRow(v, n) && Orthogonal(n, MeasuredRows(n, rows, q, p), v) {
      MeasuredComplete(n, rows, q, p, v);
    }
  }

  // If no stabilizer row has an x bit at q, then Z at q is the sum of the
  // stabilizer rows whose destabilizers have one.
  lemma ZIsSumOfStabilizers(n: nat, rows: seq<Row>, q: nat)
    requires SymplecticBasis(n, rows) && q < n
    requires forall i :: n <= i < 2 * n ==> !rows[i].x[q]
    ensures ZAt(n, q) == SumRows(n, rows[n..], seq(n, i requires 0 <= i < n => rows[i].x[q]), n)
  {
    Spanning(n, rows, ZAt(n, q));
    ZCoordinates(n, rows, q);
    SumOfUpper(n, rows, Coordinates(n, rows, ZAt(n, q)), seq(n, i requires 0 <= i < n => rows[i].x[q]), n);
  }

  lemma ZCoordinates(n: nat, rows: seq<Row>, q: nat)
    requires Paired(n, rows) && q < n
    requires forall i :: n <= i < 2 * n ==> !rows[i].x[q]
    ensures var c := Coordinates(n, rows, ZAt(n, q));
            forall i :: 0 <= i < n ==> !c[i] && c[i + n] == rows[i].x[q]
  {
    var c := Coordinates(n, rows, ZAt(n, q));
    forall i | 0 <= i < n ensures !c[i] && c[i + n] == rows[i].x[q] {
      SpUnits(rows[i], n, q);
      SpUnits(rows[i + n], n, q);
    }
  }

  lemma {:induction false} SumOfLower(n: nat, rows: seq<Row>, c: seq<bool>, k: nat)
    requires AreRows(rows, n) && |c| == |rows| && k <= |rows|
    requires forall i :: 0 <= i < k ==> !c[i]
    ensures SumRows(n, rows, c, k) == Zero(n)
  {
    if k > 0 {
      SumOfLower(n, rows, c, k - 1);
    }
  }

  lemma {:induction false} SumOfUpper(n: nat, rows: seq<Row>, c: seq<bool>, d: seq<bool>, k: nat)
    requires AreRows(rows, n) && |c| == |rows| == 2 * n && |d| == n && k <= n
    requires forall i :: 0 <= i < n ==> !c[i] && c[i + n] == d[i]
    ensures SumRows(n, rows, c, n + k) == SumRows(n, rows[n..], d, k)
  {
    if k == 0 {
      SumOfLower(n, rows, c, n);
    } else {
      SumOfUpper(n, rows, c, d, k - 1);
    }
  }
}
