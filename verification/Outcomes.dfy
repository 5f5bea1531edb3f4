// Probabilities of measurement outcomes, against collapsing and measuring.

module Outcomes {
  import opened Symplectic
  import opened PauliPhase
  import opened GateCache
  import opened Tableau

  datatype Option<T> = None | Some(value: T)

  ghost predicate Query(n: nat, t: seq<Signed>, qs: seq<nat>, bits: seq<bool>) {
    IsTableau(n, t) && |qs| == |bits| && forall i :: 0 <= i < |qs| ==> qs[i] < n
  }

  // The probability that measuring qs in order gives bits.
  ghost function Probability(m: Hardware, n: nat, t: seq<Signed>, qs: seq<nat>, bits: seq<bool>): real
    requires Query(n, t, qs, bits)
    decreases |qs|
  {
    if qs == [] then 1.0 else
    var p := FirstX(n, t, qs[0], n);
    if p < 2 * n then
      0.5 * Probability(m, n, Collapsed(m, n, t, qs[0], p, bits[0]), qs[1..], bits[1..])
    else if Outcome(m, n, t, qs[0]) == bits[0] then
      Probability(m, n, t, qs[1..], bits[1..])
    else 0.0
  }

  // One qubit forced to the given outcome, if that is possible.
  ghost function Forced(m: Hardware, n: nat, t: seq<Signed>, q: nat, b: bool): (r: Option<seq<Signed>>)
    requires IsTableau(n, t) && q < n
    ensures r.Some? ==> IsTableau(n, r.value)
  {
    var p := FirstX(n, t, q, n);
    if p < 2 * n then Some(Collapsed(m, n, t, q, p, b))
    else if Outcome(m, n, t, q) == b then Some(t)
    else None
  }

  ghost function ForcedAll(m: Hardware, n: nat, t: seq<Signed>, qs: seq<nat>, bits: seq<bool>): (r: Option<seq<Signed>>)
    requires Query(n, t, qs, bits)
    ensures r.Some? ==> IsTableau(n, r.value)
    decreases |qs|
  {
    if qs == [] then Some(t) else
    var r := Forced(m, n, t, qs[0], bits[0]);
    if r.None? then None else ForcedAll(m, n, r.value, qs[1..], bits[1..])
  }

  // How many of the measurements have a random outcome.
  ghost function Coins(m: Hardware, n: nat, t: seq<Signed>, qs: seq<nat>, bits: seq<bool>): (k: nat)
    requires Query(n, t, qs, bits)
    ensures k <= |qs|
    decreases |qs|
  {
    if qs == [] then 0 else
    var r := Forced(m, n, t, qs[0], bits[0]);
    if r.None? then 0 else
    (if Determined(n, t, qs[0]) then 0 else 1) + Coins(m, n, r.value, qs[1..], bits[1..])
  }

  ghost function Half(k: nat): (r: real)
    ensures r > 0.0
  {
    if k == 0 then 1.0 else 0.5 * Half(k - 1)
  }

  lemma ForceKeepsGood(m: Hardware, n: nat, t: seq<Signed>, q: nat, b: bool)
    requires Good(n, t) && q < n && Forced(m, n, t, q, b).Some?
    ensures Good(n, Forced(m, n, t, q, b).value)
  {
    var p := FirstX(n, t, q, n);
    if p < 2 * n {
      CollapseKeepsGood(m, n, t, q, p, b);
    }
  }

  lemma {:induction false} ForceAllKeepsGood(m: Hardware, n: nat, t: seq<Signed>, qs: seq<nat>, bits: seq<bool>)
    requires Good(n, t) && Query(n, t, qs, bits) && ForcedAll(m, n, t, qs, bits).Some?
    ensures Good(n, ForcedAll(m, n, t, qs, bits).value)
    decreases |qs|
  {
    if qs != [] {
      ForceKeepsGood(m, n, t, qs[0], bits[0]);
      ForceAllKeepsGood(m, n, Forced(m, n, t, qs[0], bits[0]).value, qs[1..], bits[1..]);
    }
  }

  // A probability is 2^-k, with k the number of random outcomes, when the
  // outcome can be forced, and 0 when it cannot.
  lemma {:induction false} ProbabilityIsPowerOfHalf(m: Hardware, n: nat, t: seq<Signed>, qs: seq<nat>, bits: seq<bool>)
    requires Query(n, t, qs, bits)
    ensures Probability(m, n, t, qs, bits)
            == if ForcedAll(m, n, t, qs, bits).Some? then Half(Coins(m, n, t, qs, bits)) else 0.0
    decreases |qs|
  {
    if qs != [] {
      var r := Forced(m, n, t, qs[0], bits[0]);
      if r.Some? {
        ProbabilityIsPowerOfHalf(m, n, r.value, qs[1..], bits[1..]);
      }
    }
  }

  lemma PositiveIffCollapses(m: Hardware, n: nat, t: seq<Signed>, qs: seq<nat>, bits: seq<bool>)
    requires Query(n, t, qs, bits)
    ensures Probability(m, n, t, qs, bits) > 0.0 <==> ForcedAll(m, n, t, qs, bits).Some?
  {
    ProbabilityIsPowerOfHalf(m, n, t, qs, bits);
  }

  // Forcing one list after another is forcing both.
  lemma {:induction false} ForceBoth(m: Hardware, n: nat, t: seq<Signed>, qs: seq<nat>, bits: seq<bool>, qs': seq<nat>, bits': seq<bool>)
    requires Query(n, t, qs, bits) && Query(n, t, qs', bits')
    ensures Query(n, t, qs + qs', bits + bits')
    ensures var r, both := ForcedAll(m, n, t, qs, bits), ForcedAll(m, n, t, qs + qs', bits + bits');
            if r.None? then both.None?
            else both == ForcedAll(m, n, r.value, qs', bits')
                 && Coins(m, n, t, qs + qs', bits + bits') == Coins(m, n, t, qs, bits) + Coins(m, n, r.value, qs', bits')
    decreases |qs|
  {
    if qs == [] {
      assert qs + qs' == qs' && bits + bits' == bits';
    } else {
      assert (qs + qs')[1..] == qs[1..] + qs' && (bits + bits')[1..] == bits[1..] + bits';
      var r := Forced(m, n, t, qs[0], bits[0]);
      if r.Some? {
        ForceBoth(m, n, r.value, qs[1..], bits[1..], qs', bits');
      }
    }
  }

  lemma ForcingOneQubit(m: Hardware, n: nat, t: seq<Signed>, q: nat, b: bool)
    requires IsTableau(n, t) && q < n
    ensures ForcedAll(m, n, t, [q], [b]) == Forced(m, n, t, q, b)
    ensures Coins(m, n, t, [q], [b]) == if Determined(n, t, q) then 0 else 1
  {
    var r := Forced(m, n, t, q, b);
    if r.Some? {
      assert [q][1..] == [] && [b][1..] == [];
      assert ForcedAll(m, n, r.value, [q][1..], [b][1..]) == r;
      assert Coins(m, n, r.value, [q][1..], [b][1..]) == 0;
    }
  }

  // What one more qubit does to a probability.
  lemma OneMoreQubit(m: Hardware, n: nat, t: seq<Signed>, qs: seq<nat>, bits: seq<bool>, q: nat, b: bool)
    requires Query(n, t, qs, bits) && q < n
    ensures Query(n, t, qs + [q], bits + [b])
    ensures Probability(m, n, t, qs + [q], bits + [b])
            == var r := ForcedAll(m, n, t, qs, bits);
               if r.None? then 0.0
               else if Determined(n, r.value, q) then
                 (if Outcome(m, n, r.value, q) == b then Probability(m, n, t, qs, bits) else 0.0)
               else 0.5 * Probability(m, n, t, qs, bits)
  {
    ForceBoth(m, n, t, qs, bits, [q], [b]);
    ProbabilityIsPowerOfHalf(m, n, t, qs, bits);
    ProbabilityIsPowerOfHalf(m, n, t, qs + [q], bits + [b]);
    var r := ForcedAll(m, n, t, qs, bits);
    if r.Some? {
      ForcingOneQubit(m, n, r.value, q, b);
    }
  }

  // P(b 0) + P(b 1) = P(b)
  lemma SplitsByLastBit(m: Hardware, n: nat, t: seq<Signed>, qs: seq<nat>, bits: seq<bool>, q: nat)
    requires Query(n, t, qs, bits) && q < n
    ensures Query(n, t, qs + [q], bits + [false]) && Query(n, t, qs + [q], bits + [true])
    ensures Probability(m, n, t, qs + [q], bits + [false]) + Probability(m, n, t, qs + [q], bits + [true])
            == Probability(m, n, t, qs, bits)
  {
    OneMoreQubit(m, n, t, qs, bits, q, false);
    OneMoreQubit(m, n, t, qs, bits, q, true);
    PositiveIffCollapses(m, n, t, qs, bits);
    ProbabilityIsPowerOfHalf(m, n, t, qs, bits);
  }

  // The sum over all outcomes that start with the given bits.
  ghost function Total(m: Hardware, n: nat, t: seq<Signed>, qs: seq<nat>, bits: seq<bool>): real
    requires IsTableau(n, t) && |bits| <= |qs| && forall i :: 0 <= i < |qs| ==> qs[i] < n
    decreases |qs| - |bits|
  {
    if |bits| == |qs| then Probability(m, n, t, qs, bits)
    else Total(m, n, t, qs, bits + [false]) + Total(m, n, t, qs, bits + [true])
  }

  lemma {:induction false} TotalOfPrefix(m: Hardware, n: nat, t: seq<Signed>, qs: seq<nat>, bits: seq<bool>)
    requires IsTableau(n, t) && |bits| <= |qs| && forall i :: 0 <= i < |qs| ==> qs[i] < n
    ensures Total(m, n, t, qs, bits) == Probability(m, n, t, qs[..|bits|], bits)
    decreases |qs| - |bits|
  {
    var k := |bits|;
    if k == |qs| {
      assert qs[..k] == qs;
    } else {
      TotalOfPrefix(m, n, t, qs, bits + [false]);
      TotalOfPrefix(m, n, t, qs, bits + [true]);
      assert qs[..k + 1] == qs[..k] + [qs[k]];
      SplitsByLastBit(m, n, t, qs[..k], bits, qs[k]);
    }
  }

  lemma OutcomesSumToOne(m: Hardware, n: nat, t: seq<Signed>, qs: seq<nat>)
    requires IsTableau(n, t) && forall i :: 0 <= i < |qs| ==> qs[i] < n
    ensures Total(m, n, t, qs, []) == 1.0
  {
    TotalOfPrefix(m, n, t, qs, []);
  }

  // ----- measuring --------------------------------------------------------

  // Measuring qs in order; coins[i] is the random bit drawn for qs[i], if one is.
  ghost function MeasuredAll(m: Hardware, n: nat, t: seq<Signed>, qs: seq<nat>, coins: seq<bool>): (r: (seq<Signed>, seq<bool>))
    requires Query(n, t, qs, coins)
    ensures IsTableau(n, r.0) && |r.1| == |qs|
    decreases |qs|
  {
    if qs == [] then (t, []) else
    var first := Measured(m, n, t, qs[0], coins[0]);
    var rest := MeasuredAll(m, n, first.0, qs[1..], coins[1..]);
    (rest.0, [first.1] + rest.1)
  }

  // The bits measured are bits that can be forced, and lead to the same tableau ...
  lemma {:induction false} MeasuredCanBeForced(m: Hardware, n: nat, t: seq<Signed>, qs: seq<nat>, coins: seq<bool>)
    requires Query(n, t, qs, coins)
    ensures var r := MeasuredAll(m, n, t, qs, coins);
            ForcedAll(m, n, t, qs, r.1) == Some(r.0)
    decreases |qs|
  {
    if qs != [] {
      var first := Measured(m, n, t, qs[0], coins[0]);
      MeasuredCanBeForced(m, n, first.0, qs[1..], coins[1..]);
      var r := MeasuredAll(m, n, t, qs, coins);
      assert r.1[1..] == MeasuredAll(m, n, first.0, qs[1..], coins[1..]).1;
    }
  }

  // ... and bits that can be forced are measured when the coins fall that way.
  lemma {:induction false} ForcedCanBeMeasured(m: Hardware, n: nat, t: seq<Signed>, qs: seq<nat>, bits: seq<bool>)
    requires Query(n, t, qs, bits) && ForcedAll(m, n, t, qs, bits).Some?
    ensures MeasuredAll(m, n, t, qs, bits) == (ForcedAll(m, n, t, qs, bits).value, bits)
    decreases |qs|
  {
    if qs != [] {
      ForcedCanBeMeasured(m, n, Forced(m, n, t, qs[0], bits[0]).value, qs[1..], bits[1..]);
      assert bits == [bits[0]] + bits[1..];
    }
  }

  // The query agrees with measuring: an outcome has positive probability
  // exactly when some coins make the measurement produce it, and then its
  // probability is that of the coins drawn on the way.
  lemma ProbabilityIsOfMeasuring(m: Hardware, n: nat, t: seq<Signed>, qs: seq<nat>, bits: seq<bool>)
    requires Query(n, t, qs, bits)
    ensures Probability(m, n, t, qs, bits) > 0.0
            <==> exists coins :: |coins| == |qs| && MeasuredAll(m, n, t, qs, coins).1 == bits
    ensures forall coins :: |coins| == |qs| && MeasuredAll(m, n, t, qs, coins).1 == bits ==>
              Probability(m, n, t, qs, bits) == Half(Coins(m, n, t, qs, bits))
  {
    ProbabilityIsPowerOfHalf(m, n, t, qs, bits);
    if ForcedAll(m, n, t, qs, bits).Some? {
      ForcedCanBeMeasured(m, n, t, qs, bits);
    }
    forall coins | |coins| == |qs| && MeasuredAll(m, n, t, qs, coins).1 == bits
      ensures ForcedAll(m, n, t, qs, bits).Some?
    {
      MeasuredCanBeForced(m, n, t, qs, coins);
    }
  }
}
