// Sequences of numbers: ascending ones, those without repetition, their elements.

module Sequences {

  predicate Increasing(s: seq<nat>) {
    forall i, j :: 0 <= i < j < |s| ==> s[i] < s[j]
  }

  predicate Distinct(s: seq<nat>) {
    forall i, j :: 0 <= i < j < |s| ==> s[i] != s[j]
  }

  function Elements(s: seq<nat>): set<nat> { set x | x in s }

  function UpTo(k: nat): seq<nat> {
    seq(k, i requires 0 <= i => i)
  }

  // The first position of x, or the length when there is none.
  function Find(s: seq<nat>, x: nat): (p: nat)
    ensures p <= |s| && (p < |s| <==> x in s)
    ensures p < |s| ==> s[p] == x
    ensures forall i :: 0 <= i < p ==> s[i] != x
  {
    if s == [] then 0 else if s[0] == x then 0 else 1 + Find(s[1..], x)
  }

  lemma FindIsFirst(s: seq<nat>, x: nat, p: nat)
    requires p < |s| && s[p] == x && forall i :: 0 <= i < p ==> s[i] != x
    ensures Find(s, x) == p
  {
  }

  lemma {:induction false} CountElements(s: seq<nat>)
    ensures |Elements(s)| <= |s|
    ensures |Elements(s)| == |s| <==> Distinct(s)
  {
    if s == [] {
      assert Elements(s) == {};
    } else {
      var s', last := s[..|s| - 1], s[|s| - 1];
      CountElements(s');
      assert s == s' + [last];
      assert Elements(s) == Elements(s') + {last};
      if last in s' {
        assert Elements(s) == Elements(s');
        var i :| 0 <= i < |s'| && s'[i] == last;
        assert s[i] == s[|s| - 1];
      } else {
        assert Distinct(s') ==> Distinct(s);
        assert forall i, j :: 0 <= i < j < |s'| ==> s'[i] == s[i] && s'[j] == s[j];
      }
    }
  }

  lemma EmptyElements(s: seq<nat>)
    ensures Elements(s) == {} ==> s == []
  {
    if s != [] {
      assert s[0] in Elements(s);
    }
  }

  lemma DistinctParts(s: seq<nat>, t: seq<nat>)
    requires Distinct(s + t)
    ensures Distinct(s) && Distinct(t) && forall i, j :: 0 <= i < |s| && 0 <= j < |t| ==> s[i] != t[j]
  {
    forall i, j | 0 <= i < j < |s| ensures s[i] != s[j] {
      assert (s + t)[i] != (s + t)[j];
    }
    forall i, j | 0 <= i < j < |t| ensures t[i] != t[j] {
      assert (s + t)[|s| + i] != (s + t)[|s| + j];
    }
    forall i, j | 0 <= i < |s| && 0 <= j < |t| ensures s[i] != t[j] {
      assert (s + t)[i] != (s + t)[|s| + j];
    }
  }

  lemma DistinctConcat(s: seq<nat>, t: seq<nat>)
    requires Distinct(s) && Distinct(t) && forall q :: q in s ==> q !in t
    ensures Distinct(s + t)
  {
    forall i, j | 0 <= i < j < |s + t| ensures (s + t)[i] != (s + t)[j] {
      if i < |s| <= j {
        assert s[i] in s;
        assert t[j - |s|] in t;
      }
    }
  }

  // Ascending numbers below m are at most m.
  lemma {:induction false} AscendingBelow(s: seq<nat>, m: nat)
    requires Increasing(s) && forall i :: 0 <= i < |s| ==> s[i] < m
    ensures |s| <= m
  {
    if s != [] {
      var k := |s| - 1;
      AscendingBelow(s[..k], s[k]);
    }
  }

  // Two ascending sequences of the same numbers are equal.
  lemma {:induction false} AscendingUnique(s: seq<nat>, t: seq<nat>)
    requires Increasing(s) && Increasing(t) && forall x :: x in s <==> x in t
    ensures s == t
  {
    if s == [] {
      if t != [] {
        FirstElement(t);
      }
    } else {
      FirstElement(s);
      SameLast(s, t);
      var s', t', last := s[..|s| - 1], t[..|t| - 1], s[|s| - 1];
      SameRest(s, t, s', t', last);
      AscendingUnique(s', t');
    }
  }

  lemma SameRest(s: seq<nat>, t: seq<nat>, s': seq<nat>, t': seq<nat>, last: nat)
    requires Increasing(s) && Increasing(t) && s == s' + [last] && t == t' + [last]
    requires forall x :: x in s <==> x in t
    ensures Increasing(s') && Increasing(t') && forall x :: x in s' <==> x in t'
  {
    DropLast(s, s', last);
    DropLast(t, t', last);
  }

  lemma DropLast(s: seq<nat>, s': seq<nat>, last: nat)
    requires Increasing(s) && s == s' + [last]
    ensures Increasing(s')
    ensures forall x :: x in s' <==> x in s && x != last
  {
    assert s[|s'|] == last;
    assert forall i :: 0 <= i < |s'| ==> s'[i] == s[i];
  }

  lemma FirstElement(s: seq<nat>)
    requires s != []
    ensures s[0] in s
  {
  }

  lemma SameLast(s: seq<nat>, t: seq<nat>)
    requires Increasing(s) && Increasing(t) && |s| > 0 && |t| > 0 && forall x :: x in s <==> x in t
    ensures s[|s| - 1] == t[|t| - 1]
  {
    assert s[|s| - 1] in t && t[|t| - 1] in s;
    var i :| 0 <= i < |t| && t[i] == s[|s| - 1];
    var j :| 0 <= j < |s| && s[j] == t[|t| - 1];
  }

  method Smallest(s: set<nat>) returns (x: nat)
    requires s != {}
    ensures x in s && forall y :: y in s ==> x <= y
  {
    x :| x in s;
    var rest := s - {x};
    while rest != {}
      invariant rest <= s && x in s && forall y :: y in s && y !in rest ==> x <= y
      decreases |rest|
    {
      var y :| y in rest;
      if y < x {
        x := y;
      }
      rest := rest - {y};
    }
  }

  // The smallest elements of s listed in order, the rest still to come.
  ghost predicate ListedSoFar(s: set<nat>, r: seq<nat>, rest: set<nat>) {
    Increasing(r) && Elements(r) + rest == s && forall x, y :: x in r && y in rest ==> x < y
  }

  lemma ListNext(s: set<nat>, r: seq<nat>, rest: set<nat>, x: nat)
    requires ListedSoFar(s, r, rest) && x in rest && forall y :: y in rest ==> x <= y
    ensures ListedSoFar(s, r + [x], rest - {x})
  {
    forall i | 0 <= i < |r| ensures r[i] < x {
      assert r[i] in r;
    }
    assert Elements(r + [x]) == Elements(r) + {x};
  }

  // The elements of a set in the order std::set lists them.
  method Ascending(s: set<nat>) returns (r: seq<nat>)
    ensures Increasing(r) && Elements(r) == s && |r| == |s|
  {
    var rest := s;
    r := [];
    while rest != {}
      invariant ListedSoFar(s, r, rest)
      decreases |rest|
    {
      var x := Smallest(rest);
      ListNext(s, r, rest, x);
      r := r + [x];
      rest := rest - {x};
    }
    CountElements(r);
  }
}
