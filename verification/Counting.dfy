/** Sums and filters over sequences, and that a rearrangement changes neither. */
module Counting {
  function Sum<T>(f: T -> nat, s: seq<T>): nat {
    if s == [] then 0 else Sum(f, s[..|s| - 1]) + f(s[|s| - 1])
  }

  function Filter<T>(p: T -> bool, s: seq<T>): seq<T> {
    if s == [] then []
    else Filter(p, s[..|s| - 1]) + if p(s[|s| - 1]) then [s[|s| - 1]] else []
  }

  lemma {:induction false} SumAppend<T>(f: T -> nat, s: seq<T>, t: seq<T>)
    ensures Sum(f, s + t) == Sum(f, s) + Sum(f, t)
  {
    if t == [] {
      assert s + t == s;
    } else {
      var u := t[..|t| - 1];
      SumAppend(f, s, u);
      assert (s + t)[..|s + t| - 1] == s + u;
    }
  }

  lemma SumOne<T>(f: T -> nat, x: T)
    ensures Sum(f, [x]) == f(x)
  {
    assert [x][..0] == [];
  }

  function Without<T>(s: seq<T>, k: nat): seq<T>
    requires k < |s|
  {
    s[..k] + s[k + 1..]
  }

  lemma SumWithout<T>(f: T -> nat, s: seq<T>, k: nat)
    requires k < |s|
    ensures Sum(f, s) == f(s[k]) + Sum(f, Without(s, k))
  {
    hide Sum;
    assert s == s[..k] + ([s[k]] + s[k + 1..]);
    SumAppend(f, s[..k], [s[k]] + s[k + 1..]);
    SumAppend(f, [s[k]], s[k + 1..]);
    SumAppend(f, s[..k], s[k + 1..]);
    SumOne(f, s[k]);
  }

  lemma MultisetWithout<T>(s: seq<T>, k: nat)
    requires k < |s|
    ensures multiset(s) == multiset(Without(s, k)) + multiset{s[k]}
  {
    assert s == s[..k] + ([s[k]] + s[k + 1..]);
  }

  lemma RestsAgree<T>(s: seq<T>, t: seq<T>, k: nat)
    requires multiset(s) == multiset(t) && s != [] && k < |t| && t[k] == s[0]
    ensures multiset(Without(s, 0)) == multiset(Without(t, k))
  {
    MultisetWithout(s, 0);
    MultisetWithout(t, k);
    assert multiset(Without(s, 0)) == multiset(s) - multiset{s[0]} == multiset(Without(t, k));
  }

  lemma Locate<T>(s: seq<T>, t: seq<T>) returns (k: nat)
    requires multiset(s) == multiset(t) && s != []
    ensures k < |t| && t[k] == s[0]
  {
    assert s[0] in multiset(t);
    k :| 0 <= k < |t| && t[k] == s[0];
  }

  /** Equal multisets have equal sums. */
  lemma {:induction false} SumPermutes<T>(f: T -> nat, s: seq<T>, t: seq<T>)
    requires multiset(s) == multiset(t)
    ensures Sum(f, s) == Sum(f, t)
    decreases |s|
  {
    assert |s| == |multiset(s)| && |t| == |multiset(t)|;
    if s != [] {
      var k := Locate(s, t);
      hide Sum;
      SumWithout(f, s, 0);
      SumWithout(f, t, k);
      RestsAgree(s, t, k);
      SumPermutes(f, Without(s, 0), Without(t, k));
    }
  }

  /** A count of at most one means that no two places match. */
  lemma {:induction false} AtMostOnce<T>(f: T -> nat, s: seq<T>)
    requires forall i :: 0 <= i < |s| ==> f(s[i]) <= 1
    ensures Sum(f, s) <= 1 <==> forall i, j :: 0 <= i < j < |s| ==> f(s[i]) == 0 || f(s[j]) == 0
    ensures Sum(f, s) == 0 <==> forall i :: 0 <= i < |s| ==> f(s[i]) == 0
  {
    if s != [] {
      var n := |s| - 1;
      var front := s[..n];
      assert forall i :: 0 <= i < n ==> front[i] == s[i];
      AtMostOnce(f, front);
    }
  }

  lemma {:induction false} SumBound<T>(f: T -> nat, s: seq<T>, bound: nat)
    requires forall i :: 0 <= i < |s| ==> f(s[i]) <= bound
    ensures Sum(f, s) <= bound * |s|
  {
    if s != [] {
      SumBound(f, s[..|s| - 1], bound);
      calc {
        bound * |s|;
        bound * (|s| - 1) + bound;
      }
    }
  }

  lemma {:induction false} SumMonotone<T>(f: T -> nat, g: T -> nat, s: seq<T>)
    requires forall i :: 0 <= i < |s| ==> f(s[i]) <= g(s[i])
    ensures Sum(f, s) <= Sum(g, s)
  {
    if s != [] {
      SumMonotone(f, g, s[..|s| - 1]);
    }
  }

  lemma {:induction false} FilterAppend<T>(p: T -> bool, s: seq<T>, t: seq<T>)
    ensures Filter(p, s + t) == Filter(p, s) + Filter(p, t)
  {
    if t == [] {
      assert s + t == s;
    } else {
      var u := t[..|t| - 1];
      FilterAppend(p, s, u);
      assert (s + t)[..|s + t| - 1] == s + u;
    }
  }

  function Kept<T>(p: T -> bool, x: T): seq<T> {
    if p(x) then [x] else []
  }

  lemma FilterOne<T>(p: T -> bool, x: T)
    ensures Filter(p, [x]) == Kept(p, x)
  {
    assert [x][..0] == [];
  }

  lemma FilterWithout<T>(p: T -> bool, s: seq<T>, k: nat)
    requires k < |s|
    ensures multiset(Filter(p, s)) == multiset(Filter(p, Without(s, k))) + multiset(Kept(p, s[k]))
  {
    hide Filter, Kept;
    assert s == s[..k] + ([s[k]] + s[k + 1..]);
    FilterAppend(p, s[..k], [s[k]] + s[k + 1..]);
    FilterAppend(p, [s[k]], s[k + 1..]);
    FilterAppend(p, s[..k], s[k + 1..]);
    FilterOne(p, s[k]);
  }

  /** Filters that agree on the elements keep the same multiset of any rearrangement. */
  lemma {:induction false} FilterPermutes<T>(p: T -> bool, q: T -> bool, s: seq<T>, t: seq<T>)
    requires multiset(s) == multiset(t)
    requires forall i :: 0 <= i < |s| ==> p(s[i]) == q(s[i])
    ensures multiset(Filter(p, s)) == multiset(Filter(q, t))
    decreases |s|
  {
    assert |s| == |multiset(s)| && |t| == |multiset(t)|;
    if s != [] {
      var k := Locate(s, t);
      assert Kept(p, s[0]) == Kept(q, t[k]);
      hide Filter, Kept;
      FilterWithout(p, s, 0);
      FilterWithout(q, t, k);
      RestsAgree(s, t, k);
      assert forall i :: 0 <= i < |s| - 1 ==> Without(s, 0)[i] == s[i + 1];
      FilterPermutes(p, q, Without(s, 0), Without(t, k));
    }
  }

  lemma {:induction false} FilterAll<T>(p: T -> bool, s: seq<T>)
    requires forall i :: 0 <= i < |s| ==> p(s[i])
    ensures Filter(p, s) == s
  {
    if s != [] {
      var front := s[..|s| - 1];
      assert forall i :: 0 <= i < |front| ==> front[i] == s[i];
      FilterAll(p, front);
      assert s == front + [s[|s| - 1]];
    }
  }

  lemma {:induction false} FilterMembers<T>(p: T -> bool, s: seq<T>, x: T)
    ensures x in Filter(p, s) <==> x in s && p(x)
  {
    if s != [] {
      FilterMembers(p, s[..|s| - 1], x);
      assert s == s[..|s| - 1] + [s[|s| - 1]];
    }
  }

  lemma {:induction false} FilterLength<T>(p: T -> bool, s: seq<T>)
    ensures |Filter(p, s)| <= |s|
  {
    if s != [] {
      FilterLength(p, s[..|s| - 1]);
    }
  }

  /** A sum of ones and noughts is the number of places with a one. */
  lemma {:induction false} SumIsSize<T>(f: T -> nat, s: seq<T>, places: set<nat>)
    requires forall i :: i in places ==> i < |s|
    requires forall i :: 0 <= i < |s| ==> f(s[i]) == if i in places then 1 else 0
    ensures Sum(f, s) == |places|
  {
    if s == [] {
      assert places == {};
    } else {
      var n := |s| - 1;
      SumIsSize(f, s[..n], places - {n});
    }
  }
}
