/** Sorting by a total order: what the library sort promises, and that the result is unique. */
module Sorting {
  ghost predicate TotalPreorder<T(!new)>(le: (T, T) -> bool) {
    && (forall x, y :: le(x, y) || le(y, x))
    && (forall x, y, z :: le(x, y) && le(y, z) ==> le(x, z))
  }

  ghost predicate Sorted<T>(le: (T, T) -> bool, s: seq<T>) {
    forall i, j :: 0 <= i < j < |s| ==> le(s[i], s[j])
  }

  /** Insert after everything that is not greater, so that equals keep their order. */
  function Insert<T>(le: (T, T) -> bool, x: T, s: seq<T>): seq<T> {
    if s == [] || !le(s[0], x) then [x] + s else [s[0]] + Insert(le, x, s[1..])
  }

  /** A stable sort. */
  function Sort<T>(le: (T, T) -> bool, s: seq<T>): seq<T> {
    if s == [] then [] else Insert(le, s[|s| - 1], Sort(le, s[..|s| - 1]))
  }

  lemma Total<T(!new)>(le: (T, T) -> bool, x: T, y: T)
    requires TotalPreorder(le)
    ensures le(x, y) || le(y, x)
  {
  }

  lemma Transitive<T(!new)>(le: (T, T) -> bool, x: T, y: T, z: T)
    requires TotalPreorder(le) && le(x, y) && le(y, z)
    ensures le(x, z)
  {
  }

  /** Putting a lower bound in front of a sorted sequence. */
  lemma SortedCons<T>(le: (T, T) -> bool, x: T, s: seq<T>)
    requires Sorted(le, s) && forall i :: 0 <= i < |s| ==> le(x, s[i])
    ensures Sorted(le, [x] + s)
  {
  }

  lemma SortedTail<T>(le: (T, T) -> bool, s: seq<T>)
    requires Sorted(le, s) && s != []
    ensures Sorted(le, s[1..]) && forall i :: 0 <= i < |s| - 1 ==> le(s[0], s[1..][i])
  {
  }

  lemma MultisetTail<T>(s: seq<T>)
    requires s != []
    ensures multiset(s) == multiset{s[0]} + multiset(s[1..])
  {
    assert s == [s[0]] + s[1..];
  }

  lemma TailsAgree<T>(s: seq<T>, t: seq<T>)
    requires s != [] && t != [] && s[0] == t[0] && multiset(s) == multiset(t)
    ensures multiset(s[1..]) == multiset(t[1..])
  {
    MultisetTail(s);
    MultisetTail(t);
    calc {
      multiset(s[1..]);
      multiset(s) - multiset{s[0]};
      multiset(t) - multiset{t[0]};
      multiset(t[1..]);
    }
  }

  lemma {:induction false} InsertSorts<T(!new)>(le: (T, T) -> bool, x: T, s: seq<T>)
    requires TotalPreorder(le) && Sorted(le, s)
    ensures Sorted(le, Insert(le, x, s)) && multiset(Insert(le, x, s)) == multiset(s) + multiset{x}
  {
    hide TotalPreorder, Sorted;
    if s == [] {
      SortedCons(le, x, s);
    } else {
      SortedTail(le, s);
      MultisetTail(s);
      if le(s[0], x) {
        InsertSorts(le, x, s[1..]);
        var rest := Insert(le, x, s[1..]);
        forall j | 0 <= j < |rest| ensures le(s[0], rest[j]) {
          assert rest[j] in multiset(rest);
          assert rest[j] == x || rest[j] in s[1..];
        }
        SortedCons(le, s[0], rest);
      } else {
        Total(le, s[0], x);
        forall j | 0 <= j < |s| ensures le(x, s[j]) {
          if j > 0 {
            assert s[j] == s[1..][j - 1];
            Transitive(le, x, s[0], s[j]);
          }
        }
        SortedCons(le, x, s);
      }
    }
  }

  lemma {:induction false} SortSorts<T(!new)>(le: (T, T) -> bool, s: seq<T>)
    requires TotalPreorder(le)
    ensures Sorted(le, Sort(le, s)) && multiset(Sort(le, s)) == multiset(s)
  {
    hide TotalPreorder;
    if s != [] {
      hide Sorted;
      var front := s[..|s| - 1];
      SortSorts(le, front);
      InsertSorts(le, s[|s| - 1], Sort(le, front));
      assert s == front + [s[|s| - 1]];
    }
  }

  lemma Heads<T(!new)>(le: (T, T) -> bool, s: seq<T>, t: seq<T>)
    requires TotalPreorder(le) && Sorted(le, s) && s != [] && t != [] && t[0] in multiset(s)
    ensures le(s[0], t[0])
  {
    Total(le, s[0], s[0]);
    hide TotalPreorder;
    var i :| 0 <= i < |s| && s[i] == t[0];
    if i > 0 { assert le(s[0], s[i]); }
  }

  /** Two sorted arrangements of the same elements agree wherever ties are between equals. */
  lemma {:induction false} SortedIsUnique<T(!new)>(le: (T, T) -> bool, s: seq<T>, t: seq<T>)
    requires TotalPreorder(le) && Sorted(le, s) && Sorted(le, t) && multiset(s) == multiset(t)
    requires forall x, y :: x in s && y in s && le(x, y) && le(y, x) ==> x == y
    ensures s == t
  {
    hide TotalPreorder, Sorted;
    assert |s| == |multiset(s)| && |t| == |multiset(t)|;
    if s != [] {
      assert s[0] == t[0] by {
        assert s[0] in multiset(t);
        assert t[0] in multiset(s) && t[0] in s;
        Heads(le, s, t);
        Heads(le, t, s);
      }
      TailsAgree(s, t);
      SortedTail(le, s);
      SortedTail(le, t);
      assert forall x :: x in s[1..] ==> x in s;
      SortedIsUnique(le, s[1..], t[1..]);
      assert s == [s[0]] + s[1..] && t == [t[0]] + t[1..];
    }
  }
}
