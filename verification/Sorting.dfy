/**
 Stable sorting by a comparison, as the library sorts do it, and the byte-wise order of
 strings they are used with.
 */
module Sorting {

  type Less<!T> = (T, T) -> bool

  /** A comparison that sorts can use: what is not less is transitive, and nothing is less both ways. */
  ghost predicate Ordering<T(!new)>(less: Less<T>) {
    && (forall a, b :: less(a, b) ==> !less(b, a))
    && (forall a, b, c :: !less(b, a) && !less(c, b) ==> !less(c, a))
  }

  ghost predicate Sorted<T(!new)>(less: Less<T>, s: seq<T>) {
    forall i, j :: 0 <= i < j < |s| ==> !less(s[j], s[i])
  }

  /** Inserts behind everything it is not less than, so that equals keep their order. */
  function Insert<T>(less: Less<T>, s: seq<T>, x: T): seq<T> {
    if s != [] && less(x, s[|s| - 1]) then Insert(less, s[..|s| - 1], x) + [s[|s| - 1]] else s + [x]
  }

  function Sort<T>(less: Less<T>, s: seq<T>): seq<T> {
    if s == [] then [] else Insert(less, Sort(less, s[..|s| - 1]), s[|s| - 1])
  }

  lemma {:induction false} InsertKeeps<T>(less: Less<T>, s: seq<T>, x: T)
    ensures multiset(Insert(less, s, x)) == multiset(s) + multiset{x}
  {
    if s != [] && less(x, s[|s| - 1]) {
      InsertKeeps(less, s[..|s| - 1], x);
      assert s == s[..|s| - 1] + [s[|s| - 1]];
    }
  }

  lemma {:induction false} SortKeeps<T>(less: Less<T>, s: seq<T>)
    ensures multiset(Sort(less, s)) == multiset(s)
  {
    hide Insert;
    if s != [] {
      SortKeeps(less, s[..|s| - 1]);
      InsertKeeps(less, Sort(less, s[..|s| - 1]), s[|s| - 1]);
      assert s == s[..|s| - 1] + [s[|s| - 1]];
    }
  }

  lemma InMultiset<T>(s: seq<T>, t: seq<T>, x: T)
    requires multiset(s) == multiset(t)
    ensures x in s <==> x in t
  {
    assert x in multiset(s) <==> x in s;
    assert x in multiset(t) <==> x in t;
  }

  lemma {:induction false} InsertSorts<T(!new)>(less: Less<T>, s: seq<T>, x: T)
    requires Ordering(less) && Sorted(less, s)
    ensures Sorted(less, Insert(less, s, x))
  {
    if s != [] && less(x, s[|s| - 1]) {
      var front, last := s[..|s| - 1], s[|s| - 1];
      InsertSorts(less, front, x);
      InsertKeeps(less, front, x);
      var r := Insert(less, front, x);
      forall y | y in r ensures !less(last, y) {
        InMultiset(r, front + [x], y);
        if y in front {
          var i :| 0 <= i < |front| && front[i] == y;
          assert s[i] == y;
        }
      }
    }
  }

  lemma {:induction false} SortSorts<T(!new)>(less: Less<T>, s: seq<T>)
    requires Ordering(less)
    ensures Sorted(less, Sort(less, s))
  {
    if s != [] {
      SortSorts(less, s[..|s| - 1]);
      InsertSorts(less, Sort(less, s[..|s| - 1]), s[|s| - 1]);
    }
  }

  /** Under a total order the sorted arrangement is unique. */
  lemma {:induction false} SortedUnique<T(!new)>(less: Less<T>, s: seq<T>, t: seq<T>)
    requires forall a, b :: !less(a, b) && !less(b, a) ==> a == b
    requires Sorted(less, s) && Sorted(less, t) && multiset(s) == multiset(t)
    ensures s == t
  {
    hide Sorted;
    SameLength(s, t);
    if s != [] {
      LastsAgree(less, s, t);
      FrontOf(less, s);
      FrontOf(less, t);
      SortedUnique(less, s[..|s| - 1], t[..|t| - 1]);
      assert s == s[..|s| - 1] + [s[|s| - 1]] && t == t[..|t| - 1] + [t[|t| - 1]];
    }
  }

  lemma SameLength<T>(s: seq<T>, t: seq<T>)
    requires multiset(s) == multiset(t)
    ensures |s| == |t|
  {
    assert |s| == |multiset(s)| && |t| == |multiset(t)|;
  }

  lemma LastsAgree<T(!new)>(less: Less<T>, s: seq<T>, t: seq<T>)
    requires forall a, b :: !less(a, b) && !less(b, a) ==> a == b
    requires Sorted(less, s) && Sorted(less, t) && multiset(s) == multiset(t) && s != [] && t != []
    ensures s[|s| - 1] == t[|t| - 1]
  {
    var a, b := s[|s| - 1], t[|t| - 1];
    InMultiset(s, t, b);
    InMultiset(s, t, a);
    LastIsGreatest(less, s, b);
    LastIsGreatest(less, t, a);
  }

  lemma FrontOf<T(!new)>(less: Less<T>, s: seq<T>)
    requires s != [] && Sorted(less, s)
    ensures multiset(s[..|s| - 1]) == multiset(s) - multiset{s[|s| - 1]} && Sorted(less, s[..|s| - 1])
  {
    assert s == s[..|s| - 1] + [s[|s| - 1]];
  }

  lemma LastIsGreatest<T(!new)>(less: Less<T>, s: seq<T>, x: T)
    requires Sorted(less, s) && x in s
    ensures s[|s| - 1] == x || !less(s[|s| - 1], x)
  {
    var i :| 0 <= i < |s| && s[i] == x;
  }

  // ---- the byte-wise order of strings

  /** `a` comes before `b`. */
  predicate Before(a: seq<int>, b: seq<int>) {
    if b == [] then false
    else if a == [] then true
    else if a[0] != b[0] then a[0] < b[0]
    else Before(a[1..], b[1..])
  }

  lemma {:induction false} BeforeTotal(a: seq<int>, b: seq<int>)
    ensures Before(a, b) ==> !Before(b, a)
    ensures !Before(a, b) && !Before(b, a) ==> a == b
  {
    if a != [] && b != [] && a[0] == b[0] {
      BeforeTotal(a[1..], b[1..]);
      assert a == [a[0]] + a[1..] && b == [b[0]] + b[1..];
    }
  }

  lemma {:induction false} BeforeTransitive(a: seq<int>, b: seq<int>, c: seq<int>)
    requires !Before(b, a) && !Before(c, b)
    ensures !Before(c, a)
  {
    if a != [] && b != [] && c != [] && a[0] == b[0] == c[0] {
      BeforeTransitive(a[1..], b[1..], c[1..]);
    }
  }
}
