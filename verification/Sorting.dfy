/** Sorting by any strict total order, as the standard sorts of the two languages do. */
module Sorting {
  ghost predicate StrictTotal<T(!new)>(less: (T, T) -> bool) {
    && (forall a, b :: less(a, b) ==> !less(b, a) && a != b)
    && (forall a, b :: a != b ==> less(a, b) || less(b, a))
    && (forall a, b, c :: less(a, b) && less(b, c) ==> less(a, c))
  }

  ghost predicate Ascending<T>(less: (T, T) -> bool, s: seq<T>) {
    forall i, j :: 0 <= i < j < |s| ==> !less(s[j], s[i])
  }

  function Insert<T(==)>(less: (T, T) -> bool, x: T, s: seq<T>): (r: seq<T>)
    ensures multiset(r) == multiset(s) + multiset{x}
  {
    if s == [] || !less(s[0], x) then [x] + s
    else
      assert s == [s[0]] + s[1..];
      [s[0]] + Insert(less, x, s[1..])
  }

  function Sort<T(==)>(less: (T, T) -> bool, s: seq<T>): (r: seq<T>)
    ensures multiset(r) == multiset(s)
  {
    if s == [] then []
    else
      assert s == [s[0]] + s[1..];
      Insert(less, s[0], Sort(less, s[1..]))
  }

  lemma {:induction false} InsertKeepsAscending<T(!new)>(less: (T, T) -> bool, x: T, s: seq<T>)
    requires StrictTotal(less) && Ascending(less, s)
    ensures Ascending(less, Insert(less, x, s))
  {
    var r := Insert(less, x, s);
    if s == [] {
    } else if !less(s[0], x) {
      forall i, j | 0 <= i < j < |r| ensures !less(r[j], r[i]) {
        assert r[j] == s[j - 1] && (j == 1 || !less(s[j - 1], s[0]));
      }
    } else {
      InsertKeepsAscending(less, x, s[1..]);
      var t := Insert(less, x, s[1..]);
      forall j | 0 <= j < |t| ensures !less(t[j], s[0]) {
        assert t[j] in multiset(t);
        if t[j] != x {
          assert t[j] in s[1..];
        }
      }
    }
  }

  lemma {:induction false} SortAscends<T(!new)>(less: (T, T) -> bool, s: seq<T>)
    requires StrictTotal(less)
    ensures Ascending(less, Sort(less, s))
  {
    if s != [] {
      SortAscends(less, s[1..]);
      InsertKeepsAscending(less, s[0], Sort(less, s[1..]));
    }
  }

  lemma SortKeepsElements<T>(less: (T, T) -> bool, s: seq<T>)
    ensures forall x :: x in Sort(less, s) <==> x in s
    ensures |Sort(less, s)| == |s|
  {
    var sorted := Sort(less, s);
    assert |multiset(sorted)| == |multiset(s)|;
    forall x ensures x in s <==> x in sorted {
      assert x in s <==> x in multiset(s);
      assert x in sorted <==> x in multiset(sorted);
    }
  }

  /** Distinct elements come out strictly ascending. */
  lemma SortIsStrict<T(!new)>(less: (T, T) -> bool, s: seq<T>)
    requires StrictTotal(less) && forall i, j :: 0 <= i < j < |s| ==> s[i] != s[j]
    ensures forall i, j :: 0 <= i < j < |Sort(less, s)| ==> less(Sort(less, s)[i], Sort(less, s)[j])
  {
    var sorted := Sort(less, s);
    SortAscends(less, s);
    DistinctIsOnce(s);
    forall i, j | 0 <= i < j < |sorted| ensures less(sorted[i], sorted[j]) {
      if sorted[i] == sorted[j] {
        TwiceIsTwice(sorted, i, j);
        assert false;
      }
    }
  }

  lemma {:induction false} DistinctIsOnce<T>(s: seq<T>)
    requires forall i, j :: 0 <= i < j < |s| ==> s[i] != s[j]
    ensures forall x :: multiset(s)[x] <= 1
  {
    if s != [] {
      DistinctIsOnce(s[1..]);
      assert s == [s[0]] + s[1..];
      assert s[0] !in s[1..];
    }
  }

  lemma TwiceIsTwice<T>(s: seq<T>, i: nat, j: nat)
    requires i < j < |s| && s[i] == s[j]
    ensures multiset(s)[s[i]] >= 2
  {
    assert s == s[..j] + s[j..];
    assert s[..j][i] == s[j..][0];
  }
}
