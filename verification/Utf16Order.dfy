/**
 String order as JavaScript sees it: strings compared by UTF-16 code unit
 (`Array.prototype.sort`, and key order in section 3.2.3 of RFC 8785), beside
 the code-point order of Rust's `str`. A Dafny `char` is a Unicode scalar value.
 */
module Utf16Order {
  import opened Common
  import Sorting

  /** The one or two UTF-16 code units of a scalar value. */
  function Units(c: char): (u: seq<int>)
    ensures |u| > 0
  {
    var n := c as int;
    if n < 0x10000 then [n]
    else [0xD800 + (n - 0x10000) / 0x400, 0xDC00 + (n - 0x10000) % 0x400]
  }

  function Utf16(s: string): seq<int> {
    if s == [] then [] else Units(s[0]) + Utf16(s[1..])
  }

  predicate UnitsLess(a: seq<int>, b: seq<int>) {
    b != [] && (a == [] || a[0] < b[0] || (a[0] == b[0] && UnitsLess(a[1..], b[1..])))
  }

  predicate Utf16Less(a: string, b: string) {
    UnitsLess(Utf16(a), Utf16(b))
  }

  predicate CodePointLess(a: string, b: string) {
    b != [] && (a == [] || a[0] < b[0] || (a[0] == b[0] && CodePointLess(a[1..], b[1..])))
  }

  // ---------------------------------------------------------------------------
  // Both orders are strict total orders
  // ---------------------------------------------------------------------------

  lemma {:induction false} UnitsLessAfterCommonPrefix(p: seq<int>, a: seq<int>, b: seq<int>)
    ensures UnitsLess(p + a, p + b) == UnitsLess(a, b)
  {
    if p == [] {
      assert p + a == a && p + b == b;
    } else {
      assert (p + a)[1..] == p[1..] + a && (p + b)[1..] == p[1..] + b;
      UnitsLessAfterCommonPrefix(p[1..], a, b);
    }
  }

  lemma {:induction false} UnitsLessTrichotomy(a: seq<int>, b: seq<int>)
    ensures (if UnitsLess(a, b) then 1 else 0) + (if UnitsLess(b, a) then 1 else 0) + (if a == b then 1 else 0) == 1
    decreases |a|
  {
    if a != [] && b != [] && a[0] == b[0] {
      UnitsLessTrichotomy(a[1..], b[1..]);
      assert a == [a[0]] + a[1..] && b == [b[0]] + b[1..];
    }
  }

  lemma {:induction false} UnitsLessTransitive(a: seq<int>, b: seq<int>, c: seq<int>)
    requires UnitsLess(a, b) && UnitsLess(b, c)
    ensures UnitsLess(a, c)
    decreases |a|
  {
    if a != [] && a[0] == b[0] && b[0] == c[0] {
      UnitsLessTransitive(a[1..], b[1..], c[1..]);
    }
  }

  /** A scalar value up to U+FFFF is its own unit; a higher one is a high surrogate and a low one, ten bits in each. */
  lemma UnitsAreUtf16(c: char)
    ensures c as int < 65536 ==> Units(c) == [c as int]
    ensures c as int >= 65536 ==>
      && |Units(c)| == 2 && 55296 <= Units(c)[0] < 56320 <= Units(c)[1] < 57344
      && c as int == 65536 + (Units(c)[0] - 55296) * 1024 + (Units(c)[1] - 56320)
  {
  }

  /** The code units that make a scalar value are a prefix code. */
  lemma UnitsArePrefixCode(x: char, y: char, a: seq<int>, b: seq<int>)
    requires Units(x) + a == Units(y) + b
    ensures x == y && a == b
  {
    var s := Units(x) + a;
    assert s[0] == Units(x)[0] && s[0] == Units(y)[0];
    if |Units(x)| == 2 {
      assert s[1] == Units(x)[1] && s[1] == Units(y)[1];
      UnitsAreUtf16(x);
      UnitsAreUtf16(y);
    }
    assert a == s[|Units(x)|..] && b == s[|Units(y)|..];
  }

  lemma {:induction false} Utf16Injective(a: string, b: string)
    requires Utf16(a) == Utf16(b)
    ensures a == b
    decreases |a|
  {
    if a != [] && b != [] {
      UnitsArePrefixCode(a[0], b[0], Utf16(a[1..]), Utf16(b[1..]));
      Utf16Injective(a[1..], b[1..]);
      assert a == [a[0]] + a[1..] && b == [b[0]] + b[1..];
    }
  }

  /** Of two different ids exactly one is the lower. */
  lemma Utf16LessTotal(a: string, b: string)
    ensures Utf16Less(a, b) ==> !Utf16Less(b, a) && a != b
    ensures a != b ==> Utf16Less(a, b) || Utf16Less(b, a)
  {
    UnitsLessTrichotomy(Utf16(a), Utf16(b));
    if Utf16(a) == Utf16(b) {
      Utf16Injective(a, b);
    }
  }

  lemma Utf16LessTransitive(a: string, b: string, c: string)
    requires Utf16Less(a, b) && Utf16Less(b, c)
    ensures Utf16Less(a, c)
  {
    UnitsLessTransitive(Utf16(a), Utf16(b), Utf16(c));
  }

  lemma {:induction false} CodePointLessTotal(a: string, b: string)
    ensures CodePointLess(a, b) ==> !CodePointLess(b, a) && a != b
    ensures a != b ==> CodePointLess(a, b) || CodePointLess(b, a)
    decreases |a|
  {
    if a != [] && b != [] && a[0] == b[0] {
      CodePointLessTotal(a[1..], b[1..]);
      assert a == [a[0]] + a[1..] && b == [b[0]] + b[1..];
    }
  }

  lemma {:induction false} CodePointLessTransitive(a: string, b: string, c: string)
    requires CodePointLess(a, b) && CodePointLess(b, c)
    ensures CodePointLess(a, c)
    decreases |a|
  {
    if a != [] && a[0] == b[0] && b[0] == c[0] {
      CodePointLessTransitive(a[1..], b[1..], c[1..]);
    }
  }

  // ---------------------------------------------------------------------------
  // Sorting by UTF-16 code unit
  // ---------------------------------------------------------------------------

  /** The default `sort()` of an array of strings. */
  function Sort(s: seq<string>): (r: seq<string>)
    ensures multiset(r) == multiset(s)
  {
    Sorting.Sort(Utf16Less, s)
  }

  lemma Utf16IsTotal()
    ensures Sorting.StrictTotal(Utf16Less)
  {
    hide Utf16Less;
    forall a, b ensures (Utf16Less(a, b) ==> !Utf16Less(b, a) && a != b) && (a != b ==> Utf16Less(a, b) || Utf16Less(b, a)) {
      Utf16LessTotal(a, b);
    }
    forall a, b, c | Utf16Less(a, b) && Utf16Less(b, c) ensures Utf16Less(a, c) {
      Utf16LessTransitive(a, b, c);
    }
  }

  lemma CodePointsAreTotal()
    ensures Sorting.StrictTotal(CodePointLess)
  {
    hide CodePointLess;
    forall a, b
      ensures CodePointLess(a, b) ==> !CodePointLess(b, a) && a != b
      ensures a != b ==> CodePointLess(a, b) || CodePointLess(b, a)
    {
      CodePointLessTotal(a, b);
    }
    forall a, b, c | CodePointLess(a, b) && CodePointLess(b, c) ensures CodePointLess(a, c) {
      CodePointLessTransitive(a, b, c);
    }
  }

  /** `[a, b].sort()` does not depend on which of the two is written first. */
  lemma SortPairCommutes(a: string, b: string)
    ensures Sort([a, b]) == Sort([b, a])
  {
    Utf16LessTotal(a, b);
    assert [a, b][1..] == [b] && [b, a][1..] == [a];
    assert Sort([a]) == [a] by { assert [a][1..] == []; }
    assert Sort([b]) == [b] by { assert [b][1..] == []; }
    assert [a][1..] == [] && [b][1..] == [];
  }

  // ---------------------------------------------------------------------------
  // leaderOf
  // ---------------------------------------------------------------------------

  /** The head of the sorted ids. */
  function LeaderOf(ids: seq<string>): Option<string> {
    var sorted := Sort(ids);
    if |sorted| == 0 then None else Some(sorted[0])
  }

  ghost predicate IsLowest(x: string, ids: seq<string>) {
    x in ids && forall y :: y in ids && y != x ==> Utf16Less(x, y)
  }

  /** The leader is exactly the lowest id, and only an empty set has none. */
  lemma LeaderIsLowest(ids: seq<string>)
    ensures LeaderOf(ids) == None <==> ids == []
    ensures forall x :: LeaderOf(ids) == Some(x) <==> IsLowest(x, ids)
  {
    var sorted := Sort(ids);
    Utf16IsTotal();
    Sorting.SortAscends(Utf16Less, ids);
    Sorting.SortKeepsElements(Utf16Less, ids);
    forall x ensures LeaderOf(ids) == Some(x) <==> IsLowest(x, ids) {
      if ids != [] {
        var low := sorted[0];
        forall y | y in ids && y != low ensures Utf16Less(low, y) {
          var j :| 0 <= j < |sorted| && sorted[j] == y;
          Utf16LessTotal(low, y);
        }
        if IsLowest(x, ids) && x != low {
          Utf16LessTotal(low, x);
        }
      }
    }
  }

  /** Every peer elects the same leader from the same ids, in whatever order they are listed. */
  lemma LeaderIgnoresOrder(a: seq<string>, b: seq<string>)
    requires forall x :: x in a <==> x in b
    ensures LeaderOf(a) == LeaderOf(b)
  {
    LeaderIsLowest(a);
    LeaderIsLowest(b);
    if a != [] {
      assert a[0] in b;
      var x := LeaderOf(a).value;
      assert IsLowest(x, b);
    }
  }
}
