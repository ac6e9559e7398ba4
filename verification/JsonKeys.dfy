/**
 Two canonical JSON writers that differ only in how they order an object's keys:
 by UTF-16 code unit (section 3.2.3 of RFC 8785), and by code point. What they
 share is left open here and filled in by `JsonWriters`.
 */
module JsonKeys {
  import opened Common
  import opened Utf16Order

  // ---------------------------------------------------------------------------
  // Where the two orders disagree
  // ---------------------------------------------------------------------------

  predicate Supplementary(c: char) {
    c as int > 0xFFFF
  }

  predicate AfterSurrogates(c: char) {
    0xE000 <= c as int <= 0xFFFF
  }

  function CommonPrefix(a: string, b: string): (n: nat)
    ensures n <= |a| && n <= |b| && a[..n] == b[..n]
    ensures n < |a| && n < |b| ==> a[n] != b[n]
  {
    if a == [] || b == [] || a[0] != b[0] then 0
    else
      assert a == [a[0]] + a[1..] && b == [b[0]] + b[1..];
      1 + CommonPrefix(a[1..], b[1..])
  }

  /** At their first differing character one key is above U+FFFF and the other in U+E000 to U+FFFF. */
  predicate Conflicting(a: string, b: string) {
    var n := CommonPrefix(a, b);
    && n < |a| && n < |b|
    && ((Supplementary(a[n]) && AfterSurrogates(b[n])) || (AfterSurrogates(a[n]) && Supplementary(b[n])))
  }

  lemma FirstUnitsDecide(x: char, y: char, a: seq<int>, b: seq<int>)
    requires x != y
    ensures UnitsLess(Units(x) + a, Units(y) + b)
            == if Supplementary(x) && AfterSurrogates(y) then true
               else if AfterSurrogates(x) && Supplementary(y) then false
               else x < y
  {
    var s, t := Units(x) + a, Units(y) + b;
    assert s[0] == Units(x)[0] && t[0] == Units(y)[0];
    if |Units(x)| == 2 {
      assert s[1..][0] == s[1] == Units(x)[1];
    }
    if |Units(y)| == 2 {
      assert t[1..][0] == t[1] == Units(y)[1];
    }
  }

  lemma ConflictAfterCommonHead(a: string, b: string)
    requires a != [] && b != [] && a[0] == b[0]
    ensures Conflicting(a, b) == Conflicting(a[1..], b[1..])
  {
    hide Supplementary, AfterSurrogates;
    var n := CommonPrefix(a[1..], b[1..]);
    assert CommonPrefix(a, b) == n + 1;
    assert n < |a| - 1 ==> a[1..][n] == a[n + 1];
    assert n < |b| - 1 ==> b[1..][n] == b[n + 1];
  }

  lemma EmptyComesFirst(a: string, b: string)
    requires a == [] || b == []
    ensures Utf16Less(a, b) == CodePointLess(a, b) && !Conflicting(a, b)
  {
    hide Units;
  }

  lemma {:induction false} OrdersDisagreeExactly(a: string, b: string)
    ensures Conflicting(a, b) <==> Utf16Less(a, b) != CodePointLess(a, b)
    decreases |a|
  {
    hide Units, UnitsLess;
    if a == [] || b == [] {
      EmptyComesFirst(a, b);
    } else if a[0] == b[0] {
      hide Conflicting;
      OrdersDisagreeExactly(a[1..], b[1..]);
      ConflictAfterCommonHead(a, b);
      UnitsLessAfterCommonPrefix(Units(a[0]), Utf16(a[1..]), Utf16(b[1..]));
    } else {
      FirstUnitsDecide(a[0], b[0], Utf16(a[1..]), Utf16(b[1..]));
    }
  }

  // ---------------------------------------------------------------------------
  // Sorted key lists
  // ---------------------------------------------------------------------------

  ghost predicate ListsKeys(s: seq<string>, keys: set<string>) {
    forall k :: k in s <==> k in keys
  }

  ghost predicate Sorted16(s: seq<string>) {
    forall i, j :: 0 <= i < j < |s| ==> Utf16Less(s[i], s[j])
  }

  ghost predicate SortedByCodePoint(s: seq<string>) {
    forall i, j :: 0 <= i < j < |s| ==> CodePointLess(s[i], s[j])
  }

  ghost predicate HasConflict(keys: set<string>) {
    exists a, b :: a in keys && b in keys && Conflicting(a, b)
  }

  /** A set of keys has one sorted list. */
  lemma {:induction false} SortedListIsUnique(s: seq<string>, t: seq<string>)
    requires SortedByCodePoint(s) && SortedByCodePoint(t) && forall k :: k in s <==> k in t
    ensures s == t
    decreases |s|
  {
    if s == [] || t == [] {
      var first := if s != [] then s[0] else if t != [] then t[0] else "";
      assert first in s <==> first in t;
    } else {
      assert s[0] in t && t[0] in s;
      CodePointLessTotal(s[0], t[0]);
      TailsListTheSame(s, t);
      TailsListTheSame(t, s);
      SortedListIsUnique(s[1..], t[1..]);
      assert s == [s[0]] + s[1..] && t == [t[0]] + t[1..];
    }
  }

  lemma TailsListTheSame(s: seq<string>, t: seq<string>)
    requires s != [] && t != [] && s[0] == t[0] && SortedByCodePoint(s) && forall k :: k in s ==> k in t
    ensures forall k :: k in s[1..] ==> k in t[1..]
  {
    forall k | k in s[1..] ensures k in t[1..] {
      var i :| 0 <= i < |s[1..]| && s[1..][i] == k;
      assert s[i + 1] == k && CodePointLess(s[0], s[i + 1]);
      assert s[i + 1] in s;
      CodePointLessTotal(s[0], k);
      var j :| 0 <= j < |t| && t[j] == k;
      assert t[1..][j - 1] == k;
    }
  }

  lemma NoConflictSortsAlike(s: seq<string>)
    requires Sorted16(s) && forall a, b :: a in s && b in s ==> !Conflicting(a, b)
    ensures SortedByCodePoint(s)
  {
    hide Conflicting, Utf16Less, CodePointLess;
    forall i, j | 0 <= i < j < |s| ensures CodePointLess(s[i], s[j]) {
      assert s[i] in s && s[j] in s;
      OrdersDisagreeExactly(s[i], s[j]);
    }
  }

  /** A list sorted both ways holds no conflict. */
  lemma SortedBothWays(s: seq<string>, i: nat, j: nat)
    requires Sorted16(s) && SortedByCodePoint(s) && i < |s| && j < |s|
    ensures !Conflicting(s[i], s[j])
  {
    hide Conflicting, Utf16Less, CodePointLess;
    var a, b := s[i], s[j];
    OrdersDisagreeExactly(a, b);
    CodePointLessTotal(a, b);
    Utf16LessTotal(a, b);
  }

  /** The two sorted lists of a set of keys are one exactly when no two keys conflict. */
  lemma SortedListsAgreeExactly(keys: set<string>, s: seq<string>, t: seq<string>)
    requires ListsKeys(s, keys) && ListsKeys(t, keys) && Sorted16(s) && SortedByCodePoint(t)
    ensures s == t <==> !HasConflict(keys)
  {
    hide Conflicting, Sorted16, SortedByCodePoint;
    if !HasConflict(keys) {
      NoConflictSortsAlike(s);
      SortedListIsUnique(s, t);
    }
    if s == t {
      forall a, b | a in keys && b in keys ensures !Conflicting(a, b) {
        assert a in s && b in s;
        var i: nat :| i < |s| && s[i] == a;
        var j: nat :| j < |s| && s[j] == b;
        SortedBothWays(s, i, j);
      }
    }
  }

  // ---------------------------------------------------------------------------
  // The writers
  // ---------------------------------------------------------------------------

  datatype Json = Leaf(text: string) | Array(items: seq<Json>) | Object(fields: map<string, Json>)

  /** What the writers share (`quote`) and where they differ (`order`). */
  datatype Writer = Writer(quote: string -> string, order: set<string> -> seq<string>)

  ghost predicate Quotes(quote: string -> string) {
    forall a, b :: quote(a) <= quote(b) ==> a == b
  }

  ghost predicate OrdersBy16(w: Writer) {
    forall keys :: ListsKeys(w.order(keys), keys) && Sorted16(w.order(keys))
  }

  ghost predicate OrdersByCodePoint(w: Writer) {
    forall keys :: ListsKeys(w.order(keys), keys) && SortedByCodePoint(w.order(keys))
  }

  ghost function Write(w: Writer, value: Json): string
    decreases value, 2
  {
    match value
    case Leaf(text) => text
    case Array(items) => "[" + Items(w, value, 0) + "]"
    case Object(fields) => "{" + Members(w, value, w.order(fields.Keys)) + "}"
  }

  /** The items of an array from the `i`th on. */
  ghost function Items(w: Writer, value: Json, i: nat): string
    requires value.Array? && i <= |value.items|
    decreases value, 1, |value.items| - i
  {
    if i == |value.items| then ""
    else if i + 1 == |value.items| then Write(w, value.items[i])
    else Write(w, value.items[i]) + "," + Items(w, value, i + 1)
  }

  ghost function Member(w: Writer, value: Json, key: string): string
    requires value.Object?
    decreases value, 0
  {
    w.quote(key) + ":" + if key in value.fields then Write(w, value.fields[key]) else ""
  }

  ghost function Members(w: Writer, value: Json, keys: seq<string>): string
    requires value.Object?
    decreases value, 1, |keys|
  {
    if keys == [] then ""
    else if |keys| == 1 then Member(w, value, keys[0])
    else Member(w, value, keys[0]) + "," + Members(w, value, keys[1..])
  }

  /** Somewhere in the value two keys of one object conflict. */
  ghost predicate Clash(value: Json) {
    match value
    case Leaf(_) => false
    case Array(items) => exists i :: 0 <= i < |items| && Clash(items[i])
    case Object(fields) => HasConflict(fields.Keys) || exists k :: k in fields && Clash(fields[k])
  }

  // ---------------------------------------------------------------------------
  // However the keys are ordered, the text is as long
  // ---------------------------------------------------------------------------

  ghost function Size(size: map<string, nat>, key: string): nat {
    if key in size then size[key] else 0
  }

  ghost function Total(size: map<string, nat>, keys: seq<string>): nat {
    if keys == [] then 0 else Size(size, keys[0]) + Total(size, keys[1..])
  }

  lemma {:induction false} TotalWithout(size: map<string, nat>, keys: seq<string>, i: nat)
    requires i < |keys|
    ensures Total(size, keys) == Size(size, keys[i]) + Total(size, keys[..i] + keys[i + 1..])
  {
    hide Size;
    var rest := keys[..i] + keys[i + 1..];
    if i == 0 {
      assert rest == keys[1..];
    } else {
      TotalWithout(size, keys[1..], i - 1);
      assert rest[1..] == keys[1..][..i - 1] + keys[1..][i..] && rest[0] == keys[0];
      assert keys[1..][i..] == keys[i + 1..];
    }
  }

  ghost predicate SameKeys(s: seq<string>, t: seq<string>) {
    Distinct(s) && Distinct(t) && forall k :: k in s <==> k in t
  }

  /** The key that heads one list is somewhere in the other; without it the rest still match. */
  lemma HeadIsIn(s: seq<string>, t: seq<string>) returns (i: nat)
    requires s != [] && SameKeys(s, t)
    ensures i < |t| && t[i] == s[0] && SameKeys(s[1..], t[..i] + t[i + 1..])
  {
    assert s[0] in t;
    i :| i < |t| && t[i] == s[0];
    var rest := t[..i] + t[i + 1..];
    assert t == t[..i] + [t[i]] + t[i + 1..] && s == [s[0]] + s[1..];
    forall k ensures k in s[1..] <==> k in rest {
      assert k in t <==> k in rest || k == s[0];
      assert k in s <==> k in s[1..] || k == s[0];
      assert s[0] !in rest && s[0] !in s[1..];
    }
  }

  lemma {:induction false} TotalIgnoresOrder(size: map<string, nat>, s: seq<string>, t: seq<string>)
    requires SameKeys(s, t)
    ensures |s| == |t| && Total(size, s) == Total(size, t)
  {
    hide Size;
    if s == [] || t == [] {
      var first := if s != [] then s[0] else if t != [] then t[0] else "";
      assert first in s <==> first in t;
    } else {
      var i := HeadIsIn(s, t);
      TotalIgnoresOrder(size, s[1..], t[..i] + t[i + 1..]);
      TotalWithout(size, t, i);
    }
  }

  ghost function Sizes(w: Writer, value: Json): map<string, nat>
    requires value.Object?
  {
    map k | k in value.fields :: |Member(w, value, k)|
  }

  lemma {:induction false} MembersLength(w: Writer, value: Json, keys: seq<string>)
    requires value.Object? && forall k :: k in keys ==> k in value.fields
    ensures |Members(w, value, keys)| == Total(Sizes(w, value), keys) + if keys == [] then 0 else |keys| - 1
  {
    hide Member;
    if |keys| == 1 {
      assert keys[1..] == [];
      assert Total(Sizes(w, value), keys[1..]) == 0;
    } else if |keys| > 1 {
      MembersLength(w, value, keys[1..]);
    }
  }

  ghost predicate ListsOnce(w: Writer) {
    forall keys :: ListsKeys(w.order(keys), keys) && Distinct(w.order(keys))
  }

  lemma {:induction false} ItemsAsLong(v: Writer, w: Writer, value: Json, i: nat)
    requires value.Array? && i <= |value.items|
    requires forall j :: 0 <= j < |value.items| ==> |Write(v, value.items[j])| == |Write(w, value.items[j])|
    ensures |Items(v, value, i)| == |Items(w, value, i)|
    decreases |value.items| - i
  {
    hide Write;
    if i + 1 < |value.items| {
      ItemsAsLong(v, w, value, i + 1);
    }
  }

  lemma {:induction false} AsLong(v: Writer, w: Writer, value: Json)
    requires v.quote == w.quote && ListsOnce(v) && ListsOnce(w)
    ensures |Write(v, value)| == |Write(w, value)|
  {
    match value
    case Leaf(_) =>
    case Array(items) =>
      forall j | 0 <= j < |items| ensures |Write(v, items[j])| == |Write(w, items[j])| {
        AsLong(v, w, items[j]);
      }
      ItemsAsLong(v, w, value, 0);
    case Object(fields) =>
      forall k | k in fields ensures |Write(v, fields[k])| == |Write(w, fields[k])| {
        AsLong(v, w, fields[k]);
      }
      MembersAsLong(v, w, value);
  }

  lemma MembersAsLong(v: Writer, w: Writer, value: Json)
    requires v.quote == w.quote && ListsOnce(v) && ListsOnce(w) && value.Object?
    requires forall k :: k in value.fields ==> |Write(v, value.fields[k])| == |Write(w, value.fields[k])|
    ensures |Members(v, value, v.order(value.fields.Keys))| == |Members(w, value, w.order(value.fields.Keys))|
  {
    hide Write, Members, Total;
    var s, t := v.order(value.fields.Keys), w.order(value.fields.Keys);
    MembersLength(v, value, s);
    MembersLength(w, value, t);
    assert Sizes(v, value) == Sizes(w, value);
    TotalIgnoresOrder(Sizes(v, value), s, t);
  }

  // ---------------------------------------------------------------------------
  // Equal texts come from equal lists
  // ---------------------------------------------------------------------------

  lemma SplitAt<T>(a: seq<T>, x: seq<T>, b: seq<T>, y: seq<T>)
    requires a + x == b + y && |a| == |b|
    ensures a == b && x == y
  {
    assert a == (a + x)[..|a|] && b == (b + y)[..|a|];
    assert x == (a + x)[|a|..] && y == (b + y)[|a|..];
  }

  lemma MemberHeads(v: Writer, w: Writer, value: Json, a: string, x: string, b: string, y: string)
    requires v.quote == w.quote && Quotes(v.quote) && value.Object? && a in value.fields && b in value.fields
    requires |Write(v, value.fields[a])| == |Write(w, value.fields[a])|
    requires Member(v, value, a) + x == Member(w, value, b) + y
    ensures a == b && Write(v, value.fields[a]) == Write(w, value.fields[a]) && x == y
  {
    hide Write;
    var q, r := v.quote(a), v.quote(b);
    var s := Member(v, value, a) + x;
    assert s[..|q|] == q && s[..|r|] == r;
    var shorter, longer := if |q| <= |r| then a else b, if |q| <= |r| then b else a;
    assert v.quote(shorter) == s[..|v.quote(shorter)|] && v.quote(longer) == s[..|v.quote(longer)|];
    assert v.quote(shorter) <= v.quote(longer);
    SplitAt(Member(v, value, a), x, Member(w, value, b), y);
    SplitAt(q + ":", Write(v, value.fields[a]), r + ":", Write(w, value.fields[b]));
  }

  lemma {:induction false} MembersDetermine(v: Writer, w: Writer, value: Json, s: seq<string>, t: seq<string>)
    requires v.quote == w.quote && Quotes(v.quote) && value.Object? && |s| == |t|
    requires (forall k :: k in s ==> k in value.fields) && (forall k :: k in t ==> k in value.fields)
    requires forall k :: k in value.fields ==> |Write(v, value.fields[k])| == |Write(w, value.fields[k])|
    ensures Members(v, value, s) == Members(w, value, t) <==>
              s == t && forall k :: k in s ==> Write(v, value.fields[k]) == Write(w, value.fields[k])
  {
    hide Write, Member;
    if |s| == 0 {
    } else if |s| == 1 {
      if Members(v, value, s) == Members(w, value, t) {
        assert Member(v, value, s[0]) + "" == Member(w, value, t[0]) + "";
        MemberHeads(v, w, value, s[0], "", t[0], "");
      }
      assert s == [s[0]] && t == [t[0]];
      MemberSame(v, w, value, s[0]);
    } else {
      var x, y := "," + Members(v, value, s[1..]), "," + Members(w, value, t[1..]);
      assert s == [s[0]] + s[1..] && t == [t[0]] + t[1..];
      assert Members(v, value, s) == Member(v, value, s[0]) + x;
      assert Members(w, value, t) == Member(w, value, t[0]) + y;
      MembersDetermine(v, w, value, s[1..], t[1..]);
      if Members(v, value, s) == Members(w, value, t) {
        MemberHeads(v, w, value, s[0], x, t[0], y);
        assert x[1..] == Members(v, value, s[1..]) && y[1..] == Members(w, value, t[1..]);
      }
      MemberSame(v, w, value, s[0]);
    }
  }

  lemma MemberSame(v: Writer, w: Writer, value: Json, k: string)
    requires v.quote == w.quote && value.Object? && k in value.fields
    ensures Write(v, value.fields[k]) == Write(w, value.fields[k]) ==> Member(v, value, k) == Member(w, value, k)
  {}

  lemma ItemsSplit(v: Writer, w: Writer, value: Json, i: nat)
    requires value.Array? && i + 1 < |value.items|
    requires |Write(v, value.items[i])| == |Write(w, value.items[i])|
    ensures Items(v, value, i) == Items(w, value, i) <==>
            Write(v, value.items[i]) == Write(w, value.items[i]) && Items(v, value, i + 1) == Items(w, value, i + 1)
  {
    var x, y := Write(v, value.items[i]), Write(w, value.items[i]);
    var a, b := Items(v, value, i + 1), Items(w, value, i + 1);
    assert Items(v, value, i) == x + "," + a && Items(w, value, i) == y + "," + b;
    hide Write, Items;
    if x + "," + a == y + "," + b {
      SplitAt(x + ",", a, y + ",", b);
      SplitAt(x, ",", y, ",");
    }
  }

  lemma {:induction false} ItemsDetermine(v: Writer, w: Writer, value: Json, i: nat)
    requires value.Array? && i <= |value.items|
    requires forall j :: 0 <= j < |value.items| ==> |Write(v, value.items[j])| == |Write(w, value.items[j])|
    ensures Items(v, value, i) == Items(w, value, i) <==>
            forall j :: i <= j < |value.items| ==> Write(v, value.items[j]) == Write(w, value.items[j])
    decreases |value.items| - i
  {
    hide Write;
    if i + 1 < |value.items| {
      ItemsDetermine(v, w, value, i + 1);
      ItemsSplit(v, w, value, i);
    }
  }

  // ---------------------------------------------------------------------------
  // Result
  // ---------------------------------------------------------------------------

  lemma SortedListsOnce(v: Writer, w: Writer)
    requires OrdersBy16(v) && OrdersByCodePoint(w)
    ensures ListsOnce(v) && ListsOnce(w)
  {
    forall keys: set<string> ensures Distinct(v.order(keys)) && Distinct(w.order(keys)) {
      var s, t := v.order(keys), w.order(keys);
      assert Sorted16(s) && SortedByCodePoint(t);
      forall i, j | 0 <= i < j < |s| ensures s[i] != s[j] {
        Utf16LessTotal(s[i], s[j]);
      }
      forall i, j | 0 <= i < j < |t| ensures t[i] != t[j] {
        CodePointLessTotal(t[i], t[j]);
      }
    }
  }

  /**
   The two writers give the same bytes exactly when no object anywhere in the value holds
   two conflicting keys.
   */
  lemma {:induction false} WritersAgreeExactly(v: Writer, w: Writer, value: Json)
    requires v.quote == w.quote && Quotes(v.quote) && OrdersBy16(v) && OrdersByCodePoint(w)
    ensures Write(v, value) == Write(w, value) <==> !Clash(value)
  {
    hide Quotes, Sorted16, SortedByCodePoint, HasConflict;
    SortedListsOnce(v, w);
    match value
    case Leaf(_) =>
    case Array(items) =>
      forall j | 0 <= j < |items|
        ensures Write(v, items[j]) == Write(w, items[j]) <==> !Clash(items[j])
        ensures |Write(v, items[j])| == |Write(w, items[j])|
      {
        WritersAgreeExactly(v, w, items[j]);
        AsLong(v, w, items[j]);
      }
      ItemsDetermine(v, w, value, 0);
      Bracketed("[", Items(v, value, 0), Items(w, value, 0), "]");
    case Object(fields) =>
      forall k | k in fields
        ensures Write(v, fields[k]) == Write(w, fields[k]) <==> !Clash(fields[k])
        ensures |Write(v, fields[k])| == |Write(w, fields[k])|
      {
        WritersAgreeExactly(v, w, fields[k]);
        AsLong(v, w, fields[k]);
      }
      var s, t := v.order(fields.Keys), w.order(fields.Keys);
      SortedListsAgreeExactly(fields.Keys, s, t);
      TotalIgnoresOrder(map[], s, t);
      MembersDetermine(v, w, value, s, t);
      Bracketed("{", Members(v, value, s), Members(w, value, t), "}");
  }

  lemma Bracketed(left: string, x: string, y: string, right: string)
    ensures left + x + right == left + y + right <==> x == y
  {
    if left + x + right == left + y + right {
      assert |x| == |y|;
      assert (left + x + right)[|left|..|left| + |x|] == x;
      assert (left + y + right)[|left|..|left| + |x|] == y;
    }
  }
}
