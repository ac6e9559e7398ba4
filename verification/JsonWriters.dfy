/**
 The two canonical writers themselves: sorts of the keys in whatever order a map
 lists them, and the string form both share (section 3.2.2.2 of RFC 8785).
 */
module JsonWriters {
  import opened Common
  import opened Utf16Order
  import opened JsonKeys
  import Sorting

  // ---------------------------------------------------------------------------
  // Quoting
  // ---------------------------------------------------------------------------

  const QUOTE := '\"'
  const BACKSLASH := '\\'

  function HexDigit(d: nat): char
    requires d < 16
  {
    "0123456789abcdef"[d]
  }

  /** One character inside a JSON string: two-character escapes where there are any, `\u00xx` for other controls. */
  function EscapeChar(c: char): (e: string)
    ensures e != [] && e[0] != QUOTE
  {
    if c == QUOTE || c == BACKSLASH then [BACKSLASH, c]
    else if c as int == 8 then [BACKSLASH, 'b']
    else if c as int == 9 then [BACKSLASH, 't']
    else if c as int == 10 then [BACKSLASH, 'n']
    else if c as int == 12 then [BACKSLASH, 'f']
    else if c as int == 13 then [BACKSLASH, 'r']
    else if c as int < 0x20 then [BACKSLASH, 'u', '0', '0', HexDigit(c as int / 16), HexDigit(c as int % 16)]
    else [c]
  }

  function Escaped(s: string): string {
    if s == [] then [] else EscapeChar(s[0]) + Escaped(s[1..])
  }

  function Quote(s: string): string {
    [QUOTE] + Escaped(s) + [QUOTE]
  }

  lemma HexDigitInjective(d: nat, e: nat)
    requires d < 16 && e < 16 && HexDigit(d) == HexDigit(e)
    ensures d == e
  {}

  /** The escapes are a prefix code. */
  lemma EscapesArePrefixCode(c: char, d: char, x: string, y: string)
    requires EscapeChar(c) + x == EscapeChar(d) + y
    ensures c == d && x == y
  {
    hide HexDigit;
    var e, f, s := EscapeChar(c), EscapeChar(d), EscapeChar(c) + x;
    assert s[..|e|] == e && s[..|f|] == f;
    assert e[0] == f[0];
    if e[0] == BACKSLASH {
      assert e[1] == s[1] == f[1];
      if |e| == 6 && |f| == 6 {
        assert e[4] == s[4] == f[4] && e[5] == s[5] == f[5];
        HexDigitInjective(c as int / 16, d as int / 16);
        HexDigitInjective(c as int % 16, d as int % 16);
      }
    }
    assert c == d;
    assert x == s[|e|..] && y == s[|e|..];
  }

  lemma OnlyEmptyStartsWithQuote(a: string, x: string)
    ensures (Escaped(a) + [QUOTE] + x)[0] == QUOTE <==> a == []
  {
    hide EscapeChar;
  }

  /** Escaped text ends at the first bare quote. */
  lemma {:induction false} EscapedEndsAtQuote(a: string, b: string, x: string, y: string)
    requires Escaped(a) + [QUOTE] + x == Escaped(b) + [QUOTE] + y
    ensures a == b
    decreases |a|
  {
    hide EscapeChar;
    var s := Escaped(a) + [QUOTE] + x;
    OnlyEmptyStartsWithQuote(a, x);
    OnlyEmptyStartsWithQuote(b, y);
    if a != [] {
      var u, v := Escaped(a[1..]) + [QUOTE] + x, Escaped(b[1..]) + [QUOTE] + y;
      assert EscapeChar(a[0]) + u == s && EscapeChar(b[0]) + v == s;
      EscapesArePrefixCode(a[0], b[0], u, v);
      EscapedEndsAtQuote(a[1..], b[1..], x, y);
      assert a == [a[0]] + a[1..] && b == [b[0]] + b[1..];
    }
  }

  /** No quoted string begins another. */
  lemma JsonQuotes()
    ensures Quotes(Quote)
  {
    hide Escaped;
    forall a, b | Quote(a) <= Quote(b) ensures a == b {
      var rest := Quote(b)[|Quote(a)|..];
      assert Quote(b) == Quote(a) + rest;
      assert Escaped(a) + [QUOTE] + rest == Quote(b)[1..] == Escaped(b) + [QUOTE] + [];
      EscapedEndsAtQuote(a, b, rest, []);
    }
  }

  // ---------------------------------------------------------------------------
  // The writers
  // ---------------------------------------------------------------------------

  /** A map lists each of its keys once, in an order of its own. */
  ghost predicate ListsOnceEach(listing: set<string> -> seq<string>) {
    forall keys :: ListsKeys(listing(keys), keys) && Distinct(listing(keys))
  }

  function Jcs(listing: set<string> -> seq<string>): Writer {
    Writer(Quote, keys => Sorting.Sort(Utf16Less, listing(keys)))
  }

  function Legacy(listing: set<string> -> seq<string>): Writer {
    Writer(Quote, keys => Sorting.Sort(CodePointLess, listing(keys)))
  }

  lemma SortsBy16(listing: set<string> -> seq<string>)
    requires ListsOnceEach(listing)
    ensures OrdersBy16(Jcs(listing))
  {
    hide Utf16Less;
    Utf16IsTotal();
    forall keys: set<string> ensures ListsKeys(Jcs(listing).order(keys), keys) && Sorted16(Jcs(listing).order(keys)) {
      assert ListsKeys(listing(keys), keys) && Distinct(listing(keys));
      Sorting.SortIsStrict(Utf16Less, listing(keys));
      Sorting.SortKeepsElements(Utf16Less, listing(keys));
    }
  }

  lemma SortsByCodePoint(listing: set<string> -> seq<string>)
    requires ListsOnceEach(listing)
    ensures OrdersByCodePoint(Legacy(listing))
  {
    hide CodePointLess;
    CodePointsAreTotal();
    forall keys: set<string>
      ensures ListsKeys(Legacy(listing).order(keys), keys) && SortedByCodePoint(Legacy(listing).order(keys))
    {
      assert ListsKeys(listing(keys), keys) && Distinct(listing(keys));
      Sorting.SortIsStrict(CodePointLess, listing(keys));
      Sorting.SortKeepsElements(CodePointLess, listing(keys));
    }
  }

  ghost function Listed(keys: set<string>): (s: seq<string>)
    ensures ListsKeys(s, keys) && Distinct(s)
  {
    if keys == {} then [] else
      var k :| k in keys;
      assert keys == {k} + (keys - {k});
      [k] + Listed(keys - {k})
  }

  /** Every map can be listed, so there are such writers. */
  lemma ListingsExist()
    ensures exists listing :: ListsOnceEach(listing)
  {
    assert ListsOnceEach(keys => Listed(keys));
  }

  /**
   The earlier writer and the RFC 8785 one give a value the same bytes exactly when
   no object anywhere in it holds two conflicting keys, whatever order their maps list keys in.
   */
  lemma LegacyAgreesExactly(mine: set<string> -> seq<string>, theirs: set<string> -> seq<string>, value: Json)
    requires ListsOnceEach(mine) && ListsOnceEach(theirs)
    ensures Write(Jcs(mine), value) == Write(Legacy(theirs), value) <==> !Clash(value)
  {
    JsonQuotes();
    SortsBy16(mine);
    SortsByCodePoint(theirs);
    WritersAgreeExactly(Jcs(mine), Legacy(theirs), value);
  }
}
