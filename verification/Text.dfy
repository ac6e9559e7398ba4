/**
 Decimal rendering and `|`-separated fields: the two text formats that every
 label, salt and AAD in the key exchange and the frame layer is built from.
 */
module Text {
  const BAR := '|'
  const UINT32_MAX := 0xffff_ffff

  function Digit(d: nat): (c: char)
    requires d < 10
  {
    "0123456789"[d]
  }

  /** The shortest decimal rendering of `n`. */
  function Decimal(n: nat): (s: string)
    ensures |s| > 0
  {
    if n < 10 then [Digit(n)] else Decimal(n / 10) + [Digit(n % 10)]
  }

  lemma {:induction false} DecimalHasNoBar(n: nat)
    ensures BAR !in Decimal(n)
  {
    if n >= 10 {
      DecimalHasNoBar(n / 10);
    }
  }

  lemma {:induction false} DecimalInjective(m: nat, n: nat)
    requires Decimal(m) == Decimal(n)
    ensures m == n
    decreases m
  {
    var s, t := Decimal(m), Decimal(n);
    assert s[|s| - 1] == Digit(m % 10) && t[|t| - 1] == Digit(n % 10);
    if m >= 10 && n >= 10 {
      assert s[..|s| - 1] == Decimal(m / 10) && t[..|t| - 1] == Decimal(n / 10);
      DecimalInjective(m / 10, n / 10);
    }
  }

  /** `fields` written one after another with a `|` between neighbours. */
  function JoinBars(fields: seq<string>): string
    requires |fields| > 0
  {
    if |fields| == 1 then fields[0] else fields[0] + [BAR] + JoinBars(fields[1..])
  }

  ghost predicate BarFree(fields: seq<string>) {
    forall i :: 0 <= i < |fields| ==> BAR !in fields[i]
  }

  /** A bar-free prefix is found again by cutting at the first bar. */
  lemma CutAtFirstBar(a: string, x: string, b: string, y: string)
    requires BAR !in a && BAR !in b
    requires a + [BAR] + x == b + [BAR] + y
    ensures a == b && x == y
  {
    var s := a + [BAR] + x;
    assert s[|a|] == BAR && s[|b|] == BAR;
    assert |a| == |b|;
    assert a == s[..|a|] && b == s[..|b|];
    assert x == s[|a| + 1..] && y == s[|b| + 1..];
  }

  /** A bar-free suffix is found again by cutting at the last bar. */
  lemma CutAtLastBar(x: string, a: string, y: string, b: string)
    requires BAR !in a && BAR !in b
    requires x + [BAR] + a == y + [BAR] + b
    ensures a == b && x == y
  {
    var s := x + [BAR] + a;
    assert s[|x|] == BAR && s[|y|] == BAR;
    assert |x| == |y|;
    assert x == s[..|x|] && y == s[..|y|];
    assert a == s[|x| + 1..] && b == s[|y| + 1..];
  }

  /** Bar-free fields are recovered from their joined form, however many there are. */
  lemma {:induction false} JoinBarsInjective(a: seq<string>, b: seq<string>)
    requires |a| > 0 && |b| > 0
    requires BarFree(a) && BarFree(b)
    requires JoinBars(a) == JoinBars(b)
    ensures a == b
    decreases |a|
  {
    assert a == [a[0]] + a[1..] && b == [b[0]] + b[1..];
    if |a| > 1 && |b| > 1 {
      CutAtFirstBar(a[0], JoinBars(a[1..]), b[0], JoinBars(b[1..]));
      JoinBarsInjective(a[1..], b[1..]);
    }
  }

  // ---------------------------------------------------------------------------
  // Reading the two formats back
  // ---------------------------------------------------------------------------

  /** The number that a string of decimal digits writes. */
  function Number(s: string): int {
    if s == "" then 0 else Number(s[..|s| - 1]) * 10 + (s[|s| - 1] as int - 48)
  }

  /** A rendering is read back as the number it renders; it consists of digits, and starts with a zero only for zero. */
  lemma {:induction false} DecimalReads(n: nat)
    ensures Number(Decimal(n)) == n
    ensures forall i :: 0 <= i < |Decimal(n)| ==> 48 <= Decimal(n)[i] as int <= 57
    ensures Decimal(n)[0] as int == 48 <==> n == 0
  {
    DigitIs(n % 10);
    var s := Decimal(n);
    if n >= 10 {
      DecimalReads(n / 10);
      assert s[..|s| - 1] == Decimal(n / 10) && s[|s| - 1] == Digit(n % 10);
      assert s[0] == Decimal(n / 10)[0];
    } else {
      assert s[..|s| - 1] == "" && s[|s| - 1] == Digit(n);
    }
  }

  lemma DigitIs(d: nat)
    requires d < 10
    ensures Digit(d) as int == 48 + d
  {}

  /** The pieces of a text between its bars. */
  function SplitBars(s: string): (fields: seq<string>)
    ensures |fields| > 0
  {
    if s == "" then [""]
    else
      var rest := SplitBars(s[1..]);
      if s[0] == '|' then [""] + rest else [[s[0]] + rest[0]] + rest[1..]
  }

  lemma {:induction false} SplitOne(field: string)
    requires '|' !in field
    ensures SplitBars(field) == [field]
  {
    if field != "" {
      SplitOne(field[1..]);
      assert field == [field[0]] + field[1..];
    }
  }

  lemma {:induction false} SplitFirst(field: string, rest: string)
    requires '|' !in field
    ensures SplitBars(field + ['|'] + rest) == [field] + SplitBars(rest)
  {
    var s := field + ['|'] + rest;
    if field == "" {
      assert s[1..] == rest;
    } else {
      SplitFirst(field[1..], rest);
      assert s[1..] == field[1..] + ['|'] + rest && field == [field[0]] + field[1..];
    }
  }

  /** Splitting a joined text at its bars gives the fields back. */
  lemma {:induction false} SplitUndoesJoin(fields: seq<string>)
    requires |fields| > 0 && forall i :: 0 <= i < |fields| ==> '|' !in fields[i]
    ensures SplitBars(JoinBars(fields)) == fields
  {
    assert fields == [fields[0]] + fields[1..];
    if |fields| == 1 {
      SplitOne(fields[0]);
    } else {
      SplitUndoesJoin(fields[1..]);
      SplitFirst(fields[0], JoinBars(fields[1..]));
    }
  }
}
