/**
 The template lexer. A `char` stands for one byte of the UTF-8 text: every
 delimiter is ASCII, so no byte of a longer character is ever one.

 `IsTokensOf` says what a token list has to be to be the reading of a text,
 without mentioning how it is found; the lexer finds it exactly when there is one.
 */
module TemplateLexer {
  import opened Common

  datatype Token =
    | Literal(text: string)
    | Escape
    | VarPlain(name: string, offset: nat)
    | VarDefault(name: string, fallback: string, colon: bool, offset: nat)
    | VarRequired(name: string, msg: string, colon: bool, offset: nat)
  {
    predicate Expansion?() { !Literal? && !Escape? }
  }

  datatype Fault = Unterminated | EmptyName | BadName | BadModifier(rest: string)

  datatype LexError = LexError(pos: nat, fault: Fault)

  predicate NameChar(c: char) {
    '0' <= c <= '9' || 'A' <= c <= 'Z' || 'a' <= c <= 'z' || c == '_'
  }

  // ---------------------------------------------------------------------------
  // The lexer
  // ---------------------------------------------------------------------------

  function IndexOf(s: string, c: char, from: nat): (r: Option<nat>)
    requires from <= |s|
    ensures r.None? ==> c !in s[from..]
    ensures r.Some? ==> from <= r.value < |s| && s[r.value] == c && c !in s[from..r.value]
    decreases |s| - from
  {
    if from == |s| then None
    else if s[from] == c then Some(from)
    else IndexOf(s, c, from + 1)
  }

  function NameEnd(s: string, from: nat): (r: nat)
    requires from <= |s|
    ensures from <= r <= |s| && (forall k :: from <= k < r ==> NameChar(s[k])) && (r < |s| ==> !NameChar(s[r]))
    decreases |s| - from
  {
    if from == |s| || !NameChar(s[from]) then from else NameEnd(s, from + 1)
  }

  /** The modifier and its argument. */
  function ParseSuffix(name: string, rest: string, offset: nat): Result<Token, Fault> {
    if rest == "" then Ok(VarPlain(name, offset))
    else if ":-" <= rest then Ok(VarDefault(name, rest[2..], true, offset))
    else if "-" <= rest then Ok(VarDefault(name, rest[1..], false, offset))
    else if ":?" <= rest then Ok(VarRequired(name, rest[2..], true, offset))
    else if "?" <= rest then Ok(VarRequired(name, rest[1..], false, offset))
    else Err(BadModifier(rest))
  }

  /** What stands between the braces. */
  function ParseExpansion(inner: string, offset: nat): Result<Token, Fault> {
    if inner == "" then Err(EmptyName)
    else
      var end := NameEnd(inner, 0);
      if end == 0 then Err(BadName)
      else
        var name, rest := inner[..end], inner[end..];
        ParseSuffix(name, rest, offset)
  }

  function Flush(s: string, lit: nat, end: nat): seq<Token>
    requires lit <= end <= |s|
  {
    if lit < end then [Literal(s[lit..end])] else []
  }

  /** The rest of the scan, from byte `i` with a literal open since `lit`. */
  function LexFrom(s: string, tokens: seq<Token>, i: nat, lit: nat): Result<seq<Token>, LexError>
    requires lit <= i <= |s|
    decreases |s| - i
  {
    if i == |s| then Ok(tokens + Flush(s, lit, i))
    else if s[i] != '$' || i + 1 == |s| then LexFrom(s, tokens, i + 1, lit)
    else if s[i + 1] == '$' then LexFrom(s, tokens + Flush(s, lit, i) + [Escape], i + 2, i + 2)
    else if s[i + 1] == '{' then
      match IndexOf(s, '}', i + 2)
      case None => Err(LexError(i, Unterminated))
      case Some(end) =>
        match ParseExpansion(s[i + 2..end], i)
        case Err(fault) => Err(LexError(i, fault))
        case Ok(token) => LexFrom(s, tokens + Flush(s, lit, i) + [token], end + 1, end + 1)
    else LexFrom(s, tokens, i + 1, lit)
  }

  function Lex(s: string): Result<seq<Token>, LexError> {
    LexFrom(s, [], 0, 0)
  }

  method LexTemplate(s: string) returns (r: Result<seq<Token>, LexError>)
    ensures r == Lex(s)
    ensures r.Ok? <==> exists ts :: IsTokensOf(s, ts)
    ensures r.Ok? ==> IsTokensOf(s, r.value)
    ensures r.Err? ==> Broken(s, r.error)
  {
    LexIsExact(s);
    hide IsTokensOf, Broken;
    var tokens: seq<Token> := [];
    var i: nat, lit: nat := 0, 0;
    while i < |s|
      invariant lit <= i <= |s|
      invariant Lex(s) == LexFrom(s, tokens, i, lit)
    {
      if s[i] != '$' {
        i := i + 1;
        continue;
      }
      var dollar := i;
      if i + 1 >= |s| {
        i := i + 1;
        continue;
      }
      match s[i + 1] {
        case '$' =>
          tokens := tokens + Flush(s, lit, dollar);
          tokens := tokens + [Escape];
          i := i + 2;
          lit := i;
        case '{' =>
          tokens := tokens + Flush(s, lit, dollar);
          var close := IndexOf(s, '}', i + 2);
          if close.None? {
            return Err(LexError(dollar, Unterminated));
          }
          var parsed := ParseExpansion(s[i + 2..close.value], dollar);
          if parsed.Err? {
            return Err(LexError(dollar, parsed.error));
          }
          tokens := tokens + [parsed.value];
          i := close.value + 1;
          lit := i;
        case _ =>
          i := i + 1;
      }
    }
    tokens := tokens + Flush(s, lit, |s|);
    return Ok(tokens);
  }

  // ---------------------------------------------------------------------------
  // What a reading is
  // ---------------------------------------------------------------------------

  function Inner(t: Token): string
    requires t.Expansion?()
  {
    match t
    case VarPlain(name, _) => name
    case VarDefault(name, fallback, colon, _) => name + (if colon then ":-" else "-") + fallback
    case VarRequired(name, msg, colon, _) => name + (if colon then ":?" else "?") + msg
  }

  function PrintToken(t: Token): string {
    match t
    case Literal(text) => text
    case Escape => "$$"
    case _ => "${" + Inner(t) + "}"
  }

  function Print(ts: seq<Token>): string {
    if ts == [] then "" else PrintToken(ts[0]) + Print(ts[1..])
  }

  predicate Opens(s: string, k: nat) {
    k + 1 < |s| && s[k] == '$' && (s[k + 1] == '$' || s[k + 1] == '{')
  }

  /** No `$$` and no `${`. */
  predicate Plain(s: string) {
    forall k: nat :: k < |s| ==> !Opens(s, k)
  }

  predicate EndsInDollar(s: string) {
    s != "" && s[|s| - 1] == '$'
  }

  predicate ValidToken(t: Token) {
    match t
    case Literal(text) => text != "" && Plain(text)
    case Escape => true
    case VarPlain(name, _) => ValidName(name)
    case VarDefault(name, fallback, _, _) => ValidName(name) && '}' !in fallback
    case VarRequired(name, msg, _, _) => ValidName(name) && '}' !in msg
  }

  predicate ValidName(name: string) {
    name != "" && forall k :: 0 <= k < |name| ==> NameChar(name[k])
  }

  /** `u` may come right after `t`. */
  predicate MayFollow(t: Token, u: Token) {
    t.Literal? ==> !u.Literal? && !EndsInDollar(t.text)
  }

  predicate WellFormed(ts: seq<Token>) {
    ts == [] || (ValidToken(ts[0]) && (|ts| > 1 ==> MayFollow(ts[0], ts[1])) && WellFormed(ts[1..]))
  }

  /** Every expansion carries the length printed before it, counted from `at`. */
  predicate Offsets(ts: seq<Token>, at: nat) {
    ts == [] || ((ts[0].Expansion?() ==> ts[0].offset == at) && Offsets(ts[1..], at + |PrintToken(ts[0])|))
  }

  predicate IsTokensOf(s: string, ts: seq<Token>) {
    WellFormed(ts) && Print(ts) == s && Offsets(ts, 0)
  }

  /** Whatever is printed next cannot turn the end of `ts` into something else. */
  predicate Ready(ts: seq<Token>) {
    ts != [] && ts[|ts| - 1].Literal? ==> !EndsInDollar(ts[|ts| - 1].text)
  }

  /** Everything before `e.pos` reads well, and what opens there is not an expansion. */
  predicate BrokenAfter(s: string, e: LexError, ts: seq<Token>) {
    && e.pos + 1 < |s| && s[e.pos] == '$' && s[e.pos + 1] == '{'
    && IsTokensOf(s[..e.pos], ts) && Ready(ts)
    && match IndexOf(s, '}', e.pos + 2)
       case None => e.fault == Unterminated
       case Some(end) => ParseExpansion(s[e.pos + 2..end], e.pos) == Err(e.fault)
  }

  ghost predicate Broken(s: string, e: LexError) {
    exists ts :: BrokenAfter(s, e, ts)
  }

  // ---------------------------------------------------------------------------
  // Readings joined end to end
  // ---------------------------------------------------------------------------

  lemma {:induction false} Appended(ts: seq<Token>, us: seq<Token>, at: nat)
    requires WellFormed(ts) && WellFormed(us)
    requires ts != [] && us != [] ==> MayFollow(ts[|ts| - 1], us[0])
    ensures WellFormed(ts + us)
    ensures Print(ts + us) == Print(ts) + Print(us)
    ensures Offsets(ts, at) && Offsets(us, at + |Print(ts)|) ==> Offsets(ts + us, at)
  {
    hide PrintToken, ValidToken, MayFollow;
    if ts == [] {
      assert ts + us == us && Print(ts) + Print(us) == Print(us);
    } else {
      Appended(ts[1..], us, at + |PrintToken(ts[0])|);
      assert (ts + us)[1..] == ts[1..] + us && (ts + us)[0] == ts[0];
      if |ts| > 1 {
        assert (ts + us)[1] == ts[1] && ts[1..][|ts| - 2] == ts[|ts| - 1];
      }
    }
  }

  lemma Single(t: Token, at: nat)
    requires ValidToken(t) && (t.Expansion?() ==> t.offset == at)
    ensures WellFormed([t]) && Print([t]) == PrintToken(t) && Offsets([t], at)
  {
    hide PrintToken, ValidToken;
    assert [t][1..] == [] && Print([]) == "" && PrintToken(t) + "" == PrintToken(t);
  }

  // ---------------------------------------------------------------------------
  // The braces
  // ---------------------------------------------------------------------------

  lemma {:induction false} NameEnds(s: string, from: nat, at: nat)
    requires from <= at <= |s| && (at < |s| ==> !NameChar(s[at]))
    requires forall k :: from <= k < at ==> NameChar(s[k])
    ensures NameEnd(s, from) == at
    decreases at - from
  {
    if from < at {
      NameEnds(s, from + 1, at);
    }
  }

  /** What the modifier and its argument look like, after the name. */
  function Suffix(t: Token): string
    requires t.Expansion?()
  {
    match t
    case VarPlain(_, _) => ""
    case VarDefault(_, fallback, colon, _) => (if colon then ":-" else "-") + fallback
    case VarRequired(_, msg, colon, _) => (if colon then ":?" else "?") + msg
  }

  lemma SuffixParses(name: string, rest: string, offset: nat, t: Token)
    ensures (ParseSuffix(name, rest, offset) == Ok(t)) <==>
            (t.Expansion?() && t.name == name && t.offset == offset && Suffix(t) == rest)
  {
    if ":-" <= rest || ":?" <= rest {
      assert rest == [rest[0], rest[1]] + rest[2..];
    } else if rest != "" {
      assert rest == [rest[0]] + rest[1..];
    }
    if t.Expansion?() && t.name == name && t.offset == offset && Suffix(t) == rest && !t.VarPlain? {
      var argument := if t.VarDefault? then t.fallback else t.msg;
      assert rest == (if t.colon then [rest[0], rest[1]] else [rest[0]]) + argument;
    }
  }

  lemma InnerSplits(t: Token)
    requires t.Expansion?()
    ensures Inner(t) == t.name + Suffix(t)
  {}

  lemma InEither(c: char, x: string, y: string)
    ensures c in x + y <==> c in x || c in y
  {}

  lemma SuffixWithin(t: Token)
    requires t.Expansion?() && ValidName(t.name)
    ensures ('}' !in Suffix(t)) <==> ValidToken(t)
    ensures Suffix(t) != "" ==> !NameChar(Suffix(t)[0])
  {
    hide ValidName;
    match t {
      case VarPlain(_, _) =>
      case VarDefault(_, fallback, colon, _) => InEither('}', if colon then ":-" else "-", fallback);
      case VarRequired(_, msg, colon, _) => InEither('}', if colon then ":?" else "?", msg);
    }
  }

  lemma InnerParses(t: Token)
    requires t.Expansion?() && ValidToken(t)
    ensures ParseExpansion(Inner(t), t.offset) == Ok(t) && '}' !in Inner(t)
  {
    assert ValidName(t.name);
    hide ParseSuffix, Inner, Suffix, ValidToken;
    InnerSplits(t);
    SuffixWithin(t);
    var inner, n := Inner(t), |t.name|;
    assert inner[..n] == t.name && inner[n..] == Suffix(t);
    assert forall k :: 0 <= k < n ==> inner[k] == t.name[k];
    NameEnds(inner, 0, n);
    SuffixParses(t.name, Suffix(t), t.offset, t);
  }

  /** The parser accepts exactly the insides of valid expansions. */
  lemma ParseIsExact(inner: string, offset: nat, t: Token)
    requires '}' !in inner
    ensures (ParseExpansion(inner, offset) == Ok(t)) <==>
            (t.Expansion?() && ValidToken(t) && Inner(t) == inner && t.offset == offset)
  {
    hide ParseSuffix, NameChar, Inner, Suffix, ValidToken;
    if t.Expansion?() && ValidToken(t) && Inner(t) == inner && t.offset == offset {
      InnerParses(t);
    }
    if ParseExpansion(inner, offset) == Ok(t) {
      var end := NameEnd(inner, 0);
      SuffixParses(inner[..end], inner[end..], offset, t);
      InnerSplits(t);
      assert inner == inner[..end] + inner[end..];
      assert '}' !in Suffix(t);
      SuffixWithin(t);
    }
  }

  // ---------------------------------------------------------------------------
  // What the scan keeps
  // ---------------------------------------------------------------------------

  predicate Scanned(s: string, tokens: seq<Token>, i: nat, lit: nat) {
    && lit <= i <= |s|
    && IsTokensOf(s[..lit], tokens)
    && (tokens != [] ==> !tokens[|tokens| - 1].Literal?)
    && forall k: nat :: lit <= k < i ==> !Opens(s, k)
  }

  lemma FlushedIsLiteral(s: string, i: nat, lit: nat)
    requires lit < i <= |s| && forall k: nat :: lit <= k < i ==> !Opens(s, k)
    ensures Plain(s[lit..i]) && (Opens(s, i) ==> !EndsInDollar(s[lit..i]))
  {
    var text := s[lit..i];
    forall k: nat | k < |text| ensures !Opens(text, k) {
      assert !Opens(s, lit + k);
    }
    assert !Opens(s, i - 1) && text[|text| - 1] == s[i - 1];
  }

  lemma Extend(s: string, ts: seq<Token>, i: nat, t: Token, j: nat)
    requires i <= j <= |s| && IsTokensOf(s[..i], ts) && (ts != [] ==> MayFollow(ts[|ts| - 1], t))
    requires ValidToken(t) && PrintToken(t) == s[i..j] && (t.Expansion?() ==> t.offset == i)
    ensures IsTokensOf(s[..j], ts + [t])
  {
    hide Opens, ValidToken, PrintToken, MayFollow, WellFormed, Offsets, Print;
    Single(t, i);
    Appended(ts, [t], 0);
    assert s[..j] == s[..i] + s[i..j];
  }

  lemma FlushedReads(s: string, tokens: seq<Token>, i: nat, lit: nat)
    requires Scanned(s, tokens, i, lit)
    requires i == |s| || Opens(s, i)
    ensures IsTokensOf(s[..i], tokens + Flush(s, lit, i))
    ensures Opens(s, i) ==> Ready(tokens + Flush(s, lit, i))
  {
    hide Opens, Plain, EndsInDollar, WellFormed, Offsets, Print, IsTokensOf;
    if lit < i {
      FlushedIsLiteral(s, i, lit);
      Extend(s, tokens, lit, Literal(s[lit..i]), i);
    } else {
      assert tokens + Flush(s, lit, i) == tokens;
    }
  }

  lemma TokenReads(s: string, before: seq<Token>, i: nat, t: Token, end: nat)
    requires i <= end <= |s| && IsTokensOf(s[..i], before) && Ready(before)
    requires !t.Literal? && ValidToken(t) && PrintToken(t) == s[i..end] && (t.Expansion?() ==> t.offset == i)
    ensures Scanned(s, before + [t], end, end)
  {
    hide Opens, Plain, EndsInDollar, WellFormed, Offsets, Print, IsTokensOf, ValidToken, PrintToken;
    Extend(s, before, i, t, end);
  }

  lemma ExpansionReads(s: string, before: seq<Token>, i: nat, t: Token, end: nat)
    requires i + 1 < |s| && Opens(s, i) && s[i + 1] == '{' && IsTokensOf(s[..i], before) && Ready(before)
    requires IndexOf(s, '}', i + 2) == Some(end) && ParseExpansion(s[i + 2..end], i) == Ok(t)
    ensures Scanned(s, before + [t], end + 1, end + 1)
  {
    hide IsTokensOf, Ready, Scanned, ParseExpansion, ValidToken, Inner;
    var inner := s[i + 2..end];
    ParseIsExact(inner, i, t);
    assert s[i..end + 1] == "${" + inner + "}";
    TokenReads(s, before, i, t, end + 1);
  }

  lemma {:induction false} ScanReads(s: string, tokens: seq<Token>, i: nat, lit: nat)
    requires Scanned(s, tokens, i, lit)
    ensures match LexFrom(s, tokens, i, lit)
            case Ok(ts) => IsTokensOf(s, ts)
            case Err(e) => Broken(s, e)
    decreases |s| - i
  {
    hide IsTokensOf, Ready, ParseExpansion, Broken, PrintToken, ValidToken, Flush;
    if i == |s| {
      FlushedReads(s, tokens, i, lit);
      assert s[..i] == s;
    } else if !Opens(s, i) {
      ScanReads(s, tokens, i + 1, lit);
    } else {
      FlushedReads(s, tokens, i, lit);
      var before := tokens + Flush(s, lit, i);
      if s[i + 1] == '$' {
        EscapeReads(s, before, i);
        ScanReads(s, before + [Escape], i + 2, i + 2);
      } else {
        match IndexOf(s, '}', i + 2)
        case None => BrokenBecause(s, LexError(i, Unterminated), before);
        case Some(end) =>
          match ParseExpansion(s[i + 2..end], i)
          case Err(fault) => BrokenBecause(s, LexError(i, fault), before);
          case Ok(t) =>
            ExpansionReads(s, before, i, t, end);
            ScanReads(s, before + [t], end + 1, end + 1);
      }
    }
  }

  lemma EscapeReads(s: string, before: seq<Token>, i: nat)
    requires i + 1 < |s| && s[i] == '$' && s[i + 1] == '$' && IsTokensOf(s[..i], before) && Ready(before)
    ensures Scanned(s, before + [Escape], i + 2, i + 2)
  {
    hide IsTokensOf, Ready, Scanned;
    assert s[i..i + 2] == "$$";
    TokenReads(s, before, i, Escape, i + 2);
  }

  lemma BrokenBecause(s: string, e: LexError, ts: seq<Token>)
    requires BrokenAfter(s, e, ts)
    ensures Broken(s, e)
  {}

  // ---------------------------------------------------------------------------
  // A text has at most one reading
  // ---------------------------------------------------------------------------

  /** What follows a token in print cannot blur where the token ends. */
  predicate Separated(t: Token, after: string) {
    t.Literal? ==> after == "" || (Opens(after, 0) && !EndsInDollar(t.text))
  }

  lemma SeparatedWithin(ts: seq<Token>, rest: string)
    requires ts != [] && WellFormed(ts) && (rest == "" || (Ready(ts) && Opens(rest, 0)))
    ensures Separated(ts[0], Print(ts[1..]) + rest)
  {
    if |ts| > 1 {
      assert !ts[0].Literal? || Opens(PrintToken(ts[1]), 0);
      assert ts[1..][0] == ts[1];
    } else {
      assert Print(ts[1..]) + rest == rest;
    }
  }

  lemma BraceSplits(x: string, after: string, y: string, more: string)
    requires '}' !in x && '}' !in y && x + "}" + after == y + "}" + more
    ensures x == y && after == more
  {
    var s := x + "}" + after;
    assert s[0..|x|] == x && s[0..|y|] == y;
    IndexIs(s, 0, |x|);
    IndexIs(s, 0, |y|);
    assert after == s[|x| + 1..] && more == s[|y| + 1..];
  }

  lemma InsideBraces(t: Token, after: string)
    requires t.Expansion?()
    ensures (PrintToken(t) + after)[2..] == Inner(t) + "}" + after
  {
    hide Inner;
  }

  lemma BracesEnd(x: Token, after: string, y: Token, more: string)
    requires x.Expansion?() && y.Expansion?() && ValidToken(x) && ValidToken(y) && x.offset == y.offset
    requires PrintToken(x) + after == PrintToken(y) + more
    ensures x == y && after == more
  {
    hide ParseExpansion, Inner, ValidToken, PrintToken;
    InnerParses(x);
    InnerParses(y);
    InsideBraces(x, after);
    InsideBraces(y, more);
    BraceSplits(Inner(x), after, Inner(y), more);
  }

  function FirstOpening(s: string, from: nat): (r: nat)
    requires from <= |s|
    ensures from <= r <= |s| && (forall k: nat :: from <= k < r ==> !Opens(s, k)) && (r < |s| ==> Opens(s, r))
    decreases |s| - from
  {
    if from == |s| || Opens(s, from) then from else FirstOpening(s, from + 1)
  }

  lemma LiteralEnds(x: string, after: string)
    requires x != "" && Plain(x) && Separated(Literal(x), after)
    ensures FirstOpening(x + after, 0) == |x|
  {
    var s, n := x + after, |x|;
    forall k: nat | k < n ensures !Opens(s, k) {
      assert !Opens(x, k) && s[k] == x[k];
      if k + 1 < n {
        assert s[k + 1] == x[k + 1];
      }
    }
    assert after != "" ==> s[n] == after[0] && s[n + 1] == after[1] && Opens(s, n);
  }

  lemma HeadIsDetermined(x: Token, after: string, y: Token, more: string)
    requires ValidToken(x) && ValidToken(y) && (x.Expansion?() && y.Expansion?() ==> x.offset == y.offset)
    requires Separated(x, after) && Separated(y, more)
    requires PrintToken(x) + after == PrintToken(y) + more
    ensures x == y && after == more
  {
    hide Inner;
    var s := PrintToken(x) + after;
    if x.Expansion?() && y.Expansion?() {
      BracesEnd(x, after, y, more);
    } else if x.Literal? && y.Literal? {
      LiteralEnds(x.text, after);
      LiteralEnds(y.text, more);
      assert x.text == s[..|x.text|] && y.text == s[..|x.text|];
      assert after == s[|x.text|..] && more == s[|x.text|..];
    } else if x.Escape? && y.Escape? {
      assert after == s[2..] && more == s[2..];
    } else {
      HeadsDiffer(x, after);
      HeadsDiffer(y, more);
    }
  }

  /** The first two bytes tell the kinds apart. */
  lemma HeadsDiffer(x: Token, after: string)
    requires ValidToken(x) && Separated(x, after)
    ensures var s := PrintToken(x) + after;
            && s != ""
            && (x.Escape? <==> Opens(s, 0) && s[1] == '$')
            && (x.Expansion?() <==> Opens(s, 0) && s[1] == '{')
  {
    hide Inner;
    var s := PrintToken(x) + after;
    if x.Literal? {
      assert s[0] == x.text[0];
      if |x.text| > 1 {
        assert s[1] == x.text[1] && !Opens(x.text, 0);
      }
    }
  }

  lemma HeadsAgree(ts: seq<Token>, us: seq<Token>, rest: string, at: nat)
    requires ts != [] && WellFormed(ts) && WellFormed(us) && Offsets(ts, at) && Offsets(us, at)
    requires Print(us) == Print(ts) + rest
    requires rest == "" || (Ready(ts) && Opens(rest, 0))
    ensures us != [] && us[0] == ts[0] && Print(us[1..]) == Print(ts[1..]) + rest
  {
    hide PrintToken, ValidToken, Separated, MayFollow, EndsInDollar, Opens, Ready;
    SeparatedWithin(ts, rest);
    PrintsSomething(ts[0]);
    SeparatedWithin(us, "");
    var after, more := Print(ts[1..]) + rest, Print(us[1..]);
    assert more + "" == more;
    assert PrintToken(ts[0]) + after == PrintToken(us[0]) + more;
    HeadIsDetermined(ts[0], after, us[0], more);
  }

  lemma Unfold(ts: seq<Token>, at: nat)
    requires ts != [] && WellFormed(ts) && Offsets(ts, at)
    ensures WellFormed(ts[1..]) && Offsets(ts[1..], at + |PrintToken(ts[0])|)
    ensures Print(ts) == PrintToken(ts[0]) + Print(ts[1..])
    ensures Ready(ts) ==> Ready(ts[1..])
  {
    hide PrintToken, ValidToken, MayFollow, EndsInDollar;
  }

  /** A reading of a text begins with the reading of any part that ends at a safe point. */
  lemma {:induction false} PrefixIsDetermined(ts: seq<Token>, us: seq<Token>, rest: string, at: nat)
    returns (tail: seq<Token>)
    requires WellFormed(ts) && WellFormed(us) && Offsets(ts, at) && Offsets(us, at)
    requires Print(us) == Print(ts) + rest
    requires rest == "" || (Ready(ts) && Opens(rest, 0))
    ensures us == ts + tail
    ensures WellFormed(tail) && Print(tail) == rest && Offsets(tail, at + |Print(ts)|)
  {
    hide WellFormed, Offsets, Ready, PrintToken, Opens;
    if ts == [] {
      assert Print(ts) + rest == rest && [] + us == us;
      tail := us;
    } else {
      HeadsAgree(ts, us, rest, at);
      Unfold(ts, at);
      Unfold(us, at);
      tail := PrefixIsDetermined(ts[1..], us[1..], rest, at + |PrintToken(ts[0])|);
      assert us == [ts[0]] + (ts[1..] + tail) == ts + tail;
    }
  }

  lemma PrintsSomething(t: Token)
    requires ValidToken(t)
    ensures PrintToken(t) != ""
  {}

  lemma PrintsNothing(ts: seq<Token>)
    requires WellFormed(ts)
    ensures Print(ts) == "" <==> ts == []
  {
    if ts != [] {
      PrintsSomething(ts[0]);
    }
  }

  /** A text has one reading at most. */
  lemma ReadingIsUnique(s: string, ts: seq<Token>, us: seq<Token>)
    requires IsTokensOf(s, ts) && IsTokensOf(s, us)
    ensures ts == us
  {
    assert Print(us) == Print(ts) + "";
    var tail := PrefixIsDetermined(ts, us, "", 0);
    PrintsNothing(tail);
  }

  lemma ExpansionIsFound(s: string, pos: nat, t: Token, more: string)
    requires pos <= |s| && s[pos..] == PrintToken(t) + more
    requires t.Expansion?() && ValidToken(t) && t.offset == pos
    ensures pos + 1 < |s| && var found := IndexOf(s, '}', pos + 2);
            found.Some? && ParseExpansion(s[pos + 2..found.value], pos) == Ok(t)
  {
    hide ParseExpansion, Inner, ValidToken;
    InnerParses(t);
    var end := pos + 2 + |Inner(t)|;
    assert s[pos..] == "${" + Inner(t) + "}" + more;
    assert s[pos + 2..] == s[pos..][2..] == Inner(t) + "}" + more;
    assert s[end] == s[pos + 2..][|Inner(t)|] == '}';
    assert s[pos + 2..end] == s[pos + 2..][..|Inner(t)|] == Inner(t);
    IndexIs(s, pos + 2, end);
  }

  lemma OpensWithExpansion(ts: seq<Token>, at: nat)
    requires WellFormed(ts) && Offsets(ts, at) && Opens(Print(ts), 0) && Print(ts)[1] == '{'
    ensures ts != [] && ts[0].Expansion?() && ValidToken(ts[0]) && ts[0].offset == at
    ensures Print(ts) == PrintToken(ts[0]) + Print(ts[1..])
  {
    hide PrintToken, ValidToken, MayFollow, EndsInDollar;
    var more := Print(ts[1..]);
    assert more + "" == more;
    SeparatedWithin(ts, "");
    HeadsDiffer(ts[0], more);
  }

  lemma IndexInPart(s: string, end: nat, from: nat)
    requires from <= end <= |s| && IndexOf(s[..end], '}', from).Some?
    ensures IndexOf(s, '}', from) == IndexOf(s[..end], '}', from)
    ensures var at := IndexOf(s[..end], '}', from).value; s[from..at] == s[..end][from..at]
  {
    var at := IndexOf(s[..end], '}', from).value;
    assert s[from..at] == s[..end][from..at];
    IndexIs(s, from, at);
  }

  /** A reading of any longer part of the text has an expansion where the other text breaks off. */
  lemma ReadsOnAt(s: string, pos: nat, ts: seq<Token>, us: seq<Token>, end: nat)
    requires pos < end <= |s| && Opens(s[..end], pos) && s[pos + 1] == '{'
    requires IsTokensOf(s[..pos], ts) && Ready(ts) && IsTokensOf(s[..end], us)
    ensures var found := IndexOf(s, '}', pos + 2);
            found.Some? && ParseExpansion(s[pos + 2..found.value], pos).Ok?
  {
    hide ParseExpansion, PrintToken, ValidToken, Ready, MayFollow, WellFormed, Offsets, Print;
    var p := s[..end];
    var rest := p[pos..];
    assert p == s[..pos] + rest && Opens(rest, 0);
    var tail := PrefixIsDetermined(ts, us, rest, 0);
    OpensWithExpansion(tail, pos);
    ExpansionIsFound(p, pos, tail[0], Print(tail[1..]));
    IndexInPart(s, end, pos + 2);
  }

  lemma BrokenHasNoReading(s: string, e: LexError, us: seq<Token>)
    requires Broken(s, e)
    ensures !IsTokensOf(s, us)
  {
    var ts :| BrokenAfter(s, e, ts);
    if IsTokensOf(s, us) {
      hide ParseExpansion, IsTokensOf, Ready;
      assert s[..|s|] == s;
      ReadsOnAt(s, e.pos, ts, us, |s|);
    }
  }

  lemma BrokenOnce(s: string, e: LexError, f: LexError)
    requires Broken(s, e) && Broken(s, f)
    ensures e.pos >= f.pos
  {
    hide ParseExpansion, IsTokensOf, Ready;
    var ts :| BrokenAfter(s, e, ts);
    var us :| BrokenAfter(s, f, us);
    if e.pos < f.pos {
      assert s[e.pos + 1] != s[f.pos];
      ReadsOnAt(s, e.pos, ts, us, f.pos);
    }
  }

  lemma {:induction false} IndexIs(s: string, from: nat, at: nat)
    requires from <= at < |s| && s[at] == '}' && '}' !in s[from..at]
    ensures IndexOf(s, '}', from) == Some(at)
    decreases at - from
  {
    if from < at {
      assert s[from] == s[from..at][0];
      assert s[from + 1..at] == s[from..at][1..];
      IndexIs(s, from + 1, at);
    }
  }

  // ---------------------------------------------------------------------------
  // Results
  // ---------------------------------------------------------------------------

  /** The lexer answers with the one reading there is, or says where and why there is none. */
  lemma LexIsExact(s: string)
    ensures forall ts :: Lex(s) == Ok(ts) <==> IsTokensOf(s, ts)
    ensures forall e :: Lex(s) == Err(e) <==> Broken(s, e)
  {
    assert Scanned(s, [], 0, 0);
    ScanReads(s, [], 0, 0);
    hide Lex, IsTokensOf, Broken;
    match Lex(s)
    case Ok(ts) =>
      forall us | IsTokensOf(s, us) ensures ts == us {
        ReadingIsUnique(s, ts, us);
      }
      forall e ensures !Broken(s, e) {
        if Broken(s, e) {
          BrokenHasNoReading(s, e, ts);
        }
      }
    case Err(e) =>
      forall us ensures !IsTokensOf(s, us) {
        BrokenHasNoReading(s, e, us);
      }
      forall f | Broken(s, f) ensures e == f {
        BrokenOnce(s, e, f);
        BrokenOnce(s, f, e);
        BrokenForOneReason(s, e, f);
      }
  }

  lemma BrokenForOneReason(s: string, e: LexError, f: LexError)
    requires Broken(s, e) && Broken(s, f) && e.pos == f.pos
    ensures e == f
  {}

  /** Printing what was lexed gives the text back. */
  lemma PrintUndoesLex(s: string)
    requires Lex(s).Ok?
    ensures Print(Lex(s).value) == s
  {
    LexIsExact(s);
  }

  /** Lexing what was printed gives the tokens back. */
  lemma LexUndoesPrint(ts: seq<Token>)
    requires WellFormed(ts) && Offsets(ts, 0)
    ensures Lex(Print(ts)) == Ok(ts)
  {
    LexIsExact(Print(ts));
  }
}
