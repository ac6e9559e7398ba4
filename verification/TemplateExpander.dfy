/** Expanding a template against an environment, and what that means piece by piece. */
module TemplateExpander {
  import opened Common
  import opened TemplateLexer
  import opened EnvMaps

  datatype InterpError =
    | Undefined(name: string, input: string)
    | MissingRequired(name: string, msg: string, start: nat, end: nat)
    | BadTemplate(input: string, pos: nat)

  /** The value a variable contributes, if its token accepts what the environment holds. */
  function Resolve(t: Token, env: seq<Pair>): Option<string>
    requires t.Expansion?()
  {
    var found := FirstMatch(env, t.name);
    match t
    case VarPlain(_, _) => found
    case VarDefault(_, fallback, colon, _) =>
      if found.None? || (colon && found.value == "") then Some(fallback) else found
    case VarRequired(_, _, colon, _) =>
      if found.Some? && colon && found.value == "" then None else found
  }

  function Value(t: Token, env: seq<Pair>): Option<string> {
    match t
    case Literal(text) => Some(text)
    case Escape => Some("$")
    case _ => Resolve(t, env)
  }

  function Refusal(t: Token, input: string): InterpError
    requires t.VarPlain? || t.VarRequired?
  {
    if t.VarPlain? then Undefined(t.name, input)
    else MissingRequired(t.name, t.msg, t.offset, t.offset + |t.name| + 3)
  }

  function After(out: string, rest: Result<string, InterpError>): Result<string, InterpError> {
    if rest.Err? then rest else Ok(out + rest.value)
  }

  /** The tokens' values end to end, or the first refusal. */
  function Values(ts: seq<Token>, env: seq<Pair>, input: string): Result<string, InterpError> {
    if ts == [] then Ok("")
    else
      match Value(ts[0], env)
      case None => Err(Refusal(ts[0], input))
      case Some(v) => After(v, Values(ts[1..], env, input))
  }

  function Expansion(input: string, env: seq<Pair>): Result<string, InterpError> {
    match Lex(input)
    case Err(e) => Err(BadTemplate(input, e.pos))
    case Ok(ts) => Values(ts, env, input)
  }

  lemma ValuesNext(ts: seq<Token>, i: nat, env: seq<Pair>, input: string, out: string)
    requires i < |ts|
    ensures After(out, Values(ts[i..], env, input))
            == match Value(ts[i], env)
               case None => Err(Refusal(ts[i], input))
               case Some(v) => After(out + v, Values(ts[i + 1..], env, input))
  {
    hide Value;
    assert ts[i..][0] == ts[i] && ts[i..][1..] == ts[i + 1..];
    var v, rest := Value(ts[i], env), Values(ts[i + 1..], env, input);
    if v.Some? && rest.Ok? {
      assert out + (v.value + rest.value) == (out + v.value) + rest.value;
    }
  }

  lemma ValuesStart(ts: seq<Token>, env: seq<Pair>, input: string)
    ensures Values(ts, env, input) == After("", Values(ts[0..], env, input))
    ensures ts[|ts|..] == [] && Values([], env, input) == Ok("")
  {
    hide Value;
    assert ts[0..] == ts;
    var whole := Values(ts, env, input);
    assert whole.Ok? ==> "" + whole.value == whole.value;
  }

  method Expand(input: string, env: EnvMap) returns (r: Result<string, InterpError>)
    requires env.Valid()
    ensures r == Expansion(input, env.entries)
  {
    hide LexFrom, IsTokensOf, Broken, FirstMatch, Values, Indexes;
    var lexed := LexTemplate(input);
    if lexed.Err? {
      return Err(BadTemplate(input, lexed.error.pos));
    }
    var tokens := lexed.value;
    ValuesStart(tokens, env.entries, input);
    if tokens == [] {
      return Ok("");
    }
    if |tokens| == 1 {
      if tokens[0].Literal? {
        ValuesNext(tokens, 0, env.entries, input, "");
        assert "" + tokens[0].text + "" == tokens[0].text;
        return Ok(tokens[0].text);
      }
    }
    var out := "";
    var i := 0;
    while i < |tokens|
      invariant 0 <= i <= |tokens|
      invariant Values(tokens, env.entries, input) == After(out, Values(tokens[i..], env.entries, input))
    {
      ValuesNext(tokens, i, env.entries, input, out);
      match tokens[i] {
        case Literal(text) => out := out + text;
        case Escape => out := out + "$";
        case VarPlain(name, _) =>
          var value := env.Get(name);
          if value.None? {
            return Err(Undefined(name, input));
          }
          out := out + value.value;
        case VarDefault(name, fallback, colon, _) =>
          var value := env.Get(name);
          if value.None? || (colon && value.value == "") {
            out := out + fallback;
          } else {
            out := out + value.value;
          }
        case VarRequired(name, msg, colon, offset) =>
          var value := env.Get(name);
          if value.None? || (colon && value.value == "") {
            return Err(MissingRequired(name, msg, offset, offset + |name| + 3));
          }
          out := out + value.value;
      }
      i := i + 1;
    }
    assert out + "" == out;
    return Ok(out);
  }

  // ---------------------------------------------------------------------------
  // Two templates end to end
  // ---------------------------------------------------------------------------

  /** The tokens read `shift` bytes further on. */
  function Shifted(t: Token, shift: nat): Token {
    if t.Expansion?() then t.(offset := t.offset + shift) else t
  }

  function Shift(ts: seq<Token>, shift: nat): seq<Token> {
    if ts == [] then [] else [Shifted(ts[0], shift)] + Shift(ts[1..], shift)
  }

  /** The tokens of two texts put end to end: two literals that meet become one. */
  function Join(ts: seq<Token>, us: seq<Token>): seq<Token> {
    if ts != [] && us != [] && ts[|ts| - 1].Literal? && us[0].Literal?
    then ts[..|ts| - 1] + [Literal(ts[|ts| - 1].text + us[0].text)] + us[1..]
    else ts + us
  }

  lemma ShiftedIsAlike(t: Token, shift: nat)
    ensures PrintToken(Shifted(t, shift)) == PrintToken(t) && ValidToken(Shifted(t, shift)) == ValidToken(t)
    ensures Shifted(t, shift).Expansion?() == t.Expansion?()
    ensures t.Expansion?() ==> Shifted(t, shift).offset == t.offset + shift
  {}

  lemma FollowsAlike(t: Token, u: Token, shift: nat)
    ensures MayFollow(Shifted(t, shift), Shifted(u, shift)) == MayFollow(t, u)
  {}

  lemma {:induction false} ShiftReads(ts: seq<Token>, at: nat, shift: nat)
    requires WellFormed(ts) && Offsets(ts, at)
    ensures |Shift(ts, shift)| == |ts| && forall i :: 0 <= i < |ts| ==> Shift(ts, shift)[i] == Shifted(ts[i], shift)
    ensures WellFormed(Shift(ts, shift)) && Offsets(Shift(ts, shift), at + shift) && Print(Shift(ts, shift)) == Print(ts)
  {
    hide ValidToken, PrintToken, MayFollow, Shifted;
    if ts != [] {
      ShiftReads(ts[1..], at + |PrintToken(ts[0])|, shift);
      ShiftedIsAlike(ts[0], shift);
      assert Shift(ts, shift)[1..] == Shift(ts[1..], shift);
      if |ts| > 1 {
        ShiftedIsAlike(ts[1], shift);
        FollowsAlike(ts[0], ts[1], shift);
        assert Shift(ts, shift)[1] == Shifted(ts[1], shift);
      }
    }
  }

  lemma {:induction false} PartsAreFormed(ts: seq<Token>, us: seq<Token>)
    requires WellFormed(ts + us)
    ensures WellFormed(ts) && WellFormed(us) && (ts != [] && us != [] ==> MayFollow(ts[|ts| - 1], us[0]))
  {
    hide ValidToken, MayFollow;
    if ts == [] {
      assert ts + us == us;
    } else {
      assert (ts + us)[1..] == ts[1..] + us && (ts + us)[0] == ts[0];
      PartsAreFormed(ts[1..], us);
      if |ts| > 1 {
        assert (ts + us)[1] == ts[1] && ts[1..][|ts| - 2] == ts[|ts| - 1];
      }
    }
  }

  lemma {:induction false} PartsPrint(ts: seq<Token>, us: seq<Token>, at: nat)
    requires Offsets(ts + us, at)
    ensures Print(ts + us) == Print(ts) + Print(us) && Offsets(ts, at) && Offsets(us, at + |Print(ts)|)
  {
    hide PrintToken;
    if ts == [] {
      assert ts + us == us && Print(ts) + Print(us) == Print(us);
    } else {
      assert (ts + us)[1..] == ts[1..] + us && (ts + us)[0] == ts[0];
      PartsPrint(ts[1..], us, at + |PrintToken(ts[0])|);
    }
  }

  lemma PartsRead(ts: seq<Token>, us: seq<Token>, at: nat)
    requires WellFormed(ts + us) && Offsets(ts + us, at)
    ensures WellFormed(ts) && WellFormed(us) && Print(ts + us) == Print(ts) + Print(us)
    ensures Offsets(ts, at) && Offsets(us, at + |Print(ts)|)
    ensures ts != [] && us != [] ==> MayFollow(ts[|ts| - 1], us[0])
  {
    hide WellFormed, Offsets, Print;
    PartsAreFormed(ts, us);
    PartsPrint(ts, us, at);
  }

  lemma LiteralsJoin(x: string, y: string)
    requires x != "" && y != "" && Plain(x) && Plain(y) && !EndsInDollar(x)
    ensures Plain(x + y) && EndsInDollar(x + y) == EndsInDollar(y)
  {
    var s, n := x + y, |x|;
    forall k: nat | k < |s| ensures !Opens(s, k) {
      if k < n {
        assert !Opens(x, k);
      } else {
        assert !Opens(y, k - n);
      }
    }
  }

  /** Joining the readings of two texts gives the reading of the text they make. */
  lemma JoinReads(ts: seq<Token>, us: seq<Token>)
    requires WellFormed(ts) && WellFormed(us) && Offsets(ts, 0) && Offsets(us, |Print(ts)|) && Ready(ts)
    ensures IsTokensOf(Print(ts) + Print(us), Join(ts, us))
    ensures Ready(us) ==> Ready(Join(ts, us))
  {
    hide PrintToken, ValidToken, EndsInDollar, WellFormed, Offsets, Print;
    if ts != [] && us != [] && ts[|ts| - 1].Literal? && us[0].Literal? {
      JoinReadsAtLiterals(ts, us);
    } else {
      Appended(ts, us, 0);
    }
  }

  lemma {:induction false} AllValid(ts: seq<Token>)
    requires WellFormed(ts)
    ensures forall i :: 0 <= i < |ts| ==> ValidToken(ts[i])
  {
    hide ValidToken, MayFollow;
    if ts != [] {
      AllValid(ts[1..]);
    }
  }

  lemma CutLastLiteral(ts: seq<Token>)
    requires ts != [] && WellFormed(ts) && Offsets(ts, 0) && ts[|ts| - 1].Literal?
    ensures var rest, x := ts[..|ts| - 1], ts[|ts| - 1];
            && WellFormed(rest) && Offsets(rest, 0) && ValidToken(x) && Print(ts) == Print(rest) + x.text
            && (rest != [] ==> !rest[|rest| - 1].Literal?)
  {
    hide EndsInDollar, ValidToken, WellFormed, Offsets, Print;
    var n := |ts| - 1;
    AllValid(ts);
    assert ts == ts[..n] + [ts[n]];
    PartsRead(ts[..n], [ts[n]], 0);
    Single(ts[n], |Print(ts[..n])|);
  }

  lemma CutFirstLiteral(us: seq<Token>, at: nat)
    requires us != [] && WellFormed(us) && Offsets(us, at) && us[0].Literal?
    ensures var y, rest := us[0], us[1..];
            && WellFormed(rest) && Offsets(rest, at + |y.text|) && ValidToken(y) && Print(us) == y.text + Print(rest)
            && (rest != [] ==> !rest[0].Literal? && !EndsInDollar(y.text))
  {
    hide EndsInDollar, ValidToken;
  }

  lemma JoinReadsAtLiterals(ts: seq<Token>, us: seq<Token>)
    requires WellFormed(ts) && WellFormed(us) && Offsets(ts, 0) && Offsets(us, |Print(ts)|) && Ready(ts)
    requires ts != [] && us != [] && ts[|ts| - 1].Literal? && us[0].Literal?
    ensures IsTokensOf(Print(ts) + Print(us), Join(ts, us))
    ensures Ready(us) ==> Ready(Join(ts, us))
  {
    hide Opens, Plain, EndsInDollar, WellFormed, Offsets, Print;
    var before, x, y, rest := ts[..|ts| - 1], ts[|ts| - 1].text, us[0].text, us[1..];
    CutLastLiteral(ts);
    CutFirstLiteral(us, |Print(ts)|);
    LiteralsJoin(x, y);
    Single(Literal(x + y), |Print(before)|);
    JoinMiddle(before, Literal(x + y), rest);
    Splice(Print(before), x, y, Print(rest));
  }

  lemma Splice(before: string, x: string, y: string, rest: string)
    ensures (before + x) + (y + rest) == before + (x + y) + rest
  {}

  lemma JoinMiddle(ts: seq<Token>, middle: Token, us: seq<Token>)
    requires WellFormed(ts) && WellFormed([middle]) && WellFormed(us)
    requires Offsets(ts, 0) && Offsets([middle], |Print(ts)|) && Offsets(us, |Print(ts)| + |Print([middle])|)
    requires ts != [] ==> MayFollow(ts[|ts| - 1], middle)
    requires us != [] ==> MayFollow(middle, us[0])
    ensures IsTokensOf(Print(ts) + Print([middle]) + Print(us), ts + [middle] + us)
  {
    hide PrintToken, ValidToken, MayFollow, WellFormed, Offsets, Print;
    Appended(ts, [middle], 0);
    Appended(ts + [middle], us, 0);
  }

  /** Reading a text and then another is reading the two together. */
  lemma LexJoins(a: string, ts: seq<Token>, b: string, us: seq<Token>)
    requires IsTokensOf(a, ts) && Ready(ts) && IsTokensOf(b, us)
    ensures IsTokensOf(a + b, Join(ts, Shift(us, |a|)))
    ensures Ready(us) ==> Ready(Join(ts, Shift(us, |a|)))
  {
    hide Opens, Plain, EndsInDollar, WellFormed, Offsets, Print, Join;
    ShiftReads(us, 0, |a|);
    JoinReads(ts, Shift(us, |a|));
  }

  lemma {:induction false} IndexShifts(a: string, b: string, from: nat)
    requires from <= |b|
    ensures IndexOf(a + b, '}', |a| + from)
            == match IndexOf(b, '}', from) case None => None case Some(at) => Some(|a| + at)
    decreases |b| - from
  {
    if from < |b| {
      assert (a + b)[|a| + from] == b[from];
      IndexShifts(a, b, from + 1);
    }
  }

  lemma FaultIgnoresOffset(inner: string, at: nat, other: nat)
    requires ParseExpansion(inner, at).Err?
    ensures ParseExpansion(inner, other) == ParseExpansion(inner, at)
  {}

  /** What breaks the second text breaks the two together, as much further on. */
  lemma BreakShifts(a: string, ts: seq<Token>, b: string, e: LexError)
    requires IsTokensOf(a, ts) && Ready(ts) && Broken(b, e)
    ensures Broken(a + b, LexError(|a| + e.pos, e.fault))
  {
    hide IsTokensOf, Ready, ParseExpansion, Join, Shift;
    var us :| BrokenAfter(b, e, us);
    LexJoins(a, ts, b[..e.pos], us);
    assert (a + b)[..|a| + e.pos] == a + b[..e.pos];
    IndexShifts(a, b, e.pos + 2);
    var found := IndexOf(b, '}', e.pos + 2);
    if found.Some? {
      assert (a + b)[|a| + e.pos + 2..|a| + found.value] == b[e.pos + 2..found.value];
      FaultIgnoresOffset(b[e.pos + 2..found.value], e.pos, |a| + e.pos);
    }
    assert BrokenAfter(a + b, LexError(|a| + e.pos, e.fault), Join(ts, Shift(us, |a|)));
  }

  // ---------------------------------------------------------------------------
  // What the joined tokens are worth
  // ---------------------------------------------------------------------------

  /** The values end to end when every token has one. */
  function Worth(ts: seq<Token>, env: seq<Pair>): Option<string> {
    if ts == [] then Some("") else Both(Value(ts[0], env), Worth(ts[1..], env))
  }

  function Both(x: Option<string>, y: Option<string>): Option<string> {
    if x.Some? && y.Some? then Some(x.value + y.value) else None
  }

  lemma {:induction false} ValuesAreWorth(ts: seq<Token>, env: seq<Pair>, input: string)
    ensures Values(ts, env, input).Ok? <==> Worth(ts, env).Some?
    ensures Values(ts, env, input).Ok? ==> Worth(ts, env) == Some(Values(ts, env, input).value)
  {
    hide Value;
    if ts != [] {
      ValuesAreWorth(ts[1..], env, input);
    }
  }

  lemma BothAssociates(x: Option<string>, y: Option<string>, z: Option<string>)
    ensures Both(Both(x, y), z) == Both(x, Both(y, z))
    ensures Both(Some(""), x) == x == Both(x, Some(""))
  {
    if x.Some? {
      assert "" + x.value == x.value == x.value + "";
      if y.Some? && z.Some? {
        assert x.value + y.value + z.value == x.value + (y.value + z.value);
      }
    }
  }

  lemma {:induction false} WorthAppends(ts: seq<Token>, us: seq<Token>, env: seq<Pair>)
    ensures Worth(ts + us, env) == Both(Worth(ts, env), Worth(us, env))
  {
    hide Value, Both;
    if ts == [] {
      assert ts + us == us;
      BothAssociates(Worth(us, env), Some(""), Some(""));
    } else {
      assert (ts + us)[1..] == ts[1..] + us && (ts + us)[0] == ts[0];
      WorthAppends(ts[1..], us, env);
      BothAssociates(Value(ts[0], env), Worth(ts[1..], env), Worth(us, env));
    }
  }

  lemma WorthOfOne(t: Token, env: seq<Pair>)
    ensures Worth([t], env) == Value(t, env)
  {
    hide Value, Both;
    assert [t][1..] == [] && [t][0] == t;
    BothAssociates(Value(t, env), Some(""), Some(""));
  }

  lemma {:induction false} WorthShifts(ts: seq<Token>, shift: nat, env: seq<Pair>)
    ensures Worth(Shift(ts, shift), env) == Worth(ts, env)
  {
    hide Both, FirstMatch;
    if ts != [] {
      WorthShifts(ts[1..], shift, env);
      assert Shift(ts, shift)[1..] == Shift(ts[1..], shift);
    }
  }

  lemma LiteralsAreWorthBoth(x: Token, y: Token, middle: Token, env: seq<Pair>)
    requires x.Literal? && y.Literal? && middle == Literal(x.text + y.text)
    ensures Both(Value(x, env), Value(y, env)) == Value(middle, env)
  {}

  lemma WorthJoins(ts: seq<Token>, us: seq<Token>, env: seq<Pair>)
    ensures Worth(Join(ts, us), env) == Both(Worth(ts, env), Worth(us, env))
  {
    hide Both, Worth, Resolve;
    WorthAppends(ts, us, env);
    if ts != [] && us != [] && ts[|ts| - 1].Literal? && us[0].Literal? {
      var before, x, y, rest := ts[..|ts| - 1], ts[|ts| - 1], us[0], us[1..];
      var middle := Literal(x.text + y.text);
      assert ts + us == before + [x] + [y] + rest;
      WorthAppends(before + [x] + [y], rest, env);
      WorthAppends(before + [x], [y], env);
      WorthAppends(before, [x], env);
      WorthAppends(before + [middle], rest, env);
      WorthAppends(before, [middle], env);
      WorthOfOne(x, env);
      WorthOfOne(y, env);
      WorthOfOne(middle, env);
      BothAssociates(Worth(before, env), Value(x, env), Value(y, env));
      LiteralsAreWorthBoth(x, y, middle, env);
    }
  }

  // ---------------------------------------------------------------------------
  // Results
  // ---------------------------------------------------------------------------

  /**
   Expansion is compositional: unless the first template ends in a literal `$`, the two
   together expand exactly when each does, to the one result after the other.
   */
  lemma ExpansionIsCompositional(a: string, b: string, env: seq<Pair>)
    requires Lex(a).Ok? && Ready(Lex(a).value)
    ensures Expansion(a + b, env).Ok? <==> Expansion(a, env).Ok? && Expansion(b, env).Ok?
    ensures Expansion(a + b, env).Ok? ==> Expansion(a + b, env).value == Expansion(a, env).value + Expansion(b, env).value
    ensures Lex(b).Err? ==> Lex(a + b) == Err(LexError(|a| + Lex(b).error.pos, Lex(b).error.fault))
  {
    hide Lex, IsTokensOf, Broken, Join, Shift, Ready, Values, Worth;
    var ts := Lex(a).value;
    LexIsExact(a);
    LexIsExact(b);
    LexIsExact(a + b);
    ValuesAreWorth(ts, env, a);
    match Lex(b)
    case Err(e) => BreakShifts(a, ts, b, e);
    case Ok(us) =>
      LexJoins(a, ts, b, us);
      var joined := Join(ts, Shift(us, |a|));
      ValuesAreWorth(us, env, b);
      ValuesAreWorth(joined, env, a + b);
      WorthJoins(ts, Shift(us, |a|), env);
      WorthShifts(us, |a|, env);
  }

  /** A template with no `$$` and no `${` is its own expansion. */
  lemma PlainExpandsToItself(s: string, env: seq<Pair>)
    requires Plain(s)
    ensures Expansion(s, env) == Ok(s)
    ensures Lex(s) == Ok(if s == "" then [] else [Literal(s)])
  {
    hide Plain, LexFrom;
    LexIsExact(s);
    if s == "" {
      assert IsTokensOf(s, []);
    } else {
      Single(Literal(s), 0);
      assert IsTokensOf(s, [Literal(s)]);
      assert [Literal(s)][1..] == [] && s + "" == s;
      assert Values([Literal(s)], env, s) == After(s, Ok(""));
    }
  }

  /** Every `$` doubled. */
  function Escaped(s: string): string {
    if s == "" then ""
    else Escaped(s[..|s| - 1]) + EscapedChar(s[|s| - 1])
  }

  function EscapedChar(c: char): string {
    if c == '$' then "$$" else [c]
  }

  lemma CharReads(c: char, env: seq<Pair>)
    ensures Lex(EscapedChar(c)).Ok? && Ready(Lex(EscapedChar(c)).value) && Expansion(EscapedChar(c), env) == Ok([c])
  {
    hide LexFrom;
    if c == '$' {
      Single(Escape, 0);
      assert IsTokensOf("$$", [Escape]);
      LexIsExact("$$");
      assert [Escape][1..] == [] && "$" + "" == "$";
      assert Values([Escape], env, "$$") == After("$", Ok(""));
    } else {
      PlainExpandsToItself([c], env);
    }
  }

  /** Doubling every `$` escapes any text exactly, whatever the environment. */
  lemma {:induction false} EscapingIsExact(s: string, env: seq<Pair>)
    ensures Expansion(Escaped(s), env) == Ok(s)
    ensures Lex(Escaped(s)).Ok? && Ready(Lex(Escaped(s)).value)
  {
    hide Lex, IsTokensOf, Expansion, EscapedChar;
    if s == "" {
      PlainExpandsToItself("", env);
    } else {
      var rest, c := s[..|s| - 1], s[|s| - 1];
      EscapingIsExact(rest, env);
      CharReads(c, env);
      ExpansionIsCompositional(Escaped(rest), EscapedChar(c), env);
      StaysReady(Escaped(rest), EscapedChar(c));
      assert s == rest + [c];
    }
  }

  lemma StaysReady(a: string, b: string)
    requires Lex(a).Ok? && Ready(Lex(a).value) && Lex(b).Ok? && Ready(Lex(b).value)
    ensures Lex(a + b).Ok? && Ready(Lex(a + b).value)
  {
    hide Lex, IsTokensOf, Ready, Broken;
    LexIsExact(a);
    LexIsExact(b);
    LexIsExact(a + b);
    LexJoins(a, Lex(a).value, b, Lex(b).value);
  }

  // ---------------------------------------------------------------------------
  // A first template that ends in a literal `$`
  // ---------------------------------------------------------------------------

  /** The two texts together expand exactly when each does, to one result after the other. */
  predicate Composes(a: string, b: string, env: seq<Pair>) {
    && (Expansion(a + b, env).Ok? <==> Expansion(a, env).Ok? && Expansion(b, env).Ok?)
    && (Expansion(a + b, env).Ok? ==> Expansion(a + b, env).value == Expansion(a, env).value + Expansion(b, env).value)
  }

  /** `$` taken off the literal at the end, and `$$` put there instead. */
  function Resplit(ts: seq<Token>): seq<Token>
    requires ts != [] && ts[|ts| - 1].Literal? && EndsInDollar(ts[|ts| - 1].text)
  {
    var rest, text := ts[..|ts| - 1], ts[|ts| - 1].text;
    var head := text[..|text| - 1];
    (if head == "" then rest else rest + [Literal(head)]) + [Escape]
  }

  lemma HeadIsPlain(text: string)
    requires Plain(text) && EndsInDollar(text)
    ensures var head := text[..|text| - 1]; Plain(head) && !EndsInDollar(head) && text == head + "$"
  {
    var head := text[..|text| - 1];
    forall k: nat | k < |head| ensures !Opens(head, k) {
      assert !Opens(text, k);
    }
    if head != "" {
      assert !Opens(text, |head| - 1);
    }
  }

  /** Another `$` makes the last one an escape. */
  lemma ResplitReads(a: string, ts: seq<Token>)
    requires IsTokensOf(a, ts) && !Ready(ts)
    ensures IsTokensOf(a + "$", Resplit(ts))
  {
    hide Plain, WellFormed, Offsets, Print, Opens;
    var rest, text := ts[..|ts| - 1], ts[|ts| - 1].text;
    CutLastLiteral(ts);
    HeadIsPlain(text);
    var head := text[..|text| - 1];
    if head == "" {
      Single(Escape, |Print(rest)|);
      JoinEscape(rest);
      assert a + "$" == Print(rest) + "$$";
    } else {
      Single(Literal(head), |Print(rest)|);
      assert rest != [] ==> MayFollow(rest[|rest| - 1], Literal(head));
      Appended(rest, [Literal(head)], 0);
      var before := rest + [Literal(head)];
      assert before[|before| - 1] == Literal(head);
      JoinEscape(before);
      assert a + "$" == Print(before) + "$$";
    }
  }

  lemma JoinEscape(ts: seq<Token>)
    requires WellFormed(ts) && Offsets(ts, 0) && Ready(ts)
    ensures IsTokensOf(Print(ts) + "$$", ts + [Escape])
  {
    hide WellFormed, Offsets, Print, EndsInDollar;
    Single(Escape, |Print(ts)|);
    Appended(ts, [Escape], 0);
  }

  lemma ResplitIsWorthTheSame(ts: seq<Token>, env: seq<Pair>)
    requires ts != [] && ts[|ts| - 1].Literal? && EndsInDollar(ts[|ts| - 1].text)
    ensures Worth(Resplit(ts), env) == Worth(ts, env)
  {
    hide Worth, Both, Resolve;
    var rest, last := ts[..|ts| - 1], ts[|ts| - 1];
    var head := last.text[..|last.text| - 1];
    assert ts == rest + [last] && last.text == head + "$";
    WorthAppends(rest, [last], env);
    WorthOfOne(last, env);
    WorthOfOne(Escape, env);
    if head == "" {
      WorthAppends(rest, [Escape], env);
    } else {
      WorthAppends(rest, [Literal(head)], env);
      WorthAppends(rest + [Literal(head)], [Escape], env);
      WorthOfOne(Literal(head), env);
      BothAssociates(Worth(rest, env), Value(Literal(head), env), Value(Escape, env));
      TwoTexts(head, "$");
    }
  }

  lemma TwoTexts(x: string, y: string)
    ensures Both(Some(x), Some(y)) == Some(x + y)
  {}

  /** After any template that ends in a literal `$`, one more `$` adds nothing, in every environment. */
  lemma AnotherDollarAddsNothing(a: string, env: seq<Pair>)
    requires Lex(a).Ok? && !Ready(Lex(a).value) && Expansion(a, env).Ok?
    ensures Expansion(a + "$", env) == Expansion(a, env)
    ensures !Composes(a, "$", env)
  {
    hide LexFrom, IsTokensOf, Worth, Values;
    var ts := Lex(a).value;
    LexIsExact(a);
    LexIsExact(a + "$");
    ResplitReads(a, ts);
    ResplitIsWorthTheSame(ts, env);
    ValuesAreWorth(ts, env, a);
    ValuesAreWorth(Resplit(ts), env, a + "$");
    PlainExpandsToItself("$", env);
  }

  /** An environment in which every variable of the tokens has a value. */
  function Generous(ts: seq<Token>): seq<Pair> {
    if ts == [] then []
    else (if ts[0].Expansion?() then [(ts[0].name, "x")] else []) + Generous(ts[1..])
  }

  lemma {:induction false} GenerousAnswers(ts: seq<Token>, env: seq<Pair>)
    requires forall i :: 0 <= i < |ts| && ts[i].Expansion?() ==> FirstMatch(env, ts[i].name) == Some("x")
    ensures Worth(ts, env).Some?
  {
    if ts != [] {
      assert Value(ts[0], env).Some?;
      GenerousAnswers(ts[1..], env);
    }
  }

  lemma {:induction false} GenerousHas(ts: seq<Token>, name: string)
    requires exists i :: 0 <= i < |ts| && ts[i].Expansion?() && ts[i].name == name
    ensures FirstMatch(Generous(ts), name) == Some("x")
  {
    var i :| 0 <= i < |ts| && ts[i].Expansion?() && ts[i].name == name;
    if ts[0].Expansion?() && ts[0].name == name {
    } else {
      assert ts[1..][i - 1] == ts[i];
      GenerousHas(ts[1..], name);
      if ts[0].Expansion?() {
        assert Generous(ts)[1..] == Generous(ts[1..]);
      } else {
        assert Generous(ts) == Generous(ts[1..]);
      }
    }
  }

  lemma ExpandsSomewhere(a: string) returns (env: seq<Pair>)
    requires Lex(a).Ok?
    ensures Expansion(a, env).Ok?
  {
    hide Lex, Worth, Values, FirstMatch;
    var ts := Lex(a).value;
    env := Generous(ts);
    forall i | 0 <= i < |ts| && ts[i].Expansion?() ensures FirstMatch(env, ts[i].name) == Some("x") {
      GenerousHas(ts, ts[i].name);
    }
    GenerousAnswers(ts, env);
    ValuesAreWorth(ts, env, a);
  }

  /** A template composes with every other in every environment exactly when it does not end in a literal `$`. */
  lemma CompositionalExactly(a: string)
    requires Lex(a).Ok?
    ensures (forall b, env :: Composes(a, b, env)) <==> Ready(Lex(a).value)
  {
    hide Lex, Expansion, Ready;
    if Ready(Lex(a).value) {
      forall b, env ensures Composes(a, b, env) {
        ExpansionIsCompositional(a, b, env);
      }
    } else {
      var env := ExpandsSomewhere(a);
      AnotherDollarAddsNothing(a, env);
    }
  }

  /** Expansion fails exactly when some token refuses, and the first to refuse is the one named. */
  lemma {:induction false} FirstRefusalIsNamed(ts: seq<Token>, k: nat, env: seq<Pair>, input: string)
    requires k <= |ts| && (forall j :: 0 <= j < k ==> Value(ts[j], env).Some?)
    requires k < |ts| ==> Value(ts[k], env).None?
    ensures k == |ts| ==> Values(ts, env, input).Ok?
    ensures k < |ts| ==> Values(ts, env, input) == Err(Refusal(ts[k], input))
  {
    hide Resolve;
    if k > 0 {
      assert Value(ts[0], env).Some?;
      FirstRefusalIsNamed(ts[1..], k - 1, env, input);
    }
  }
}
