/** The template language as a user writes it: what each form expands to, and what is refused. */
module TemplateForms {
  import opened Common
  import opened TemplateLexer
  import opened TemplateExpander
  import opened EnvMaps

  // ---------------------------------------------------------------------------
  // The characters of a text
  // ---------------------------------------------------------------------------

  /** A decimal digit, an ASCII letter or an underscore, by number. */
  predicate MayStandInName(c: char) {
    var n := c as int;
    48 <= n <= 57 || 65 <= n <= 90 || 97 <= n <= 122 || n == 95
  }

  predicate IsName(name: string) {
    name != "" && forall k :: 0 <= k < |name| ==> MayStandInName(name[k])
  }

  /** Text in which nothing opens and after which nothing can be taken for part of it. */
  predicate Settled(p: string) {
    && (forall k :: 0 <= k < |p| - 1 ==> !(p[k] == '$' && (p[k + 1] == '$' || p[k + 1] == '{')))
    && (p != "" ==> p[|p| - 1] != '$')
  }

  /** The pair that binds the name: the first of that name. */
  predicate Binds(env: seq<Pair>, name: string, i: nat, value: string) {
    i < |env| && env[i] == (name, value) && forall j :: 0 <= j < i ==> env[j].0 != name
  }

  ghost predicate IsBound(env: seq<Pair>, name: string, value: string) {
    exists i: nat :: Binds(env, name, i, value)
  }

  lemma NamesAreNames(name: string)
    ensures IsName(name) <==> ValidName(name)
  {
    assert forall k :: 0 <= k < |name| ==> (MayStandInName(name[k]) <==> NameChar(name[k]));
  }

  /** The lookup answers with the first pair of that name, and with nothing exactly when there is none. */
  lemma {:induction false} FirstMatchBinds(env: seq<Pair>, name: string)
    ensures forall value :: FirstMatch(env, name) == Some(value) <==> IsBound(env, name, value)
    ensures FirstMatch(env, name) == None <==> forall j :: 0 <= j < |env| ==> env[j].0 != name
  {
    if env != [] {
      FirstMatchBinds(env[1..], name);
      if env[0].0 == name {
        assert Binds(env, name, 0, env[0].1);
      } else {
        assert forall j :: 0 <= j < |env[1..]| ==> env[1..][j] == env[j + 1];
        forall value ensures IsBound(env, name, value) <==> IsBound(env[1..], name, value) {
          if i: nat :| Binds(env, name, i, value) {
            assert Binds(env[1..], name, i - 1, value);
          }
          if i: nat :| Binds(env[1..], name, i, value) {
            assert Binds(env, name, i + 1, value);
          }
        }
      }
    }
  }

  // ---------------------------------------------------------------------------
  // One expansion after settled text
  // ---------------------------------------------------------------------------

  function Lead(p: string): seq<Token> {
    if p == "" then [] else [Literal(p)]
  }

  lemma LeadReads(p: string)
    requires Settled(p)
    ensures IsTokensOf(p, Lead(p)) && Ready(Lead(p))
  {
    if p != "" {
      assert Plain(p) by {
        forall k: nat | k < |p| ensures !Opens(p, k) {
        }
      }
      Single(Literal(p), 0);
    }
  }

  /** Settled text and one expansion have one reading. */
  lemma OneExpansionReads(p: string, t: Token)
    requires Settled(p) && t.Expansion?() && ValidToken(t) && t.offset == |p|
    ensures Lex(p + PrintToken(t)) == Ok(Lead(p) + [t])
  {
    hide Lex, Broken, PrintToken, ValidToken, WellFormed, Offsets, Print, Settled;
    LeadReads(p);
    Single(t, |p|);
    Appended(Lead(p), [t], 0);
    LexIsExact(p + PrintToken(t));
    assert IsTokensOf(p + PrintToken(t), Lead(p) + [t]);
  }

  lemma OneExpansionIsWorth(p: string, t: Token, env: seq<Pair>, input: string)
    requires t.VarPlain? || t.VarRequired? || t.VarDefault?
    ensures
      Values(Lead(p) + [t], env, input)
        == match Value(t, env)
           case None => Err(Refusal(t, input))
           case Some(v) => Ok(p + v)
  {
    hide Value;
    assert [t][1..] == [];
    assert Values([], env, input) == Ok("");
    if p == "" {
      assert Lead(p) + [t] == [t];
    } else {
      assert (Lead(p) + [t])[1..] == [t] && (Lead(p) + [t])[0] == Literal(p);
      assert Value(Literal(p), env) == Some(p) by { LiteralIsItself(p, env); }
    }
    var v := Value(t, env);
    if v.Some? {
      assert v.value + "" == v.value && p + (v.value + "") == p + v.value;
      assert p == "" ==> p + v.value == v.value;
      assert Values([t], env, input) == Ok(v.value);
    }
  }

  lemma LiteralIsItself(p: string, env: seq<Pair>)
    ensures Value(Literal(p), env) == Some(p)
  {}

  /** Settled text and one expansion expand to the text and the expansion's value, or are refused. */
  lemma OneExpansion(p: string, t: Token, env: seq<Pair>)
    requires Settled(p) && t.Expansion?() && ValidToken(t) && t.offset == |p|
    ensures
      Expansion(p + PrintToken(t), env)
        == match Value(t, env)
           case None => Err(Refusal(t, p + PrintToken(t)))
           case Some(v) => Ok(p + v)
  {
    hide Lex, Value, Values, PrintToken, ValidToken, Settled;
    OneExpansionReads(p, t);
    OneExpansionIsWorth(p, t, env, p + PrintToken(t));
  }

  // ---------------------------------------------------------------------------
  // The five forms
  // ---------------------------------------------------------------------------

  /** `${name}`: the value, or refused exactly when there is none. */
  lemma PlainForm(p: string, name: string, env: seq<Pair>)
    requires Settled(p) && IsName(name)
    ensures
      var input := p + "${" + name + "}";
      Expansion(input, env)
        == match FirstMatch(env, name)
           case None => Err(Undefined(name, input))
           case Some(v) => Ok(p + v)
  {
    hide Settled, Expansion, FirstMatch;
    NamesAreNames(name);
    var t := VarPlain(name, |p|);
    OneExpansion(p, t, env);
    assert p + PrintToken(t) == p + "${" + name + "}";
  }

  lemma DefaultForm(p: string, name: string, d: string, colon: bool, env: seq<Pair>)
    requires Settled(p) && IsName(name) && '}' !in d
    ensures
      var found := FirstMatch(env, name);
      Expansion(p + "${" + name + (if colon then ":-" else "-") + d + "}", env)
        == if found == None || (colon && found == Some("")) then Ok(p + d) else Ok(p + found.value)
  {
    hide Settled, Expansion, FirstMatch, IsName;
    NamesAreNames(name);
    var t := VarDefault(name, d, colon, |p|);
    OneExpansion(p, t, env);
    assert p + PrintToken(t) == p + "${" + name + (if colon then ":-" else "-") + d + "}";
  }

  lemma RequiredForm(p: string, name: string, msg: string, colon: bool, env: seq<Pair>)
    requires Settled(p) && IsName(name) && '}' !in msg
    ensures
      var found := FirstMatch(env, name);
      Expansion(p + "${" + name + (if colon then ":?" else "?") + msg + "}", env)
        == if found == None || (colon && found == Some("")) then Err(MissingRequired(name, msg, |p|, |p| + |name| + 3))
           else Ok(p + found.value)
  {
    hide Settled, Expansion, FirstMatch, IsName;
    NamesAreNames(name);
    var t := VarRequired(name, msg, colon, |p|);
    OneExpansion(p, t, env);
    assert p + PrintToken(t) == p + "${" + name + (if colon then ":?" else "?") + msg + "}";
  }

  /** `${name-d}`: `d` exactly when there is no value. `${name:-d}`: also when the value is empty. */
  lemma DefaultForms(p: string, name: string, d: string, env: seq<Pair>)
    requires Settled(p) && IsName(name) && '}' !in d
    ensures
      var found := FirstMatch(env, name);
      && Expansion(p + "${" + name + "-" + d + "}", env) == (if found == None then Ok(p + d) else Ok(p + found.value))
      && Expansion(p + "${" + name + ":-" + d + "}", env)
         == (if found == None || found == Some("") then Ok(p + d) else Ok(p + found.value))
  {
    hide Settled, Expansion, FirstMatch, IsName;
    DefaultForm(p, name, d, false, env);
    DefaultForm(p, name, d, true, env);
  }

  /**
   `${name?msg}`: the value, or refused with `msg` exactly when there is none, at the place the
   expansion starts. `${name:?msg}`: also when the value is empty.
   */
  lemma RequiredForms(p: string, name: string, msg: string, env: seq<Pair>)
    requires Settled(p) && IsName(name) && '}' !in msg
    ensures
      var found := FirstMatch(env, name);
      var refused := Err(MissingRequired(name, msg, |p|, |p| + |name| + 3));
      && Expansion(p + "${" + name + "?" + msg + "}", env) == (if found == None then refused else Ok(p + found.value))
      && Expansion(p + "${" + name + ":?" + msg + "}", env)
         == (if found == None || found == Some("") then refused else Ok(p + found.value))
  {
    hide Settled, Expansion, FirstMatch, IsName;
    RequiredForm(p, name, msg, false, env);
    RequiredForm(p, name, msg, true, env);
  }

  // ---------------------------------------------------------------------------
  // What is refused
  // ---------------------------------------------------------------------------

  /** What may stand between braces. */
  ghost predicate IsForm(inner: string) {
    exists name, d :: IsName(name) &&
      (inner == name || inner == name + "-" + d || inner == name + ":-" + d || inner == name + "?" + d || inner == name + ":?" + d)
  }

  lemma FormParses(inner: string, offset: nat)
    requires '}' !in inner
    ensures ParseExpansion(inner, offset).Ok? <==> IsForm(inner)
  {
    hide ParseExpansion, IsName;
    if ParseExpansion(inner, offset).Ok? {
      var t := ParseExpansion(inner, offset).value;
      ParseIsExact(inner, offset, t);
      NamesAreNames(t.name);
      var d := match t case VarDefault(_, fallback, _, _) => fallback case VarRequired(_, msg, _, _) => msg case _ => "";
      assert inner == t.name || inner == t.name + "-" + d || inner == t.name + ":-" + d || inner == t.name + "?" + d
             || inner == t.name + ":?" + d;
    }
    if IsForm(inner) {
      var name, d :| IsName(name) &&
        (inner == name || inner == name + "-" + d || inner == name + ":-" + d || inner == name + "?" + d || inner == name + ":?" + d);
      NamesAreNames(name);
      FormIsOfToken(inner, name, d, offset);
    }
  }

  lemma FormIsOfToken(inner: string, name: string, d: string, offset: nat)
    requires '}' !in inner && ValidName(name)
    requires inner == name || inner == name + "-" + d || inner == name + ":-" + d || inner == name + "?" + d || inner == name + ":?" + d
    ensures ParseExpansion(inner, offset).Ok?
  {
    hide ParseExpansion, ValidName;
    var t :=
      if inner == name then VarPlain(name, offset)
      else if inner == name + "-" + d then VarDefault(name, d, false, offset)
      else if inner == name + ":-" + d then VarDefault(name, d, true, offset)
      else if inner == name + "?" + d then VarRequired(name, d, false, offset)
      else VarRequired(name, d, true, offset);
    if !t.VarPlain? {
      assert forall k :: 0 <= k < |d| ==> inner[|inner| - |d| + k] == d[k];
      assert '}' !in d;
    }
    assert Inner(t) == inner;
    ParseIsExact(inner, offset, t);
  }

  /** Why an inside is refused: it is empty, no name starts it, or what follows the longest name is no modifier. */
  lemma FaultIs(inner: string, offset: nat)
    requires '}' !in inner && !IsForm(inner)
    ensures
      ParseExpansion(inner, offset)
        == if inner == "" then Err(EmptyName)
           else if !MayStandInName(inner[0]) then Err(BadName)
           else Err(BadModifier(inner[NameEnd(inner, 0)..]))
    ensures
      var end := NameEnd(inner, 0);
      && (forall k :: 0 <= k < end ==> MayStandInName(inner[k])) && (end < |inner| ==> !MayStandInName(inner[end]))
  {
    FormParses(inner, offset);
    var end := NameEnd(inner, 0);
    assert forall k :: 0 <= k < |inner| ==> (MayStandInName(inner[k]) <==> NameChar(inner[k]));
  }

  lemma BrokenIsRefused(s: string, e: LexError, ts: seq<Token>, env: seq<Pair>)
    requires BrokenAfter(s, e, ts)
    ensures Lex(s) == Err(e) && Expansion(s, env) == Err(BadTemplate(s, e.pos))
  {
    hide BrokenAfter, Lex;
    LexIsExact(s);
    assert Broken(s, e);
  }

  /** Text after which an expansion is never closed is refused at its `$`. */
  lemma UnclosedIsRefused(p: string, rest: string, env: seq<Pair>)
    requires Settled(p) && '}' !in rest
    ensures Lex(p + "${" + rest) == Err(LexError(|p|, Unterminated))
    ensures Expansion(p + "${" + rest, env) == Err(BadTemplate(p + "${" + rest, |p|))
  {
    hide Settled, IsTokensOf, ParseExpansion, Lex, Expansion;
    var s := p + "${" + rest;
    LeadReads(p);
    assert s[..|p|] == p;
    assert forall k :: |p| + 2 <= k < |s| ==> s[k] == rest[k - |p| - 2];
    assert IndexOf(s, '}', |p| + 2).None?;
    BrokenIsRefused(s, LexError(|p|, Unterminated), Lead(p), env);
  }

  /** So is text after which one closes around something that is no form. */
  lemma MalformedIsRefused(p: string, inner: string, after: string, env: seq<Pair>)
    requires Settled(p) && '}' !in inner && !IsForm(inner)
    ensures
      var input := p + "${" + inner + "}" + after;
      && Expansion(input, env) == Err(BadTemplate(input, |p|))
      && ParseExpansion(inner, |p|).Err? && Lex(input) == Err(LexError(|p|, ParseExpansion(inner, |p|).error))
  {
    hide Settled, IsTokensOf, ParseExpansion, Lex, Expansion, IsForm;
    var s := p + "${" + inner + "}" + after;
    LeadReads(p);
    FormParses(inner, |p|);
    assert s[..|p|] == p && s[|p| + 2..] == inner + "}" + after;
    FirstClose(s, |p| + 2, inner, after);
    BrokenIsRefused(s, LexError(|p|, ParseExpansion(inner, |p|).error), Lead(p), env);
  }

  lemma FirstClose(s: string, from: nat, inner: string, after: string)
    requires from <= |s| && s[from..] == inner + "}" + after && '}' !in inner
    ensures IndexOf(s, '}', from) == Some(from + |inner|) && s[from..from + |inner|] == inner
  {
    var close := from + |inner|;
    assert s[close] == s[from..][|inner|] == '}';
    assert s[from..close] == inner;
    assert forall k :: from <= k < close ==> s[k] == inner[k - from];
    assert s[close] in s[from..];
    assert IndexOf(s, '}', from).Some? && s[IndexOf(s, '}', from).value] == '}';
    assert forall r: nat :: close < r <= |s| ==> s[from..r][|inner|] == '}';
  }
}
