/** What the writers write, said by the text: members with commas between, and strings that read back. */
module JsonTexts {
  import opened Common
  import opened JsonKeys
  import opened JsonWriters

  // ---------------------------------------------------------------------------
  // Arrays and objects
  // ---------------------------------------------------------------------------

  function Commas(parts: seq<string>): string {
    if parts == [] then ""
    else if |parts| == 1 then parts[0]
    else parts[0] + [','] + Commas(parts[1..])
  }

  lemma {:induction false} ItemsAre(w: Writer, value: Json, i: nat, parts: seq<string>)
    requires value.Array? && i <= |value.items| && |parts| == |value.items| - i
    requires forall j :: 0 <= j < |parts| ==> parts[j] == Write(w, value.items[i + j])
    ensures Items(w, value, i) == Commas(parts)
    decreases |parts|
  {
    hide Write;
    if |parts| > 1 {
      ItemsAre(w, value, i + 1, parts[1..]);
    }
  }

  lemma {:induction false} MembersAre(w: Writer, value: Json, keys: seq<string>, parts: seq<string>)
    requires value.Object? && |parts| == |keys| && forall k :: k in keys ==> k in value.fields
    requires forall j :: 0 <= j < |parts| ==> parts[j] == w.quote(keys[j]) + [':'] + Write(w, value.fields[keys[j]])
    ensures Members(w, value, keys) == Commas(parts)
    decreases |parts|
  {
    hide Write;
    if |parts| > 1 {
      MembersAre(w, value, keys[1..], parts[1..]);
    }
  }

  /** An array is its items in brackets, commas between; a leaf is its own text. */
  lemma ArrayIs(w: Writer, items: seq<Json>, parts: seq<string>)
    requires |parts| == |items| && forall j :: 0 <= j < |items| ==> parts[j] == Write(w, items[j])
    ensures Write(w, Array(items)) == ['['] + Commas(parts) + [']']
    ensures forall j :: 0 <= j < |items| && items[j].Leaf? ==> parts[j] == items[j].text
  {
    ItemsAre(w, Array(items), 0, parts);
  }

  /** An object is its members in braces, commas between, each a quoted key, a colon and a value, in the writer's order. */
  lemma ObjectIs(w: Writer, fields: map<string, Json>, keys: seq<string>, parts: seq<string>)
    requires keys == w.order(fields.Keys) && ListsKeys(keys, fields.Keys) && |parts| == |keys|
    requires forall j :: 0 <= j < |keys| ==> parts[j] == w.quote(keys[j]) + [':'] + Write(w, fields[keys[j]])
    ensures Write(w, Object(fields)) == ['{'] + Commas(parts) + ['}']
  {
    MembersAre(w, Object(fields), keys, parts);
  }

  // ---------------------------------------------------------------------------
  // Strings read back
  // ---------------------------------------------------------------------------

  /** A hexadecimal digit in lower case. */
  function HexValue(c: char): Option<nat> {
    if 48 <= c as int <= 57 then Some(c as int - 48)
    else if 97 <= c as int <= 102 then Some(c as int - 87)
    else None
  }

  /** What a backslash and a character stand for (section 7 of RFC 8259). */
  function Meant(c: char): Option<char> {
    match c
    case 'b' => Some(8 as char)
    case 't' => Some(9 as char)
    case 'n' => Some(10 as char)
    case 'f' => Some(12 as char)
    case 'r' => Some(13 as char)
    case '\"' => Some('\"')
    case '\\' => Some('\\')
    case _ => None
  }

  function Before(c: char, rest: Option<string>): Option<string> {
    if rest.None? then None else Some([c] + rest.value)
  }

  /** A string's text after its opening quote: bare characters are printable, and the first bare quote is the last character. */
  function ReadBody(t: string): Option<string> {
    if t == "" then None
    else if t[0] == '\"' then if |t| == 1 then Some("") else None
    else if t[0] != '\\' then if t[0] as int < 32 then None else Before(t[0], ReadBody(t[1..]))
    else if |t| == 1 then None
    else if Meant(t[1]).Some? then Before(Meant(t[1]).value, ReadBody(t[2..]))
    else if |t| >= 6 && t[1..4] == "u00" && HexValue(t[4]).Some? && HexValue(t[5]).Some? then
      Before((HexValue(t[4]).value * 16 + HexValue(t[5]).value) as char, ReadBody(t[6..]))
    else None
  }

  function ReadString(t: string): Option<string> {
    if t != "" && t[0] == '\"' then ReadBody(t[1..]) else None
  }

  lemma HexReads(d: nat)
    requires d < 16
    ensures HexValue(HexDigit(d)) == Some(d)
  {}

  lemma EscapeReads(c: char, rest: string)
    ensures ReadBody(EscapeChar(c) + rest) == Before(c, ReadBody(rest))
  {
    hide HexDigit, HexValue;
    var e := EscapeChar(c);
    assert (e + rest)[|e|..] == rest;
    if |e| == 6 {
      HexReads(c as int / 16);
      HexReads(c as int % 16);
      assert (e + rest)[1..4] == "u00";
    }
  }

  lemma {:induction false} EscapedReads(s: string)
    ensures ReadBody(Escaped(s) + ['\"']) == Some(s)
  {
    hide EscapeChar, ReadBody;
    if s == "" {
      assert Escaped(s) + ['\"'] == ['\"'];
      assert ReadBody(['\"']) == Some("") by { EmptyReads(); }
    } else {
      EscapedReads(s[1..]);
      EscapeReads(s[0], Escaped(s[1..]) + ['\"']);
      assert Escaped(s) + ['\"'] == EscapeChar(s[0]) + (Escaped(s[1..]) + ['\"']);
      assert s == [s[0]] + s[1..];
    }
  }

  lemma EmptyReads()
    ensures ReadBody(['\"']) == Some("")
  {}

  /** A quoted string reads back as the string, in the standard's own terms. */
  lemma QuotedReads(s: string)
    ensures ReadString(Quote(s)) == Some(s)
  {
    hide Escaped, ReadBody;
    EscapedReads(s);
    assert Quote(s)[1..] == Escaped(s) + ['\"'];
  }

  /** A character is escaped only if it must be, and at length only if it has no short form. */
  lemma EscapesAreShort(c: char)
    ensures EscapeChar(c) == [c] <==> c as int >= 32 && c != '\"' && c != '\\'
    ensures |EscapeChar(c)| == 6 <==> c as int < 32 && c as int !in {8, 9, 10, 12, 13}
  {}
}
