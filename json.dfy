/**
 * `JSON.stringify` and `JSON.parse` for the flat objects that travel in the event stream:
 * `{content, title}`, `{done, title}`, `{content}` and `{done}`, whose member values are
 * strings, booleans or `null`. Stringify writes no white space and escapes strings the way
 * `JSON.stringify` does; ParseObject reads exactly that syntax and fails (None, where
 * `JSON.parse` throws) on anything else.
 */
module Json {
  import opened Wrappers
  import opened Text

  /** A member value. */
  datatype Value = Null | Bool(b: bool) | Str(s: string)

  /** An object: its members in insertion order. */
  type Object = seq<(string, Value)>

  function HexDigit(n: int): char
    requires 0 <= n < 16
  {
    if n < 10 then ('0' as int + n) as char else ('a' as int + n - 10) as char
  }

  function HexValue(c: char): (r: Option<int>)
    ensures r.Some? ==> 0 <= r.value < 16
  {
    if '0' <= c <= '9' then Some(c as int - '0' as int)
    else if 'a' <= c <= 'f' then Some(c as int - 'a' as int + 10)
    else if 'A' <= c <= 'F' then Some(c as int - 'A' as int + 10)
    else None
  }

  /** How `JSON.stringify` writes one character inside a string literal. */
  function EscapeChar(c: char): string {
    if c == '"' then "\\\""
    else if c == '\\' then "\\\\"
    else if c == '\n' then "\\n"
    else if c == '\r' then "\\r"
    else if c == '\t' then "\\t"
    else if c as int == 0x08 then "\\b"
    else if c as int == 0x0C then "\\f"
    else if c as int < 0x20 then "\\u00" + [HexDigit(c as int / 16), HexDigit(c as int % 16)]
    else [c]
  }

  function Escape(s: string): string {
    if s == [] then "" else EscapeChar(s[0]) + Escape(s[1..])
  }

  /** A JSON string literal. */
  function Quote(s: string): string {
    "\"" + Escape(s) + "\""
  }

  function StringifyValue(v: Value): string {
    match v
    case Null => "null"
    case Bool(b) => if b then "true" else "false"
    case Str(s) => Quote(s)
  }

  function StringifyMember(m: (string, Value)): string {
    Quote(m.0) + ":" + StringifyValue(m.1)
  }

  function StringifyMembers(o: Object): seq<string> {
    seq(|o|, i requires 0 <= i < |o| => StringifyMember(o[i]))
  }

  /** `JSON.stringify` of an object. */
  function Stringify(o: Object): (r: string)
    ensures |r| >= 2 && r[0] == '{' && r[|r| - 1] == '}'
  {
    "{" + Join(StringifyMembers(o), ",") + "}"
  }

  /** The character a backslash escape stands for, and how many characters after the backslash it takes. */
  function Unescape(s: string): Option<(char, nat)> {
    if s == [] then None
    else if s[0] == '"' then Some(('"', 1))
    else if s[0] == '\\' then Some(('\\', 1))
    else if s[0] == '/' then Some(('/', 1))
    else if s[0] == 'b' then Some((0x08 as char, 1))
    else if s[0] == 'f' then Some((0x0C as char, 1))
    else if s[0] == 'n' then Some(('\n', 1))
    else if s[0] == 'r' then Some(('\r', 1))
    else if s[0] == 't' then Some(('\t', 1))
    else if s[0] == 'u' && |s| >= 5 then
      match (HexValue(s[1]), HexValue(s[2]), HexValue(s[3]), HexValue(s[4]))
      case (Some(a), Some(b), Some(c), Some(d)) =>
        var n := a * 4096 + b * 256 + c * 16 + d;
        // a lone surrogate half is not a character of its own
        if 0xD800 <= n < 0xE000 then None else Some((n as char, 5))
      case _ => None
    else None
  }

  /** Reads the rest of a string literal after its opening quote: its characters and what follows the closing quote. */
  function ParseChars(s: string): (r: Option<(string, string)>)
    ensures r.Some? ==> |r.value.1| < |s|
    decreases |s|
  {
    if s == [] then None
    else if s[0] == '"' then Some(("", s[1..]))
    else if s[0] == '\\' then
      match Unescape(s[1..])
      case None => None
      case Some((c, k)) =>
        if 1 + k > |s| then None
        else
          match ParseChars(s[1 + k..])
          case None => None
          case Some((t, rest)) => Some(([c] + t, rest))
    else if (s[0] as int) < 0x20 then None
    else
      match ParseChars(s[1..])
      case None => None
      case Some((t, rest)) => Some(([s[0]] + t, rest))
  }

  function ParseValue(s: string): (r: Option<(Value, string)>)
    ensures r.Some? ==> |r.value.1| < |s|
  {
    if "null" <= s then Some((Null, s[4..]))
    else if "true" <= s then Some((Bool(true), s[4..]))
    else if "false" <= s then Some((Bool(false), s[5..]))
    else if s != [] && s[0] == '"' then
      match ParseChars(s[1..])
      case None => None
      case Some((t, rest)) => Some((Str(t), rest))
    else None
  }

  /** Reads `"key":value` members separated by commas up to the closing brace, which must end the input. */
  function ParseMembers(s: string): Option<Object>
    decreases |s|
  {
    if s == [] || s[0] != '"' then None
    else
      match ParseChars(s[1..])
      case None => None
      case Some((k, r1)) =>
        if r1 == [] || r1[0] != ':' then None
        else
          match ParseValue(r1[1..])
          case None => None
          case Some((v, r2)) =>
            if r2 == "}" then Some([(k, v)])
            else if r2 != [] && r2[0] == ',' then
              match ParseMembers(r2[1..])
              case None => None
              case Some(ms) => Some([(k, v)] + ms)
            else None
  }

  /** `JSON.parse` of an object; None where `JSON.parse` would throw or the text is not such an object. */
  function ParseObject(s: string): Option<Object> {
    if s == "{}" then Some([])
    else if s != [] && s[0] == '{' then ParseMembers(s[1..])
    else None
  }

  lemma HexDigitValue(n: int)
    requires 0 <= n < 16
    ensures HexValue(HexDigit(n)) == Some(n)
  {
  }

  /** Reading back one escaped character. */
  lemma {:induction false} ParseCharsEscapeChar(c: char, tail: string)
    ensures ParseChars(EscapeChar(c) + tail) ==
      match ParseChars(tail)
      case None => None
      case Some((t, rest)) => Some(([c] + t, rest))
  {
    var x := EscapeChar(c) + tail;
    if c == '"' || c == '\\' || c == '\n' || c == '\r' || c == '\t' || c as int == 0x08 || c as int == 0x0C {
      assert x[1..][1..] == tail;
      assert x[1 + 1..] == tail;
    } else if c as int < 0x20 {
      var hi, lo := c as int / 16, c as int % 16;
      HexDigitValue(hi);
      HexDigitValue(lo);
      assert x[1..][1] == '0' && x[1..][2] == '0' && x[1..][3] == HexDigit(hi) && x[1..][4] == HexDigit(lo);
      assert Unescape(x[1..]) == Some((c, 5));
      assert x[1 + 5..] == tail;
    } else {
      assert x[1..] == tail;
    }
  }

  /** String literals round-trip: reading `Escape(s)` up to its closing quote gives `s` back. */
  lemma {:induction false} ParseCharsEscape(s: string, rest: string)
    ensures ParseChars(Escape(s) + "\"" + rest) == Some((s, rest))
    decreases |s|
  {
    if s == [] {
      assert (Escape(s) + "\"" + rest)[1..] == rest;
    } else {
      ParseCharsEscape(s[1..], rest);
      assert Escape(s) + "\"" + rest == EscapeChar(s[0]) + (Escape(s[1..]) + "\"" + rest);
      ParseCharsEscapeChar(s[0], Escape(s[1..]) + "\"" + rest);
      assert [s[0]] + s[1..] == s;
    }
  }

  lemma ParseValueStringify(v: Value, rest: string)
    requires rest == [] || rest[0] == ',' || rest[0] == '}'
    ensures ParseValue(StringifyValue(v) + rest) == Some((v, rest))
  {
    match v
    case Null => ParseKeyword("null", Null, rest);
    case Bool(b) =>
      if b {
        ParseKeyword("true", Bool(true), rest);
      } else {
        ParseKeyword("false", Bool(false), rest);
      }
    case Str(t) => ParseQuoted(t, rest);
  }

  /** `null`, `true` and `false` read back as themselves. */
  lemma ParseKeyword(word: string, v: Value, rest: string)
    requires (word, v) == ("null", Null) || (word, v) == ("true", Bool(true)) || (word, v) == ("false", Bool(false))
    ensures ParseValue(word + rest) == Some((v, rest))
  {
    var x := word + rest;
    assert x[..|word|] == word && x[|word|..] == rest;
    if word == "null" {
      assert "null" <= x;
    } else if word == "true" {
      assert x[0] == 't' && !("null" <= x);
      assert "true" <= x;
    } else {
      assert x[0] == 'f' && !("null" <= x) && !("true" <= x);
      assert "false" <= x;
    }
  }

  /** A quoted string reads back as that string. */
  lemma ParseQuoted(t: string, rest: string)
    ensures ParseValue(Quote(t) + rest) == Some((Str(t), rest))
  {
    var x := Quote(t) + rest;
    assert x[0] == '"';
    assert x[1..] == Escape(t) + "\"" + rest;
    ParseCharsEscape(t, rest);
  }

  lemma AfterOpeningQuote(e: string, v: string, tail: string)
    ensures ("\"" + e + "\"" + ":" + v + tail)[1..] == e + "\"" + (":" + v + tail)
  {
  }

  /** One member `"key":value` followed by a comma or the closing brace reads back as that member. */
  lemma ParseOneMember(m: (string, Value), tail: string)
    requires tail == "}" || (tail != [] && tail[0] == ',')
    ensures ParseChars((StringifyMember(m) + tail)[1..]) == Some((m.0, ":" + StringifyValue(m.1) + tail))
    ensures ParseValue(StringifyValue(m.1) + tail) == Some((m.1, tail))
  {
    var e, v := Escape(m.0), StringifyValue(m.1);
    assert StringifyMember(m) + tail == "\"" + e + "\"" + ":" + v + tail;
    AfterOpeningQuote(e, v, tail);
    ParseCharsEscape(m.0, ":" + v + tail);
    ParseValueStringify(m.1, tail);
  }

  lemma ParseMembersUnfold(s: string, k: string, r1: string, v: Value, r2: string)
    requires s != [] && s[0] == '"' && ParseChars(s[1..]) == Some((k, r1))
    requires r1 != [] && r1[0] == ':' && ParseValue(r1[1..]) == Some((v, r2))
    requires r2 == "}" || (r2 != [] && r2[0] == ',')
    ensures ParseMembers(s) ==
      if r2 == "}" then Some([(k, v)])
      else match ParseMembers(r2[1..])
        case None => None
        case Some(ms) => Some([(k, v)] + ms)
  {
  }

  lemma MemberOpens(m: (string, Value), tail: string)
    ensures (StringifyMember(m) + tail)[0] == '"'
  {
  }

  lemma ValueAfterColon(m: (string, Value), tail: string)
    requires tail == "}" || (tail != [] && tail[0] == ',')
    ensures (":" + StringifyValue(m.1) + tail)[0] == ':'
    ensures ParseValue((":" + StringifyValue(m.1) + tail)[1..]) == Some((m.1, tail))
  {
    assert (":" + StringifyValue(m.1) + tail)[1..] == StringifyValue(m.1) + tail;
    ParseValueStringify(m.1, tail);
  }

  lemma MemberReads(m: (string, Value), tail: string)
    requires tail == "}" || (tail != [] && tail[0] == ',')
    ensures (StringifyMember(m) + tail)[0] == '"'
    ensures ParseChars((StringifyMember(m) + tail)[1..]) == Some((m.0, ":" + StringifyValue(m.1) + tail))
    ensures (":" + StringifyValue(m.1) + tail)[0] == ':'
    ensures ParseValue((":" + StringifyValue(m.1) + tail)[1..]) == Some((m.1, tail))
  {
    MemberOpens(m, tail);
    ParseOneMember(m, tail);
    ValueAfterColon(m, tail);
  }

  /** Reading one member and what follows it. */
  lemma ParseMembersStep(m: (string, Value), tail: string)
    requires tail == "}" || (tail != [] && tail[0] == ',')
    ensures ParseMembers(StringifyMember(m) + tail) ==
      if tail == "}" then Some([m])
      else match ParseMembers(tail[1..])
        case None => None
        case Some(ms) => Some([m] + ms)
  {
    MemberReads(m, tail);
    ParseMembersUnfold(StringifyMember(m) + tail, m.0, ":" + StringifyValue(m.1) + tail, m.1, tail);
  }

  lemma MembersText(o: Object)
    requires o != []
    ensures |o| == 1 ==> Join(StringifyMembers(o), ",") + "}" == StringifyMember(o[0]) + "}"
    ensures |o| > 1 ==> (Join(StringifyMembers(o), ",") + "}" ==
                         StringifyMember(o[0]) + ("," + (Join(StringifyMembers(o[1..]), ",") + "}")))
  {
    var ms := StringifyMembers(o);
    var first := StringifyMember(o[0]);
    assert ms[0] == first;
    if |o| > 1 {
      var j := Join(StringifyMembers(o[1..]), ",");
      assert Join(ms, ",") == first + "," + j by {
        assert ms[1..] == StringifyMembers(o[1..]);
      }
      Regroup(first, ",", j, "}");
    }
  }

  lemma Regroup(a: string, b: string, c: string, d: string)
    ensures a + b + c + d == a + (b + (c + d))
  {
  }

  lemma {:induction false} ParseMembersStringify(o: Object)
    requires o != []
    ensures ParseMembers(Join(StringifyMembers(o), ",") + "}") == Some(o)
  {
    MembersText(o);
    if |o| == 1 {
      ParseMembersStep(o[0], "}");
      assert [o[0]] == o;
    } else {
      var rest := Join(StringifyMembers(o[1..]), ",") + "}";
      ParseMembersStep(o[0], "," + rest);
      assert ("," + rest)[1..] == rest;
      ParseMembersStringify(o[1..]);
      assert ParseMembers(StringifyMember(o[0]) + ("," + rest)) == Some([o[0]] + o[1..]);
      assert [o[0]] + o[1..] == o;
    }
  }

  /** `JSON.parse(JSON.stringify(o))` gives the object back. */
  lemma StringifyRoundTrip(o: Object)
    ensures ParseObject(Stringify(o)) == Some(o)
  {
    if o != [] {
      var ms := StringifyMembers(o);
      var body := Join(ms, ",") + "}";
      assert body[0] == '"' by {
        assert ms[0][0] == '"';
        if |ms| > 1 {
          assert Join(ms, ",") == ms[0] + "," + Join(ms[1..], ",");
        }
      }
      var x := Stringify(o);
      assert x[0] == '{' && x[1..] == body by {
        assert x == "{" + body;
      }
      assert x != "{}" by {
        assert x[1] == '"';
      }
      ParseMembersStringify(o);
    }
  }

  /** `JSON.stringify` never writes a line break: every control character is escaped. */
  lemma {:induction false} EscapeHasNoControl(s: string)
    ensures forall i :: 0 <= i < |Escape(s)| ==> Escape(s)[i] as int >= 0x20
    decreases |s|
  {
    if s != [] {
      EscapeHasNoControl(s[1..]);
      var c := s[0];
      if c as int < 0x20 && !(c == '\n' || c == '\r' || c == '\t' || c as int == 0x08 || c as int == 0x0C) {
        var e := EscapeChar(c);
        assert forall i :: 0 <= i < |e| ==> e[i] as int >= 0x20 by {
          assert HexDigit(c as int / 16) as int >= 0x30;
          assert HexDigit(c as int % 16) as int >= 0x30;
        }
      }
    }
  }

  lemma {:induction false} JoinAvoids(parts: seq<string>, sep: string, c: char)
    requires c !in sep
    requires forall i :: 0 <= i < |parts| ==> c !in parts[i]
    ensures c !in Join(parts, sep)
  {
    if |parts| > 1 {
      JoinAvoids(parts[1..], sep, c);
    }
  }

  lemma MemberHasNoNewline(m: (string, Value))
    ensures '\n' !in StringifyMember(m)
  {
    EscapeHasNoControl(m.0);
    assert '\n' !in Escape(m.0);
    if m.1.Str? {
      EscapeHasNoControl(m.1.s);
      assert '\n' !in Escape(m.1.s);
    }
  }

  lemma StringifyHasNoNewline(o: Object)
    ensures '\n' !in Stringify(o)
  {
    var ms := StringifyMembers(o);
    forall i | 0 <= i < |ms| ensures '\n' !in ms[i] {
      MemberHasNoNewline(o[i]);
    }
    JoinAvoids(ms, ",", '\n');
  }

  // ---------------------------------------------------------------------------------------
  // The stream objects (`StreamChunk` on the client side)

  /** The `title` member: absent, `null` (no title computed) or a string. */
  datatype TitleField = NoTitle | NullTitle | Title(text: string)

  /** One stream object: `{content?, done?, title?}`; `done` false means the member is absent. */
  datatype Payload = Payload(content: Option<string>, done: bool, title: TitleField)

  /** The object literal the server builds; members in the order the source writes them. */
  function ToObject(p: Payload): Object {
    (if p.content.Some? then [("content", Str(p.content.value))] else [])
    + (if p.done then [("done", Bool(true))] else [])
    + (match p.title
       case NoTitle => []
       case NullTitle => [("title", Null)]
       case Title(t) => [("title", Str(t))])
  }

  /** The value of a member; with repeated keys the last one wins, as in `JSON.parse`. */
  function Lookup(o: Object, key: string): Option<Value> {
    if o == [] then None
    else if o[|o| - 1].0 == key then Some(o[|o| - 1].1)
    else Lookup(o[..|o| - 1], key)
  }

  /** The client's typed view of a parsed object (`StreamChunk`); members of another type read as absent. */
  function FromObject(o: Object): Payload {
    var content := match Lookup(o, "content") case Some(Str(s)) => Some(s) case _ => None;
    var done := Lookup(o, "done") == Some(Bool(true));
    var title := match Lookup(o, "title")
      case Some(Str(t)) => Title(t)
      case Some(Null) => NullTitle
      case _ => NoTitle;
    Payload(content, done, title)
  }

  lemma {:induction false} LookupAbsent(o: Object, key: string)
    requires forall i :: 0 <= i < |o| ==> o[i].0 != key
    ensures Lookup(o, key) == None
  {
    if o != [] {
      LookupAbsent(o[..|o| - 1], key);
    }
  }

  lemma {:induction false} LookupOnly(o: Object, key: string, j: int)
    requires 0 <= j < |o| && o[j].0 == key
    requires forall i :: 0 <= i < |o| && i != j ==> o[i].0 != key
    ensures Lookup(o, key) == Some(o[j].1)
  {
    if j < |o| - 1 {
      LookupOnly(o[..|o| - 1], key, j);
    }
  }

  /** The client reads back exactly the object the server wrote. */
  lemma FromToObject(p: Payload)
    ensures FromObject(ToObject(p)) == p
  {
    ContentMember(p);
    DoneMember(p);
    TitleMember(p);
  }

  lemma ContentMember(p: Payload)
    ensures Lookup(ToObject(p), "content") == if p.content.Some? then Some(Str(p.content.value)) else None
  {
    var o := ToObject(p);
    var nc := if p.content.Some? then 1 else 0;
    assert forall i :: 0 <= i < |o| ==> (o[i].0 == "content" <==> i < nc);
    if p.content.Some? {
      LookupOnly(o, "content", 0);
    } else {
      LookupAbsent(o, "content");
    }
  }

  lemma DoneMember(p: Payload)
    ensures Lookup(ToObject(p), "done") == if p.done then Some(Bool(true)) else None
  {
    var o := ToObject(p);
    var nc := if p.content.Some? then 1 else 0;
    var nd := if p.done then 1 else 0;
    assert forall i :: 0 <= i < |o| ==> (o[i].0 == "done" <==> nc <= i < nc + nd);
    if p.done {
      LookupOnly(o, "done", nc);
    } else {
      LookupAbsent(o, "done");
    }
  }

  lemma TitleMember(p: Payload)
    ensures Lookup(ToObject(p), "title") == match p.title
      case NoTitle => None
      case NullTitle => Some(Null)
      case Title(t) => Some(Str(t))
  {
    var o := ToObject(p);
    var nc := if p.content.Some? then 1 else 0;
    var nd := if p.done then 1 else 0;
    assert forall i :: 0 <= i < |o| ==> (o[i].0 == "title" <==> nc + nd <= i);
    if p.title.NoTitle? {
      LookupAbsent(o, "title");
    } else {
      LookupOnly(o, "title", nc + nd);
    }
  }

  /** What the server writes decodes, on the client, to the object it stood for. */
  lemma PayloadRoundTrip(p: Payload)
    ensures ParseObject(Stringify(ToObject(p))).Some?
    ensures FromObject(ParseObject(Stringify(ToObject(p))).value) == p
    ensures '\n' !in Stringify(ToObject(p))
  {
    StringifyRoundTrip(ToObject(p));
    FromToObject(p);
    StringifyHasNoNewline(ToObject(p));
  }
}
