/**
 * `JSON.stringify` and `JSON.parse` for the values the CLI sends: strings,
 * non-negative integers, arrays and objects whose members keep their
 * insertion order. The writer emits the compact form (no white space) and
 * escapes strings as ECMAScript's QuoteJSONString does: `"` and `\` are
 * escaped, the controls with a short form use it, the other controls below
 * U+0020 become `\u00xx` with lower-case hex digits, and everything else is
 * copied. The parser reads the compact form, refuses a number with a
 * superfluous leading zero, and accepts the standard JSON escapes; parsing
 * what the writer produced gives the value back.
 *
 * Every writer takes the text that follows the value, so that a value can be
 * parsed off the front of a longer text without reassociating
 * concatenations.
 */
module JsonCodec {
  import opened Common

  datatype JsonValue =
    | JString(s: string)
    | JNumber(n: nat)
    | JArray(items: seq<JsonValue>)
    | JObject(members: seq<JsonMember>)

  datatype JsonMember = JsonMember(key: string, value: JsonValue)

  // ---------------------------------------------------------------------------
  // Writing

  function HexDigit(n: nat): (c: char)
    requires n < 16
  {
    if n < 10 then ('0' as int + n) as char else ('a' as int + n - 10) as char
  }

  function HexValue(c: char): (r: Option<nat>)
    ensures r.Some? ==> r.value < 16
  {
    if '0' <= c <= '9' then Some(c as int - '0' as int)
    else if 'a' <= c <= 'f' then Some(c as int - 'a' as int + 10)
    else if 'A' <= c <= 'F' then Some(c as int - 'A' as int + 10)
    else None
  }

  /** How one character appears inside a JSON string literal. */
  function EscapeChar(c: char): (e: string)
    ensures |e| >= 1
  {
    if c == '"' then "\\\""
    else if c == '\\' then "\\\\"
    else if c == '\U{8}' then "\\b"
    else if c == '\U{C}' then "\\f"
    else if c == '\n' then "\\n"
    else if c == '\r' then "\\r"
    else if c == '\t' then "\\t"
    else if c < ' ' then "\\u00" + [HexDigit(c as int / 16), HexDigit(c as int % 16)]
    else [c]
  }

  /** The escaped characters of `s`, followed by `rest`. */
  function EscapeThen(s: string, rest: string): string
  {
    if |s| == 0 then rest else EscapeChar(s[0]) + EscapeThen(s[1..], rest)
  }

  /** `JSON.stringify(s)` for a string, followed by `rest`. */
  function QuoteThen(s: string, rest: string): (t: string)
    ensures |t| > 0 && t[0] == '"'
  {
    "\"" + EscapeThen(s, "\"" + rest)
  }

  function Quote(s: string): string
  {
    QuoteThen(s, "")
  }

  /** `JSON.stringify(v)`, followed by `rest`. */
  function WriteThen(v: JsonValue, rest: string): (t: string)
    ensures |t| > 0 && t[0] != ']' && t[0] != '}'
    decreases v
  {
    match v
    case JString(s) => QuoteThen(s, rest)
    case JNumber(n) => NatToString(n) + rest
    case JArray(items) => "[" + (if |items| == 0 then "]" + rest else ItemsThen(items, rest))
    case JObject(members) => "{" + (if |members| == 0 then "}" + rest else MembersThen(members, rest))
  }

  /** The elements of a non-empty array after its `[`, separated by commas,
      then `]` and `rest`. */
  function ItemsThen(items: seq<JsonValue>, rest: string): string
    requires |items| > 0
    decreases items
  {
    WriteThen(items[0], if |items| == 1 then "]" + rest else "," + ItemsThen(items[1..], rest))
  }

  /** The members of a non-empty object after its `{`, each as `"key":value`,
      separated by commas, then `}` and `rest`. */
  function MembersThen(members: seq<JsonMember>, rest: string): string
    requires |members| > 0
    decreases members
  {
    QuoteThen(members[0].key, ":" + WriteThen(members[0].value,
      if |members| == 1 then "}" + rest else "," + MembersThen(members[1..], rest)))
  }

  function Stringify(v: JsonValue): string
  {
    WriteThen(v, "")
  }

  /** An array of strings as a JSON value. */
  function StringArray(xs: seq<string>): JsonValue
  {
    JArray(seq(|xs|, i requires 0 <= i < |xs| => JString(xs[i])))
  }

  /** `JSON.stringify(xs)` for an array of strings. */
  function StringifyArray(xs: seq<string>): string
  {
    Stringify(StringArray(xs))
  }

  // ---------------------------------------------------------------------------
  // Parsing

  /** The character a two-character escape `\x` stands for. */
  function SimpleEscape(x: char): Option<char>
  {
    if x == '"' then Some('"')
    else if x == '\\' then Some('\\')
    else if x == '/' then Some('/')
    else if x == 'b' then Some('\U{8}')
    else if x == 'f' then Some('\U{C}')
    else if x == 'n' then Some('\n')
    else if x == 'r' then Some('\r')
    else if x == 't' then Some('\t')
    else None
  }

  /** The character of a `\uXXXX` escape, given the four digits; surrogate
      halves are refused. */
  function UnicodeEscape(d: string): Option<char>
    requires |d| == 4
  {
    var h0, h1, h2, h3 := HexValue(d[0]), HexValue(d[1]), HexValue(d[2]), HexValue(d[3]);
    if h0.None? || h1.None? || h2.None? || h3.None? then None
    else
      var v := ((h0.value * 16 + h1.value) * 16 + h2.value) * 16 + h3.value;
      if 0xD800 <= v < 0xE000 then None else Some(v as char)
  }

  /** One character of a string literal: the character and what follows it. */
  function DecodeChar(t: string): (r: Option<(char, string)>)
    requires |t| > 0 && t[0] != '"'
    ensures r.Some? ==> |r.value.1| < |t|
  {
    if t[0] == '\\' then
      if |t| < 2 then None
      else if t[1] == 'u' then
        if |t| < 6 then None
        else match UnicodeEscape(t[2..6])
          case None => None
          case Some(c) => Some((c, t[6..]))
      else match SimpleEscape(t[1])
        case None => None
        case Some(c) => Some((c, t[2..]))
    else if t[0] < ' ' then None
    else Some((t[0], t[1..]))
  }

  /** The contents of a string literal up to its closing quote, and the text
      after that quote. */
  function DecodeBody(t: string): (r: Option<(string, string)>)
    ensures r.Some? ==> |r.value.1| < |t|
    decreases |t|
  {
    if |t| == 0 then None
    else if t[0] == '"' then Some(("", t[1..]))
    else match DecodeChar(t)
      case None => None
      case Some((c, rest)) =>
        match DecodeBody(rest)
        case None => None
        case Some((s, after)) => Some(([c] + s, after))
  }

  /** A string literal: its contents and the text after its closing quote. */
  function ParseString(t: string): (r: Option<(string, string)>)
    ensures r.Some? ==> |r.value.1| < |t|
  {
    if |t| > 0 && t[0] == '"' then DecodeBody(t[1..]) else None
  }

  /** How many decimal digits `t` starts with. */
  function DigitRun(t: string): (k: nat)
    ensures k <= |t|
    ensures forall i :: 0 <= i < k ==> IsDigit(t[i])
    ensures k == |t| || !IsDigit(t[k])
  {
    if |t| == 0 || !IsDigit(t[0]) then 0 else 1 + DigitRun(t[1..])
  }

  /** A non-negative integer: its digits, of which the first is `0` only
      when it is the only one. */
  function ParseNumber(t: string): (r: Option<(nat, string)>)
    ensures r.Some? ==> |r.value.1| < |t|
  {
    var k := DigitRun(t);
    if k == 0 || (t[0] == '0' && k > 1) then None else Some((DigitsValue(t[..k]), t[k..]))
  }

  /** One value at the front of `t`, and the text after it. */
  function ParseValue(t: string): (r: Option<(JsonValue, string)>)
    ensures r.Some? ==> |r.value.1| < |t|
    decreases |t|, 0
  {
    if |t| == 0 then None
    else if t[0] == '"' then
      match DecodeBody(t[1..])
      case None => None
      case Some((s, rest)) => Some((JString(s), rest))
    else if t[0] == '[' then
      if |t| > 1 && t[1] == ']' then Some((JArray([]), t[2..]))
      else match ParseItems(t[1..])
        case None => None
        case Some((items, rest)) => Some((JArray(items), rest))
    else if t[0] == '{' then
      if |t| > 1 && t[1] == '}' then Some((JObject([]), t[2..]))
      else match ParseMembers(t[1..])
        case None => None
        case Some((members, rest)) => Some((JObject(members), rest))
    else
      match ParseNumber(t)
      case None => None
      case Some((n, rest)) => Some((JNumber(n), rest))
  }

  /** The elements of a non-empty array after its `[`, through its `]`. */
  function ParseItems(t: string): (r: Option<(seq<JsonValue>, string)>)
    ensures r.Some? ==> |r.value.1| < |t|
    decreases |t|, 1
  {
    match ParseValue(t)
    case None => None
    case Some((v, rest)) =>
      if |rest| > 0 && rest[0] == ']' then Some(([v], rest[1..]))
      else if |rest| > 0 && rest[0] == ',' then
        match ParseItems(rest[1..])
        case None => None
        case Some((more, after)) => Some(([v] + more, after))
      else None
  }

  /** The members of a non-empty object after its `{`, through its `}`. */
  function ParseMembers(t: string): (r: Option<(seq<JsonMember>, string)>)
    ensures r.Some? ==> |r.value.1| < |t|
    decreases |t|, 1
  {
    match ParseString(t)
    case None => None
    case Some((key, rest)) =>
      if |rest| == 0 || rest[0] != ':' then None
      else match ParseValue(rest[1..])
        case None => None
        case Some((v, after)) =>
          if |after| > 0 && after[0] == '}' then Some(([JsonMember(key, v)], after[1..]))
          else if |after| > 0 && after[0] == ',' then
            match ParseMembers(after[1..])
            case None => None
            case Some((more, end)) => Some(([JsonMember(key, v)] + more, end))
          else None
  }

  /** `JSON.parse(t)`: one value and nothing after it. */
  function Parse(t: string): Option<JsonValue>
  {
    match ParseValue(t)
    case None => None
    case Some((v, rest)) => if rest == "" then Some(v) else None
  }

  /** `JSON.parse(t)` where an array of strings is expected. */
  function ParseArray(t: string): Option<seq<string>>
  {
    match Parse(t)
    case Some(JArray(items)) =>
      if forall i :: 0 <= i < |items| ==> items[i].JString? then
        Some(seq(|items|, i requires 0 <= i < |items| && items[i].JString? => items[i].s))
      else None
    case _ => None
  }

  /** `obj[key]` of a parsed object: the value of the last member with that
      key, as a later duplicate overwrites an earlier one. */
  function Property(members: seq<JsonMember>, key: string): (r: Option<JsonValue>)
    ensures r.Some? ==> JsonMember(key, r.value) in members
    ensures r.None? <==> forall m :: m in members ==> m.key != key
  {
    if |members| == 0 then None
    else if members[|members| - 1].key == key then Some(members[|members| - 1].value)
    else Property(members[..|members| - 1], key)
  }

  /** Looking a key up in two groups of members: the later group wins. */
  lemma {:induction false} PropertyAppend(a: seq<JsonMember>, b: seq<JsonMember>, key: string)
    ensures Property(a + b, key) == if Property(b, key).Some? then Property(b, key) else Property(a, key)
    decreases |b|
  {
    if |b| == 0 {
      assert a + b == a;
    } else {
      assert (a + b)[..|a + b| - 1] == a + b[..|b| - 1];
      PropertyAppend(a, b[..|b| - 1], key);
    }
  }

  // ---------------------------------------------------------------------------
  // Round trip

  lemma HexRoundTrip(n: nat)
    requires n < 16
    ensures HexValue(HexDigit(n)) == Some(n)
  {
  }

  /** Every character's escape decodes back to that character. */
  lemma DecodeEscape(c: char, t: string)
    ensures EscapeChar(c)[0] != '"'
    ensures DecodeChar(EscapeChar(c) + t) == Some((c, t))
  {
    var e := EscapeChar(c);
    var u := e + t;
    if c < ' ' && c != '\U{8}' && c != '\U{C}' && c != '\n' && c != '\r' && c != '\t' {
      var hi, lo := c as int / 16, c as int % 16;
      HexRoundTrip(hi);
      HexRoundTrip(lo);
      assert u[0] == '\\' && u[1] == 'u';
      assert u[2..6] == ['0', '0', HexDigit(hi), HexDigit(lo)];
      assert u[6..] == t;
    } else if c == '"' || c == '\\' || c == '\U{8}' || c == '\U{C}' || c == '\n' || c == '\r' || c == '\t' {
      assert u[0] == '\\' && u[2..] == t;
    } else {
      assert u[1..] == t;
    }
  }

  /** Decoding an escaped character followed by a decodable body. */
  lemma DecodeBodyStep(c: char, t: string, s: string, rest: string)
    requires DecodeBody(t) == Some((s, rest))
    ensures DecodeBody(EscapeChar(c) + t) == Some(([c] + s, rest))
  {
    DecodeEscape(c, t);
  }

  lemma {:induction false} BodyRoundTrip(s: string, rest: string)
    ensures DecodeBody(EscapeThen(s, "\"" + rest)) == Some((s, rest))
    decreases |s|
  {
    if |s| > 0 {
      BodyRoundTrip(s[1..], rest);
      DecodeBodyStep(s[0], EscapeThen(s[1..], "\"" + rest), s[1..], rest);
      assert [s[0]] + s[1..] == s;
    }
  }

  /** A quoted string followed by anything parses to the string and what
      follows it. */
  lemma QuoteRoundTrip(s: string, rest: string)
    ensures ParseString(QuoteThen(s, rest)) == Some((s, rest))
  {
    assert QuoteThen(s, rest)[1..] == EscapeThen(s, "\"" + rest);
    BodyRoundTrip(s, rest);
  }

  /** What may follow a number without being read as more of its digits. */
  predicate Delimited(rest: string) {
    rest == [] || !IsDigit(rest[0])
  }

  lemma {:induction false} DigitRunOf(d: string, rest: string)
    requires forall i :: 0 <= i < |d| ==> IsDigit(d[i])
    requires Delimited(rest)
    ensures DigitRun(d + rest) == |d|
    decreases |d|
  {
    if |d| > 0 {
      assert (d + rest)[1..] == d[1..] + rest;
      DigitRunOf(d[1..], rest);
    } else {
      assert d + rest == rest;
    }
  }

  lemma NumberRoundTrip(n: nat, rest: string)
    requires Delimited(rest)
    ensures ParseNumber(NatToString(n) + rest) == Some((n, rest))
  {
    var d := NatToString(n);
    DigitRunOf(d, rest);
    NatToStringValue(n);
    assert (d + rest)[..|d|] == d;
    assert (d + rest)[|d|..] == rest;
  }

  /** The steps of `ParseValue` on a non-empty array and object. */
  lemma ParseArrayStep(t: string, items: seq<JsonValue>, rest: string)
    requires |t| > 1 && t[0] == '[' && t[1] != ']'
    requires ParseItems(t[1..]) == Some((items, rest))
    ensures ParseValue(t) == Some((JArray(items), rest))
  {
  }

  lemma ParseObjectStep(t: string, members: seq<JsonMember>, rest: string)
    requires |t| > 1 && t[0] == '{' && t[1] != '}'
    requires ParseMembers(t[1..]) == Some((members, rest))
    ensures ParseValue(t) == Some((JObject(members), rest))
  {
  }

  /** The steps of `ParseItems`: a value then `]` ends the array, a value then
      `,` continues it. */
  lemma ParseItemsStep(t: string, v: JsonValue, after: string, more: seq<JsonValue>, rest: string)
    requires ParseValue(t) == Some((v, after)) && |after| > 0
    requires after[0] == ']' ==> after[1..] == rest
    requires after[0] == ',' ==> ParseItems(after[1..]) == Some((more, rest))
    ensures after[0] == ']' ==> ParseItems(t) == Some(([v], rest))
    ensures after[0] == ',' ==> ParseItems(t) == Some(([v] + more, rest))
  {
  }

  /** The steps of `ParseMembers`, after the key and its colon. */
  lemma ParseMembersStep(t: string, key: string, v: JsonValue, after: string, more: seq<JsonMember>, rest: string)
    requires ParseString(t) == Some((key, ":" + WriteThen(v, after)))
    requires ParseValue(WriteThen(v, after)) == Some((v, after)) && |after| > 0
    requires after[0] == '}' ==> after[1..] == rest
    requires after[0] == ',' ==> ParseMembers(after[1..]) == Some((more, rest))
    ensures after[0] == '}' ==> ParseMembers(t) == Some(([JsonMember(key, v)], rest))
    ensures after[0] == ',' ==> ParseMembers(t) == Some(([JsonMember(key, v)] + more, rest))
  {
    assert (":" + WriteThen(v, after))[1..] == WriteThen(v, after);
  }

  /** Parsing a written value, followed by anything that does not extend it,
      gives the value and that text back. */
  lemma {:induction false} WriteRoundTrip(v: JsonValue, rest: string)
    requires Delimited(rest)
    ensures ParseValue(WriteThen(v, rest)) == Some((v, rest))
    decreases v
  {
    var t := WriteThen(v, rest);
    match v
    case JString(s) =>
      QuoteRoundTrip(s, rest);
    case JNumber(n) =>
      assert IsDigit(t[0]);
      NumberRoundTrip(n, rest);
    case JArray(items) =>
      if |items| == 0 {
        assert t[2..] == rest;
      } else {
        assert t[1..] == ItemsThen(items, rest);
        ItemsRoundTrip(items, rest);
        ParseArrayStep(t, items, rest);
      }
    case JObject(members) =>
      if |members| == 0 {
        assert t[2..] == rest;
      } else {
        assert t[1..] == MembersThen(members, rest);
        MembersRoundTrip(members, rest);
        ParseObjectStep(t, members, rest);
      }
  }

  lemma {:induction false} ItemsRoundTrip(items: seq<JsonValue>, rest: string)
    requires |items| > 0 && Delimited(rest)
    ensures ParseItems(ItemsThen(items, rest)) == Some((items, rest))
    decreases items
  {
    var after := if |items| == 1 then "]" + rest else "," + ItemsThen(items[1..], rest);
    WriteRoundTrip(items[0], after);
    if |items| == 1 {
      ParseItemsStep(ItemsThen(items, rest), items[0], after, [], rest);
      assert [items[0]] == items;
    } else {
      ItemsRoundTrip(items[1..], rest);
      ParseItemsStep(ItemsThen(items, rest), items[0], after, items[1..], rest);
      assert [items[0]] + items[1..] == items;
    }
  }

  lemma {:induction false} MembersRoundTrip(members: seq<JsonMember>, rest: string)
    requires |members| > 0 && Delimited(rest)
    ensures ParseMembers(MembersThen(members, rest)) == Some((members, rest))
    decreases members
  {
    var m := members[0];
    var after := if |members| == 1 then "}" + rest else "," + MembersThen(members[1..], rest);
    QuoteRoundTrip(m.key, ":" + WriteThen(m.value, after));
    WriteRoundTrip(m.value, after);
    if |members| == 1 {
      ParseMembersStep(MembersThen(members, rest), m.key, m.value, after, [], rest);
      assert [JsonMember(m.key, m.value)] == members;
    } else {
      MembersRoundTrip(members[1..], rest);
      ParseMembersStep(MembersThen(members, rest), m.key, m.value, after, members[1..], rest);
      assert [JsonMember(m.key, m.value)] + members[1..] == members;
    }
  }

  /** `JSON.parse(JSON.stringify(v))` is `v`. */
  lemma StringifyRoundTrip(v: JsonValue)
    ensures Parse(Stringify(v)) == Some(v)
  {
    WriteRoundTrip(v, "");
  }

  /** Parsing what `JSON.stringify` made of an array of strings gives the
      array back. */
  lemma StringifyArrayRoundTrip(xs: seq<string>)
    ensures ParseArray(StringifyArray(xs)) == Some(xs)
  {
    var v := StringArray(xs);
    StringifyRoundTrip(v);
    assert seq(|v.items|, i requires 0 <= i < |v.items| && v.items[i].JString? => v.items[i].s) == xs;
  }
}
