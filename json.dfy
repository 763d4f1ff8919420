/**
 * JSON values and `JSON.stringify`, as the handlers use them to build SSE
 * event data, webhook payloads and stored push subscriptions.  Objects keep
 * their members in insertion order, as JavaScript objects do; members whose
 * value is `undefined` are simply not present.
 */
module Json {
  import opened Text

  datatype Json =
    | JNull
    | JBool(b: bool)
    | JNum(n: int)
    | JStr(s: string)
    | JArr(items: seq<Json>)
    | JObj(members: seq<Member>)

  datatype Member = Member(key: string, value: Json)

  function HexDigitLower(d: nat): char
    requires d < 16
  {
    if d < 10 then DigitChar(d) else ('a' as int + d - 10) as char
  }

  /** How `JSON.stringify` writes one character inside a string literal. */
  function EscapeChar(c: char): string
  {
    if c == '"' then "\\\""
    else if c == '\\' then "\\\\"
    else if c == '\U{0008}' then "\\b"
    else if c == '\U{000C}' then "\\f"
    else if c == '\n' then "\\n"
    else if c == '\r' then "\\r"
    else if c == '\t' then "\\t"
    else if c as int < 0x20 then "\\u00" + [HexDigitLower(c as int / 16), HexDigitLower(c as int % 16)]
    else [c]
  }

  function Escape(s: string): string
  {
    if s == [] then "" else EscapeChar(s[0]) + Escape(s[1..])
  }

  function Quote(s: string): string
  {
    "\"" + Escape(s) + "\""
  }

  /** `JSON.stringify(j)`. */
  function Stringify(j: Json): string
    decreases j
  {
    match j
    case JNull => "null"
    case JBool(b) => if b then "true" else "false"
    case JNum(n) => IntToString(n)
    case JStr(s) => Quote(s)
    case JArr(items) =>
      "[" + Join(seq(|items|, i requires 0 <= i < |items| => Stringify(items[i])), ",") + "]"
    case JObj(members) =>
      "{" + Join(seq(|members|, i requires 0 <= i < |members| =>
                   Quote(members[i].key) + ":" + Stringify(members[i].value)), ",") + "}"
  }

  // ------------------------------------------------------------ properties

  lemma EscapeCharNoNewline(c: char)
    ensures '\n' !in EscapeChar(c) && '\r' !in EscapeChar(c)
  {
    if c as int < 0x20 && c != '\U{0008}' && c != '\U{000C}' && c != '\n' && c != '\r' && c != '\t' {
      var e := EscapeChar(c);
      assert e == "\\u00" + [HexDigitLower(c as int / 16), HexDigitLower(c as int % 16)];
    }
  }

  lemma {:induction false} EscapeNoNewline(s: string)
    ensures '\n' !in Escape(s) && '\r' !in Escape(s)
  {
    if s != [] {
      EscapeCharNoNewline(s[0]);
      EscapeNoNewline(s[1..]);
    }
  }

  lemma {:induction false} JoinNoNewline(parts: seq<string>, sep: string)
    requires forall i :: 0 <= i < |parts| ==> '\n' !in parts[i] && '\r' !in parts[i]
    requires '\n' !in sep && '\r' !in sep
    ensures '\n' !in Join(parts, sep) && '\r' !in Join(parts, sep)
  {
    if |parts| > 1 {
      JoinNoNewline(parts[1..], sep);
    }
  }

  lemma NatToStringNoNewline(n: nat)
    ensures '\n' !in NatToString(n) && '\r' !in NatToString(n)
  {
    var s := NatToString(n);
    forall i | 0 <= i < |s| ensures s[i] != '\n' && s[i] != '\r' {
      assert IsDigit(s[i]);
    }
  }

  /** `JSON.stringify` never writes a line break, so its output fits on the one
      `data:` line of a server-sent event. */
  lemma {:induction false} StringifyNoNewline(j: Json)
    ensures '\n' !in Stringify(j) && '\r' !in Stringify(j)
    decreases j
  {
    match j
    case JNull =>
    case JBool(b) =>
    case JNum(n) =>
      if n < 0 { NatToStringNoNewline(-n); } else { NatToStringNoNewline(n); }
    case JStr(s) => EscapeNoNewline(s);
    case JArr(items) =>
      var parts := seq(|items|, i requires 0 <= i < |items| => Stringify(items[i]));
      forall i | 0 <= i < |items| ensures '\n' !in parts[i] && '\r' !in parts[i] {
        StringifyNoNewline(items[i]);
      }
      JoinNoNewline(parts, ",");
    case JObj(members) =>
      var parts := seq(|members|, i requires 0 <= i < |members| =>
                     Quote(members[i].key) + ":" + Stringify(members[i].value));
      forall i | 0 <= i < |members| ensures '\n' !in parts[i] && '\r' !in parts[i] {
        EscapeNoNewline(members[i].key);
        StringifyNoNewline(members[i].value);
      }
      JoinNoNewline(parts, ",");
  }
}
