/**
 * Strings the relay computes: the lower-cased registry key, and the JSON
 * text of the two messages that src/ws.rs builds with `json!` and sends with
 * `Value::to_string` (a join notice and a presence snapshot).
 */
module Strings {
  import opened Wrappers

  /** Lower-casing of one character, ASCII letters only. */
  function LowerChar(c: char): (r: char)
    ensures 'A' <= c <= 'Z' ==> r as int == c as int + 32
    ensures !('A' <= c <= 'Z') ==> r == c
  {
    if 'A' <= c <= 'Z' then (c as int + 32) as char else c
  }

  /** `str::to_lowercase`, character by character. */
  function Lower(s: string): (r: string)
    ensures |r| == |s|
    ensures forall i :: 0 <= i < |s| ==> r[i] == LowerChar(s[i])
  {
    if s == [] then [] else [LowerChar(s[0])] + Lower(s[1..])
  }

  /** A lower-cased string contains no upper-case ASCII letter. */
  lemma LowerHasNoCapitals(s: string)
    ensures forall i :: 0 <= i < |Lower(s)| ==> !('A' <= Lower(s)[i] <= 'Z')
  {
  }

  /** Normalising a registry key twice is the same as once. */
  lemma {:induction false} LowerIdempotent(s: string)
    ensures Lower(Lower(s)) == Lower(s)
  {
    if s != [] {
      LowerIdempotent(s[1..]);
      assert Lower(s)[1..] == Lower(s[1..]);
    }
  }

  const HexDigits: string := "0123456789abcdef"

  /** How serde_json writes one character inside a string literal. */
  function EscapeChar(c: char): string {
    if c == '"' then "\\\""
    else if c == '\\' then "\\\\"
    else if c as int == 8 then "\\b"
    else if c as int == 12 then "\\f"
    else if c == '\n' then "\\n"
    else if c == '\r' then "\\r"
    else if c == '\t' then "\\t"
    else if c as int < 32 then "\\u00" + [HexDigits[c as int / 16], HexDigits[c as int % 16]]
    else [c]
  }

  /** A character serde_json writes as itself inside a string literal. */
  predicate PlainChar(c: char) {
    c != '"' && c != '\\' && c as int >= 32
  }

  /** Text serde_json writes unchanged inside a string literal. */
  predicate Plain(s: string) {
    forall i :: 0 <= i < |s| ==> PlainChar(s[i])
  }

  /** Plain text joined to plain text is plain. */
  lemma PlainConcat(s: string, t: string)
    ensures Plain(s) && Plain(t) ==> Plain(s + t)
  {
  }

  /** The characters of a string literal for `s`, escaped as serde_json
      does; plain text is written as it stands. */
  function Escape(s: string): (r: string)
    ensures Plain(s) ==> r == s
  {
    if s == [] then ""
    else
      assert Plain(s) ==> Plain(s[1..]) by {
        if Plain(s) {
          assert forall i :: 0 <= i < |s[1..]| ==> s[1..][i] == s[i + 1];
        }
      }
      assert s == [s[0]] + s[1..];
      EscapeChar(s[0]) + Escape(s[1..])
  }

  /** A JSON string literal. */
  function Quote(s: string): (r: string)
    ensures |r| >= 2 && r[0] == '"' && r[|r| - 1] == '"'
    ensures Plain(s) ==> r == "\"" + s + "\""
  {
    "\"" + Escape(s) + "\""
  }

  /** The text before the first quote of `s`, and the text after that quote. */
  function SplitAtQuote(s: string): (r: Option<(string, string)>)
    ensures r.Some? ==> |r.value.1| < |s|
  {
    if s == [] then None
    else if s[0] == '"' then Some(("", s[1..]))
    else
      match SplitAtQuote(s[1..])
      case None => None
      case Some((before, after)) => Some(([s[0]] + before, after))
  }

  /** A plain text ends at the quote that follows it. */
  lemma {:induction false} SplitAtQuoteOfPlain(s: string, rest: string)
    ensures Plain(s) ==> SplitAtQuote(s + "\"" + rest) == Some((s, rest))
  {
    if s != [] && Plain(s) {
      assert Plain(s[1..]) by {
        assert forall i :: 0 <= i < |s[1..]| ==> s[1..][i] == s[i + 1];
      }
      SplitAtQuoteOfPlain(s[1..], rest);
      assert (s + "\"" + rest)[1..] == s[1..] + "\"" + rest;
      assert [s[0]] + s[1..] == s;
    }
  }

  /** Reads back a comma-separated list of string literals that contain no
      escapes. */
  function ReadNames(s: string): Option<seq<string>>
    decreases |s|
  {
    if s == [] then Some([])
    else if s[0] != '"' then None
    else
      match SplitAtQuote(s[1..])
      case None => None
      case Some((name, rest)) =>
        if rest == [] then Some([name])
        else if rest[0] != ',' then None
        else
          match ReadNames(rest[1..])
          case None => None
          case Some(names) => Some([name] + names)
  }

  /** The members of a JSON array of strings, comma separated. */
  function JoinQuoted(items: seq<string>): string {
    if items == [] then ""
    else if |items| == 1 then Quote(items[0])
    else Quote(items[0]) + "," + JoinQuoted(items[1..])
  }

  /** A list of plain names can be read back from its JSON members. */
  lemma {:induction false} ReadJoinedNames(items: seq<string>)
    ensures (forall i :: 0 <= i < |items| ==> Plain(items[i])) ==> ReadNames(JoinQuoted(items)) == Some(items)
  {
    if items != [] && forall i :: 0 <= i < |items| ==> Plain(items[i]) {
      var name := items[0];
      assert Plain(name);
      if |items| == 1 {
        ReadOneName(name);
        assert JoinQuoted(items) == Quote(name);
        assert items == [name];
      } else {
        var rest := items[1..];
        assert forall i :: 0 <= i < |rest| ==> Plain(rest[i]) by {
          assert forall i :: 0 <= i < |rest| ==> rest[i] == items[i + 1];
        }
        ReadJoinedNames(rest);
        assert ReadNames(JoinQuoted(rest)) == Some(rest);
        ReadNextName(name, JoinQuoted(rest), rest);
        assert JoinQuoted(items) == Quote(name) + "," + JoinQuoted(rest);
        assert [name] + rest == items;
      }
    }
  }

  lemma ReadOneName(name: string)
    requires Plain(name)
    ensures ReadNames(Quote(name)) == Some([name])
  {
    SplitAtQuoteOfPlain(name, "");
    assert Quote(name)[1..] == name + "\"" + "";
  }

  lemma ReadNextName(name: string, tail: string, names: seq<string>)
    requires Plain(name) && ReadNames(tail) == Some(names)
    ensures ReadNames(Quote(name) + "," + tail) == Some([name] + names)
  {
    SplitAtQuoteOfPlain(name, "," + tail);
    assert (Quote(name) + "," + tail)[1..] == name + "\"" + ("," + tail);
    assert ("," + tail)[1..] == tail;
  }

  /** `json!({"type":"system","msg": msg}).to_string()`. serde_json keeps
      object members sorted by key, so `msg` comes first. A plain message
      appears in it verbatim. */
  function SystemJson(msg: string): (r: string)
    ensures Plain(msg) ==> r == "{\"msg\":" + "\"" + msg + "\"" + ",\"type\":\"system\"}"
  {
    "{\"msg\":" + Quote(msg) + ",\"type\":\"system\"}"
  }

  const PresenceOpen: string := "{\"online\":["
  const PresenceClose: string := "],\"type\":\"presence\"}"

  /** The names of a presence message, read back from its text. */
  function ReadPresence(s: string): Option<seq<string>> {
    if |s| >= |PresenceOpen| + |PresenceClose|
       && s[..|PresenceOpen|] == PresenceOpen && s[|s| - |PresenceClose|..] == PresenceClose
    then ReadNames(s[|PresenceOpen|..|s| - |PresenceClose|])
    else None
  }

  /** `json!({"type":"presence","online": online}).to_string()`. A list of
      plain names can be read back from it, in order. */
  function PresenceJson(online: seq<string>): (r: string)
    ensures (forall i :: 0 <= i < |online| ==> Plain(online[i])) ==> ReadPresence(r) == Some(online)
  {
    ReadJoinedNames(online);
    var r := PresenceOpen + JoinQuoted(online) + PresenceClose;
    assert r[..|PresenceOpen|] == PresenceOpen;
    assert r[|r| - |PresenceClose|..] == PresenceClose;
    assert r[|PresenceOpen|..|r| - |PresenceClose|] == JoinQuoted(online);
    r
  }
}
