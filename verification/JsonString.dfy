/** escape_json of include/ids_cloud.hpp:405-419 against the strings of section 7 of RFC 8259. */
module JsonString {

  datatype Option<T> = None | Some(value: T)

  const CONTROL_LIMIT: char := ' '

  function EscapeChar(c: char): (r: string)
    ensures |r| > 0
  {
    match c
    case '"' => "\\\""
    case '\\' => "\\\\"
    case '\n' => "\\n"
    case '\r' => "\\r"
    case '\t' => "\\t"
    case _ => [c]
  }

  function EscapeAll(s: string): string
    decreases |s|
  {
    if s == "" then "" else EscapeChar(s[0]) + EscapeAll(s[1..])
  }

  function Escaped(s: string): string {
    "\"" + EscapeAll(s) + "\""
  }

  method EscapeJson(s: string) returns (out: string)
    ensures out == Escaped(s)
  {
    hide EscapeChar;
    out := "\"";
    for i := 0 to |s|
      invariant out + EscapeAll(s[i..]) == "\"" + EscapeAll(s)
    {
      assert s[i..][1..] == s[i + 1..];
      out := out + EscapeChar(s[i]);
    }
    out := out + "\"";
  }

  // ---- Reading a string ----

  /** The two-character escapes of RFC 8259. */
  function Unescaped(c: char): Option<char> {
    match c
    case '"' => Some('"')
    case '\\' => Some('\\')
    case '/' => Some('/')
    case 'b' => Some(8 as char)
    case 'f' => Some(12 as char)
    case 'n' => Some('\n')
    case 'r' => Some('\r')
    case 't' => Some('\t')
    case _ => None
  }

  /** The characters up to the closing quote, and what follows it. A strict reader refuses raw
      control characters, as the RFC does; no reader here knows \u. */
  function Body(strict: bool, text: string): Option<(string, string)>
    decreases |text|
  {
    if text == "" then None
    else if text[0] == '"' then Some(("", text[1..]))
    else if text[0] == '\\' then
      if |text| == 1 || Unescaped(text[1]).None? then None
      else Prepend(Unescaped(text[1]).value, Body(strict, text[2..]))
    else if strict && text[0] < CONTROL_LIMIT then None
    else Prepend(text[0], Body(strict, text[1..]))
  }

  function Prepend(c: char, r: Option<(string, string)>): Option<(string, string)> {
    if r.None? then None else Some(([c] + r.value.0, r.value.1))
  }

  function Read(strict: bool, text: string): Option<(string, string)> {
    if text == "" || text[0] != '"' then None else Body(strict, text[1..])
  }

  /** Control characters that are written raw. */
  predicate RawControl(c: char) {
    c < CONTROL_LIMIT && c != '\n' && c != '\r' && c != '\t'
  }

  // ---- Round trip ----

  lemma BodyOfChar(strict: bool, c: char, rest: string)
    ensures Body(strict, EscapeChar(c) + rest) == if strict && RawControl(c) then None else Prepend(c, Body(strict, rest))
  {
    var e := EscapeChar(c);
    assert (e + rest)[|e|..] == rest;
    assert |e| == 2 ==> (e + rest)[1] == e[1];
  }

  lemma {:induction false} BodyOfEscaped(strict: bool, s: string, suffix: string)
    ensures Body(strict, EscapeAll(s) + "\"" + suffix) ==
            if strict && exists k :: 0 <= k < |s| && RawControl(s[k]) then None else Some((s, suffix))
    decreases |s|
  {
    hide EscapeChar, RawControl;
    if s == "" {
      assert EscapeAll(s) + "\"" + suffix == "\"" + suffix;
      assert ("\"" + suffix)[1..] == suffix;
    } else {
      var rest := EscapeAll(s[1..]) + "\"" + suffix;
      assert EscapeAll(s) + "\"" + suffix == EscapeChar(s[0]) + rest;
      BodyOfChar(strict, s[0], rest);
      BodyOfEscaped(strict, s[1..], suffix);
      assert [s[0]] + s[1..] == s;
      if exists k :: 0 <= k < |s| && RawControl(s[k]) {
        var k :| 0 <= k < |s| && RawControl(s[k]);
        assert k > 0 ==> s[1..][k - 1] == s[k];
      } else {
        assert forall k :: 0 <= k < |s[1..]| ==> s[1..][k] == s[k + 1];
      }
    }
  }

  /** Whatever follows it, an escaped string reads back as exactly itself and its suffix. */
  lemma ReadsBack(s: string, suffix: string)
    ensures Read(false, Escaped(s) + suffix) == Some((s, suffix))
  {
    BodyOfEscaped(false, s, suffix);
    assert (Escaped(s) + suffix)[1..] == EscapeAll(s) + "\"" + suffix;
  }

  /** For a reader that follows the RFC this holds exactly when the string has no control
      character other than newline, carriage return and tab: the others are written raw. */
  lemma ReadsBackStrictly(s: string, suffix: string)
    ensures Read(true, Escaped(s) + suffix) == Some((s, suffix)) <==> forall k :: 0 <= k < |s| ==> !RawControl(s[k])
    ensures (exists k :: 0 <= k < |s| && RawControl(s[k])) ==> Read(true, Escaped(s) + suffix) == None
  {
    hide RawControl;
    BodyOfEscaped(true, s, suffix);
    assert (Escaped(s) + suffix)[1..] == EscapeAll(s) + "\"" + suffix;
  }

  /** So the escaped form can be embedded anywhere: two texts that start with escaped strings
      are equal only if the strings and what follows them are. */
  lemma EscapedIsPrefixFree(s: string, suffix: string, t: string, suffix': string)
    requires Escaped(s) + suffix == Escaped(t) + suffix'
    ensures s == t && suffix == suffix'
  {
    hide Read, Escaped;
    ReadsBack(s, suffix);
    ReadsBack(t, suffix');
  }
}
