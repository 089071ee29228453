/**
 * JSON values as both the Python backend and the JavaScript frontend see
 * them, the two languages' truthiness rules, Python's `str()` of a value,
 * and the JSON parser/serialiser, which the model takes as a parameter.
 */
module JsonValues {
  import opened Wrappers
  import opened Dicts
  import Strings

  /**
   * A JSON value. `JNull` is also Python's `None`, so a missing key read with
   * `.get` and an explicit `null` are the same value. Numbers are integers.
   */
  datatype Json =
    | JNull
    | JBool(b: bool)
    | JNum(n: int)
    | JStr(s: string)
    | JArr(items: seq<Json>)
    | JObj(fields: Dict<Json>)

  /** Python's `bool(v)`: None, False, 0, "", [] and {} are false. */
  predicate PyTruthy(j: Json) {
    match j
    case JNull => false
    case JBool(b) => b
    case JNum(n) => n != 0
    case JStr(s) => s != ""
    case JArr(items) => items != []
    case JObj(fields) => fields != []
  }

  /** JavaScript's truthiness: null, false, 0 and "" are false; every array and object is true. */
  predicate JsTruthy(j: Json) {
    match j
    case JNull => false
    case JBool(b) => b
    case JNum(n) => n != 0
    case JStr(s) => s != ""
    case _ => true
  }

  /** JavaScript's `x || fallback` for an optional value. */
  function JsOr(x: Option<Json>, fallback: Json): (r: Json)
    ensures x.Some? && JsTruthy(x.value) ==> r == x.value
    ensures x.None? || !JsTruthy(x.value) ==> r == fallback
  {
    if x.Some? && JsTruthy(x.value) then x.value else fallback
  }

  /** `sep.join(parts)` for strings. */
  function JoinWith(parts: seq<string>, sep: string): string {
    if |parts| == 0 then ""
    else if |parts| == 1 then parts[0]
    else parts[0] + sep + JoinWith(parts[1..], sep)
  }

  function IntToString(n: int): string {
    if n < 0 then "-" + Strings.NatToString(-n) else Strings.NatToString(n)
  }

  /** Python's `str(v)` of a value decoded from JSON. */
  function PyStr(j: Json): (r: string)
    ensures j.JStr? ==> r == j.s
    decreases j, 1
  {
    match j
    case JNull => "None"
    case JBool(b) => if b then "True" else "False"
    case JNum(n) => IntToString(n)
    case JStr(s) => s
    case JArr(items) =>
      "[" + JoinWith(seq(|items|, i requires 0 <= i < |items| => PyRepr(items[i])), ", ") + "]"
    case JObj(fields) =>
      "{" + JoinWith(seq(|fields|, i requires 0 <= i < |fields| =>
                       StrRepr(fields[i].0) + ": " + PyRepr(fields[i].1)), ", ") + "}"
  }

  /** Python's `repr(v)`, used for the members of a list or dict. */
  function PyRepr(j: Json): string
    decreases j, 2
  {
    match j
    case JStr(s) => StrRepr(s)
    case _ => PyStr(j)
  }

  // ---------------------------------------------------------------- repr of a string

  /** The quote `repr` encloses a string in: `"` when the text holds `'` but no `"`, otherwise `'`. */
  function ReprQuote(s: string): (q: char)
    ensures q == '\'' || q == '"'
    ensures q == '"' <==> '\'' in s && '"' !in s
  {
    if '\'' in s && '"' !in s then '"' else '\''
  }

  /**
   * The characters `repr` writes as `\xhh`: the control characters other
   * than tab, newline and carriage return, and the non-printable Latin-1
   * characters (DEL, the C1 controls, the no-break space and the soft hyphen).
   */
  predicate HexEscaped(c: char) {
    (c < ' ' && c != '\t' && c != '\n' && c != '\r') || ('\U{7F}' <= c <= '\U{A0}') || c == '\U{AD}'
  }

  const HexDigits: string := "0123456789abcdef"

  /** One character as `repr` writes it inside quotes `q`. */
  function EscapeChar(c: char, q: char): (r: string)
    ensures |r| > 0
    ensures r[0] == '\\' <==> c == '\\' || c == q || c == '\t' || c == '\n' || c == '\r' || HexEscaped(c)
  {
    if c == '\\' || c == q then ['\\', c]
    else if c == '\t' then "\\t"
    else if c == '\n' then "\\n"
    else if c == '\r' then "\\r"
    else if HexEscaped(c) then
      var n := c as int;
      "\\x" + [HexDigits[n / 16], HexDigits[n % 16]]
    else [c]
  }

  /** The characters of `s` written one by one inside quotes `q`. */
  function Escaped(s: string, q: char): string
    decreases |s|
  {
    if |s| == 0 then "" else EscapeChar(s[0], q) + Escaped(s[1..], q)
  }

  /** `repr` of a string: quoted, with backslash, the quote and non-printable characters escaped. */
  function StrRepr(s: string): (r: string)
    ensures |r| >= 2 && r[0] == ReprQuote(s) && r[|r| - 1] == ReprQuote(s)
  {
    var q := ReprQuote(s);
    [q] + Escaped(s, q) + [q]
  }

  /** The value of a lower-case hexadecimal digit. */
  function HexValue(c: char): (v: Option<nat>)
    ensures v.Some? ==> v.value < 16 && HexDigits[v.value] == c
    ensures forall k :: 0 <= k < 16 && HexDigits[k] == c ==> v == Some(k)
  {
    if '0' <= c <= '9' then Some(c as int - '0' as int)
    else if 'a' <= c <= 'f' then Some(c as int - 'a' as int + 10)
    else None
  }

  function Prepend(c: char, rest: Option<string>): Option<string> {
    if rest.Some? then Some([c] + rest.value) else None
  }

  /**
   * Reads the inside of a string literal written with quotes `q` back to the
   * text: the escapes `repr` writes are decoded, and a bare quote or a
   * dangling backslash makes it no literal.
   */
  function Unescape(t: string, q: char): Option<string>
    decreases |t|
  {
    if |t| == 0 then Some("")
    else if t[0] == q then None
    else if t[0] != '\\' then Prepend(t[0], Unescape(t[1..], q))
    else if |t| < 2 then None
    else if t[1] == '\\' || t[1] == q then Prepend(t[1], Unescape(t[2..], q))
    else if t[1] == 't' then Prepend('\t', Unescape(t[2..], q))
    else if t[1] == 'n' then Prepend('\n', Unescape(t[2..], q))
    else if t[1] == 'r' then Prepend('\r', Unescape(t[2..], q))
    else if t[1] == 'x' && |t| >= 4 && HexValue(t[2]).Some? && HexValue(t[3]).Some? then
      Prepend((HexValue(t[2]).value * 16 + HexValue(t[3]).value) as char, Unescape(t[4..], q))
    else None
  }

  /** Reads a whole `repr` back: the quotes at both ends and the text between them. */
  function Unrepr(r: string): Option<string> {
    if |r| >= 2 && (r[0] == '\'' || r[0] == '"') && r[|r| - 1] == r[0] then Unescape(r[1..|r| - 1], r[0])
    else None
  }

  /** The two hexadecimal digits of a byte read back as the byte. */
  lemma HexDigitsRead(n: nat)
    requires n < 256
    ensures HexValue(HexDigits[n / 16]) == Some(n / 16) && HexValue(HexDigits[n % 16]) == Some(n % 16)
    ensures n / 16 * 16 + n % 16 == n
  {
  }

  /** A `\xhh` escape reads back as its character. */
  lemma UnescapeHex(c: char, rest: string, q: char)
    requires q == '\'' || q == '"'
    requires HexEscaped(c)
    ensures Unescape(EscapeChar(c, q) + rest, q) == Prepend(c, Unescape(rest, q))
  {
    var n := c as int;
    var e := "\\x" + [HexDigits[n / 16], HexDigits[n % 16]];
    assert EscapeChar(c, q) == e;
    var t := e + rest;
    assert t[0] == '\\' && t[1] == 'x' && t[4..] == rest;
    assert t[2] == HexDigits[n / 16] && t[3] == HexDigits[n % 16];
    HexDigitsRead(n);
  }

  /** Decoding one escaped character and then the rest reads that character back. */
  lemma UnescapeChar(c: char, rest: string, q: char)
    requires q == '\'' || q == '"'
    ensures Unescape(EscapeChar(c, q) + rest, q) == Prepend(c, Unescape(rest, q))
  {
    var t := EscapeChar(c, q) + rest;
    if c == '\\' || c == q {
      assert t[2..] == rest;
    } else if c == '\t' || c == '\n' || c == '\r' {
      assert t[2..] == rest;
    } else if HexEscaped(c) {
      UnescapeHex(c, rest, q);
    } else {
      assert t[1..] == rest;
    }
  }

  /** `repr` of a string reads back as the same string. */
  lemma {:induction false} UnescapeEscaped(s: string, q: char)
    requires q == '\'' || q == '"'
    ensures Unescape(Escaped(s, q), q) == Some(s)
    decreases |s|
  {
    if |s| > 0 {
      UnescapeEscaped(s[1..], q);
      UnescapeChar(s[0], Escaped(s[1..], q), q);
      assert [s[0]] + s[1..] == s;
    }
  }

  /** Every string's `repr` reads back as the string: the quoting and escaping lose nothing. */
  lemma StrReprRoundTrip(s: string)
    ensures Unrepr(StrRepr(s)) == Some(s)
  {
    var q := ReprQuote(s);
    var r := StrRepr(s);
    assert r[1..|r| - 1] == Escaped(s, q);
    UnescapeEscaped(s, q);
  }

  /** Text with no character that needs escaping is written as it is. */
  lemma {:induction false} EscapedPlain(s: string, q: char)
    requires forall k :: 0 <= k < |s| ==> ' ' <= s[k] < '\U{7F}' && s[k] != '\\' && s[k] != q
    ensures Escaped(s, q) == s
    decreases |s|
  {
    if |s| > 0 {
      EscapedPlain(s[1..], q);
      assert [s[0]] + s[1..] == s;
    }
  }

  /** `it's` is written in double quotes. */
  lemma StrReprQuoteExample()
    ensures StrRepr("it's") == "\"it's\""
  {
    assert ReprQuote("it's") == '"' by {
      assert "it's"[2] == '\'';
    }
    EscapedPlain("it's", '"');
  }

  /** A newline is written as the two characters `\n`, inside single quotes. */
  lemma StrReprNewlineExample()
    ensures StrRepr("a\nb") == "'a\\nb'"
  {
    var s := "a\nb";
    assert ReprQuote(s) == '\'';
    EscapedPlain(s[2..], '\'');
    assert Escaped(s, '\'') == "a" + Escaped(s[1..], '\'');
    assert Escaped(s[1..], '\'') == "\\n" + Escaped(s[2..], '\'');
  }

  /**
   * The JSON text format: `JSON.parse` / `json.loads` (which fail on malformed
   * text) and `JSON.stringify(v, null, 2)`.
   */
  datatype Codec = Codec(parse: string -> Option<Json>, stringify: Json -> string)

  /** Serialising then parsing gives the value back. */
  ghost predicate RoundTrips(c: Codec) {
    forall j: Json :: c.parse(c.stringify(j)) == Some(j)
  }

  /** Serialised objects start with `{` and serialised arrays with `[`. */
  ghost predicate Bracketed(c: Codec) {
    forall j: Json :: (j.JObj? ==> Strings.StartsWith(c.stringify(j), "{"))
             && (j.JArr? ==> Strings.StartsWith(c.stringify(j), "["))
  }

  /** Every serialisation is non-empty text. */
  ghost predicate NeverEmpty(c: Codec) {
    forall j: Json :: c.stringify(j) != ""
  }

  /** The texts `{}` and `[]` parse to the empty object and the empty array. */
  predicate ParsesEmpty(c: Codec) {
    c.parse("{}") == Some(JObj([])) && c.parse("[]") == Some(JArr([]))
  }
}
