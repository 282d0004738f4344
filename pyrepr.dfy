/**
 * Python's `repr` of a `str`, and of a one-element tuple holding one, as far
 * as the receipt's Body line needs it: the quote character is chosen the way
 * Python chooses it, and backslash, the chosen quote, tab, newline, carriage
 * return and the non-printable characters of the Latin-1 range are escaped.
 * `ParseRepr` reads a repr back, the partner that makes the repr
 * a faithful encoding of the text it shows.
 */
module PyRepr {
  import opened Wrappers

  const Hex: string := "0123456789abcdef"

  /** Characters Python escapes as `\xNN`: C0 controls, DEL, C1 controls, NBSP and the soft hyphen. */
  predicate HexEscaped(c: char) {
    var n := c as int;
    n < 0x20 || n == 0x7f || (0x80 <= n <= 0xa0) || n == 0xad
  }

  /**
   * The quote character: the chosen quote occurs in the text only when both
   * kinds do, and single quotes are preferred whenever they need no more
   * escaping than double quotes.
   */
  function QuoteFor(s: string): (q: char)
    ensures q == '\'' || q == '"'
    ensures q in s ==> '\'' in s && '"' in s
    ensures '\'' !in s || '"' in s ==> q == '\''
  {
    if '\'' in s && '"' !in s then '"' else '\''
  }

  /** How one character shows inside a literal quoted with `q`. */
  function EscapeChar(c: char, q: char): (r: string)
    requires q == '\'' || q == '"'
    ensures 1 <= |r| <= 4
    ensures forall i :: 0 <= i < |r| ==> !HexEscaped(r[i])
  {
    if c == q || c == '\\' then ['\\', c]
    else if c == '\t' then "\\t"
    else if c == '\n' then "\\n"
    else if c == '\r' then "\\r"
    else if HexEscaped(c) then ['\\', 'x', Hex[c as int / 16], Hex[c as int % 16]]
    else [c]
  }

  /** The characters between the quotes; never holds a control character. */
  function Escape(s: string, q: char): (r: string)
    requires q == '\'' || q == '"'
    ensures forall i :: 0 <= i < |r| ==> !HexEscaped(r[i])
    ensures |r| >= |s|
  {
    if s == [] then [] else EscapeChar(s[0], q) + Escape(s[1..], q)
  }

  /** `repr(s)` for a `str`: the text escaped and between two copies of its quote. */
  function Repr(s: string): (r: string)
    ensures |r| >= |s| + 2
    ensures r[0] == r[|r| - 1] == QuoteFor(s)
  {
    var q := QuoteFor(s);
    [q] + Escape(s, q) + [q]
  }

  /** `repr((s,))`: what an f-string shows for `{s,}`. */
  function TupleRepr(s: string): (r: string)
    ensures |r| >= |s| + 5
    ensures r[0] == '(' && r[1] == QuoteFor(s) && r[|r| - 3] == QuoteFor(s) && r[|r| - 2..] == ",)"
  {
    "(" + Repr(s) + ",)"
  }

  function HexValue(c: char): Option<nat> {
    if '0' <= c <= '9' then Some(c as int - '0' as int)
    else if 'a' <= c <= 'f' then Some(c as int - 'a' as int + 10)
    else None
  }

  function Prepend(c: char, rest: Option<string>): Option<string> {
    if rest.Some? then Some([c] + rest.value) else None
  }

  /** Reads the inside of a literal quoted with `q`; None on a malformed escape or a bare quote. */
  function Unescape(s: string, q: char): Option<string> {
    if s == [] then Some([])
    else if s[0] == '\\' then
      if |s| < 2 then None
      else if s[1] == q || s[1] == '\\' then Prepend(s[1], Unescape(s[2..], q))
      else if s[1] == 't' then Prepend('\t', Unescape(s[2..], q))
      else if s[1] == 'n' then Prepend('\n', Unescape(s[2..], q))
      else if s[1] == 'r' then Prepend('\r', Unescape(s[2..], q))
      else if s[1] == 'x' && |s| >= 4 && HexValue(s[2]).Some? && HexValue(s[3]).Some? then
        Prepend((HexValue(s[2]).value * 16 + HexValue(s[3]).value) as char, Unescape(s[4..], q))
      else None
    else if s[0] == q then None
    else Prepend(s[0], Unescape(s[1..], q))
  }

  /** Reads a quoted literal back into the text it denotes. */
  function ParseRepr(r: string): Option<string> {
    if |r| >= 2 && (r[0] == '\'' || r[0] == '"') && r[|r| - 1] == r[0] then Unescape(r[1..|r| - 1], r[0])
    else None
  }

  lemma HexDigitValue(n: nat)
    requires n < 16
    ensures HexValue(Hex[n]) == Some(n)
  {
  }

  lemma UnescapeChar(c: char, q: char, rest: string)
    requires q == '\'' || q == '"'
    ensures Unescape(EscapeChar(c, q) + rest, q) == Prepend(c, Unescape(rest, q))
  {
    var e := EscapeChar(c, q);
    if c == q || c == '\\' || c == '\t' || c == '\n' || c == '\r' {
      assert (e + rest)[2..] == rest;
    } else if HexEscaped(c) {
      UnescapeHex(c, q, rest);
    } else {
      assert (e + rest)[1..] == rest;
    }
  }

  lemma UnescapeHex(c: char, q: char, rest: string)
    requires q == '\'' || q == '"'
    requires HexEscaped(c)
    ensures Unescape(['\\', 'x', Hex[c as int / 16], Hex[c as int % 16]] + rest, q) == Prepend(c, Unescape(rest, q))
  {
    var n := c as int;
    var e := ['\\', 'x', Hex[n / 16], Hex[n % 16]];
    HexDigitValue(n / 16);
    HexDigitValue(n % 16);
    assert (e + rest)[4..] == rest;
    assert (n / 16 * 16 + n % 16) as char == c;
  }

  /** Reading back what was escaped gives the original text. */
  lemma {:induction false} UnescapeEscape(s: string, q: char)
    requires q == '\'' || q == '"'
    ensures Unescape(Escape(s, q), q) == Some(s)
  {
    if s != [] {
      UnescapeChar(s[0], q, Escape(s[1..], q));
      UnescapeEscape(s[1..], q);
      assert [s[0]] + s[1..] == s;
    }
  }

  /** `repr` loses nothing: the text is recovered from its repr. */
  lemma ParseReprRepr(s: string)
    ensures ParseRepr(Repr(s)) == Some(s)
  {
    var q := QuoteFor(s);
    var r := Repr(s);
    assert r[1..|r| - 1] == Escape(s, q);
    UnescapeEscape(s, q);
  }

  /** Text with no quote, backslash or non-printable character shows as itself between single quotes. */
  lemma {:induction false} ReprOfPlainText(s: string)
    requires forall i :: 0 <= i < |s| ==> s[i] != '\'' && s[i] != '"' && s[i] != '\\' && !HexEscaped(s[i])
    ensures Repr(s) == "'" + s + "'"
    ensures TupleRepr(s) == "('" + s + "',)"
  {
    EscapePlain(s);
  }

  lemma {:induction false} EscapePlain(s: string)
    requires forall i :: 0 <= i < |s| ==> s[i] != '\'' && s[i] != '"' && s[i] != '\\' && !HexEscaped(s[i])
    ensures Escape(s, '\'') == s
  {
    if s != [] {
      EscapePlain(s[1..]);
      assert [s[0]] + s[1..] == s;
    }
  }
}
