/** `JSON.stringify` applied to a string, as the execute route uses it to
    put the submitted code on an interpreter's command line, and a decoder
    for JSON string literals following the grammar of section 7 of RFC 8259,
    which undoes it. */
module JsonString {
  import opened Wrappers

  /** A lower-case hexadecimal digit, as `JSON.stringify` writes them. */
  function HexDigit(d: nat): char
    requires d < 16
  {
    if d < 10 then ('0' as int + d) as char else ('a' as int + d - 10) as char
  }

  predicate IsHexDigit(c: char) {
    '0' <= c <= '9' || 'a' <= c <= 'f' || 'A' <= c <= 'F'
  }

  function HexValue(c: char): (v: nat)
    requires IsHexDigit(c)
    ensures v < 16
  {
    if '0' <= c <= '9' then c as int - '0' as int
    else if 'a' <= c <= 'f' then c as int - 'a' as int + 10
    else c as int - 'A' as int + 10
  }

  /** Four hexadecimal digits starting at index `i`. */
  predicate HexAt(t: string, i: nat) {
    i + 4 <= |t| && forall j :: i <= j < i + 4 ==> IsHexDigit(t[j])
  }

  function Hex4(t: string, i: nat): (v: nat)
    requires HexAt(t, i)
    ensures v < 0x10000
  {
    4096 * HexValue(t[i]) + 256 * HexValue(t[i + 1]) + 16 * HexValue(t[i + 2]) + HexValue(t[i + 3])
  }

  /** How `JSON.stringify` writes one character inside the quotes: the two
      characters that must be escaped and the control characters get an
      escape sequence (a short one where JSON has it), everything else stands
      for itself. */
  function EscapeChar(c: char): string {
    if c == '"' then "\\\""
    else if c == '\\' then "\\\\"
    else if c as int == 0x08 then "\\b"
    else if c == '\t' then "\\t"
    else if c == '\n' then "\\n"
    else if c as int == 0x0C then "\\f"
    else if c == '\r' then "\\r"
    else if c as int < 0x20 then "\\u00" + [HexDigit(c as int / 16), HexDigit(c as int % 16)]
    else [c]
  }

  function EscapeBody(s: string): string
    decreases |s|
  {
    if s == [] then "" else EscapeChar(s[0]) + EscapeBody(s[1..])
  }

  /** `JSON.stringify(s)` for a string `s`. */
  function Quote(s: string): (q: string)
    ensures |q| >= 2 && q[0] == '"' && q[|q| - 1] == '"'
  {
    "\"" + EscapeBody(s) + "\""
  }

  /** The characters the two-character escapes of RFC 8259 stand for. */
  function ShortEscape(e: char): Option<char> {
    if e == '"' then Some('"')
    else if e == '\\' then Some('\\')
    else if e == '/' then Some('/')
    else if e == 'b' then Some(0x08 as char)
    else if e == 'f' then Some(0x0C as char)
    else if e == 'n' then Some('\n')
    else if e == 'r' then Some('\r')
    else if e == 't' then Some('\t')
    else None
  }

  /** The character a UTF-16 surrogate pair stands for. */
  function SurrogatePair(high: nat, low: nat): char
    requires 0xD800 <= high < 0xDC00 && 0xDC00 <= low < 0xE000
  {
    var h := high - 0xD800;
    assert h * 0x400 <= 0x3FF * 0x400;
    (0x10000 + h * 0x400 + (low - 0xDC00)) as char
  }

  function Cons(c: char, rest: Option<string>): Option<string> {
    if rest.Some? then Some([c] + rest.value) else None
  }

  /** The characters of the text between the quotes of a JSON string, or
      None when it is not well formed: an unescaped quote or control
      character, an unknown escape, or a `\u` escape that names a surrogate
      outside a well-formed pair. */
  function Unescape(t: string): Option<string>
    decreases |t|
  {
    if t == [] then Some("")
    else if t[0] == '\\' then
      if |t| < 2 then None
      else if ShortEscape(t[1]).Some? then Cons(ShortEscape(t[1]).value, Unescape(t[2..]))
      else if t[1] != 'u' || !HexAt(t, 2) then None
      else
        var v := Hex4(t, 2);
        if 0xD800 <= v < 0xDC00 then
          if |t| >= 12 && t[6] == '\\' && t[7] == 'u' && HexAt(t, 8) && 0xDC00 <= Hex4(t, 8) < 0xE000
          then Cons(SurrogatePair(v, Hex4(t, 8)), Unescape(t[12..]))
          else None
        else if 0xDC00 <= v < 0xE000 then None
        else Cons(v as char, Unescape(t[6..]))
    else if t[0] == '"' || t[0] as int < 0x20 then None
    else Cons(t[0], Unescape(t[1..]))
  }

  /** A JSON string literal: its characters, or None when it is not one. */
  function DecodeString(q: string): Option<string> {
    if |q| >= 2 && q[0] == '"' && q[|q| - 1] == '"' then Unescape(q[1..|q| - 1]) else None
  }

  lemma HexDigitValue(d: nat)
    requires d < 16
    ensures IsHexDigit(HexDigit(d)) && HexValue(HexDigit(d)) == d
  {
  }

  /** Decoding the escape of one character gives that character back, followed
      by whatever the rest decodes to. */
  lemma UnescapeEscapeChar(c: char, rest: string)
    ensures Unescape(EscapeChar(c) + rest) == Cons(c, Unescape(rest))
  {
    var t := EscapeChar(c) + rest;
    var n := c as int;
    if c == '"' || c == '\\' || n == 0x08 || c == '\t' || c == '\n' || n == 0x0C || c == '\r' {
      assert t[0] == '\\' && ShortEscape(t[1]) == Some(c);
      assert t[2..] == rest;
    } else if n < 0x20 {
      var hi, lo := HexDigit(n / 16), HexDigit(n % 16);
      HexDigitValue(n / 16);
      HexDigitValue(n % 16);
      assert t[0] == '\\' && t[1] == 'u' && t[2] == '0' && t[3] == '0' && t[4] == hi && t[5] == lo;
      assert ShortEscape('u') == None;
      assert HexAt(t, 2);
      assert Hex4(t, 2) == n;
      assert t[6..] == rest;
    } else {
      assert t[0] == c && t[1..] == rest;
    }
  }

  /** Decoding the escaped text gives the original characters back. */
  lemma {:induction false} UnescapeEscapeBody(s: string)
    ensures Unescape(EscapeBody(s)) == Some(s)
    decreases |s|
  {
    if s != [] {
      UnescapeEscapeChar(s[0], EscapeBody(s[1..]));
      UnescapeEscapeBody(s[1..]);
      assert [s[0]] + s[1..] == s;
    }
  }

  /** The round trip: the JSON string `JSON.stringify` builds decodes to
      exactly the string it was given. */
  lemma QuoteRoundTrip(s: string)
    ensures DecodeString(Quote(s)) == Some(s)
  {
    var q := Quote(s);
    assert q[1..|q| - 1] == EscapeBody(s);
    UnescapeEscapeBody(s);
  }
}
