/**
 * JSON string literals as CPython's `json` encoder writes them with its default
 * `ensure_ascii=True` (section 7 of RFC 8259), and a decoder for them.
 *
 * The encoder leaves every printable ASCII character except `"` and `\` as it
 * is, uses the two-character escapes `\"`, `\\`, `\b`, `\f`, `\n`, `\r`, `\t`,
 * and writes every other character as `\uxxxx` with lower-case hex digits; a
 * character above U+FFFF becomes a UTF-16 surrogate pair of two such escapes.
 */
module JsonText {
  import opened Wrappers

  /** Lower-case hex digit of `d`. */
  function HexDigit(d: int): (c: char)
    requires 0 <= d < 16
  {
    if d < 10 then ('0' as int + d) as char else ('a' as int + d - 10) as char
  }

  /** Value of a hex digit of either case. */
  function HexValue(c: char): (r: Option<int>)
    ensures r.Some? ==> 0 <= r.value < 16
  {
    if '0' <= c <= '9' then Some(c as int - '0' as int)
    else if 'a' <= c <= 'f' then Some(c as int - 'a' as int + 10)
    else if 'A' <= c <= 'F' then Some(c as int - 'A' as int + 10)
    else None
  }

  /** Four lower-case hex digits of `n`, most significant first (Python's `'{0:04x}'.format(n)`). */
  function Hex4(n: int): (s: string)
    requires 0 <= n < 0x10000
    ensures |s| == 4
  {
    [HexDigit(n / 16 / 16 / 16), HexDigit(n / 16 / 16 % 16), HexDigit(n / 16 % 16), HexDigit(n % 16)]
  }

  /** The number four hex digits stand for. */
  function ParseHex4(s: string): (r: Option<int>)
    requires |s| == 4
    ensures r.Some? ==> 0 <= r.value < 0x10000
  {
    match (HexValue(s[0]), HexValue(s[1]), HexValue(s[2]), HexValue(s[3]))
    case (Some(a), Some(b), Some(c), Some(d)) => Some(((a * 16 + b) * 16 + c) * 16 + d)
    case _ => None
  }

  lemma HexDigitValue(d: int)
    requires 0 <= d < 16
    ensures HexValue(HexDigit(d)) == Some(d)
  {
  }

  lemma {:induction false} Hex4RoundTrip(n: int)
    requires 0 <= n < 0x10000
    ensures ParseHex4(Hex4(n)) == Some(n)
  {
    HexDigitValue(n / 16 / 16 / 16);
    HexDigitValue(n / 16 / 16 % 16);
    HexDigitValue(n / 16 % 16);
    HexDigitValue(n % 16);
  }

  /** A character the encoder copies unchanged. */
  predicate Plain(c: char) {
    ' ' <= c <= '~' && c != '"' && c != '\\'
  }

  /** The text the encoder writes for one character. */
  function EscapeChar(c: char): (e: string)
    ensures |e| > 0 && e[0] != '"'
  {
    if c == '"' then ['\\', '"']
    else if c == '\\' then ['\\', '\\']
    else if c == 8 as char then ['\\', 'b']
    else if c == 12 as char then ['\\', 'f']
    else if c == '\n' then ['\\', 'n']
    else if c == '\r' then ['\\', 'r']
    else if c == '\t' then ['\\', 't']
    else if Plain(c) then [c]
    else if c as int < 0x10000 then ['\\', 'u'] + Hex4(c as int)
    else
      var n := c as int - 0x10000;
      ['\\', 'u'] + Hex4(0xD800 + n / 0x400) + ['\\', 'u'] + Hex4(0xDC00 + n % 0x400)
  }

  /** The body of the JSON string literal of `s` (without the enclosing quotes). */
  function Escape(s: string): string {
    if s == [] then [] else EscapeChar(s[0]) + Escape(s[1..])
  }

  /** The JSON string literal of `s`. */
  function Quote(s: string): string {
    "\"" + Escape(s) + "\""
  }

  /** Every character of `s` is copied unchanged. */
  predicate AllPlain(s: string) {
    s == [] || (Plain(s[0]) && AllPlain(s[1..]))
  }

  /** Escaping leaves a string of plain characters unchanged. */
  lemma {:induction false} EscapePlain(s: string)
    requires AllPlain(s)
    ensures Escape(s) == s
  {
    if s != [] {
      EscapePlain(s[1..]);
    }
  }

  /** Decodes the escape sequence that follows a backslash; yields the character and what follows it. */
  function ReadEscape(t: string): (r: Option<(char, string)>)
    ensures r.Some? ==> |r.value.1| < |t|
  {
    if t == [] then None
    else if t[0] == '"' then Some(('"', t[1..]))
    else if t[0] == '\\' then Some(('\\', t[1..]))
    else if t[0] == '/' then Some(('/', t[1..]))
    else if t[0] == 'b' then Some((8 as char, t[1..]))
    else if t[0] == 'f' then Some((12 as char, t[1..]))
    else if t[0] == 'n' then Some(('\n', t[1..]))
    else if t[0] == 'r' then Some(('\r', t[1..]))
    else if t[0] == 't' then Some(('\t', t[1..]))
    else if t[0] != 'u' || |t| < 5 then None
    else match ParseHex4(t[1..5])
      case None => None
      case Some(v) =>
        if 0xD800 <= v < 0xDC00 then
          if |t| < 11 || t[5] != '\\' || t[6] != 'u' then None
          else match ParseHex4(t[7..11])
            case None => None
            case Some(w) =>
              if 0xDC00 <= w < 0xE000 then Some(((0x10000 + (v - 0xD800) * 0x400 + (w - 0xDC00)) as char, t[11..]))
              else None
        else if 0xDC00 <= v < 0xE000 then None
        else Some((v as char, t[5..]))
  }

  /** Decodes one character of a string body that does not start with the closing quote. */
  function ReadUnit(s: string): (r: Option<(char, string)>)
    requires s != []
    ensures r.Some? ==> |r.value.1| < |s|
  {
    if s[0] == '\\' then ReadEscape(s[1..])
    else if s[0] < ' ' || s[0] == '"' then None
    else Some((s[0], s[1..]))
  }

  /**
   * Decodes a string body up to and including its closing quote; yields the
   * decoded text and the input that follows the quote.
   */
  function ReadString(s: string): (r: Option<(string, string)>)
    ensures r.Some? ==> |r.value.1| < |s|
    decreases |s|
  {
    if s == [] then None
    else if s[0] == '"' then Some(([], s[1..]))
    else match ReadUnit(s)
      case None => None
      case Some((c, t)) =>
        match ReadString(t)
        case None => None
        case Some((u, rest)) => Some(([c] + u, rest))
  }

  /** Decoding inverts the encoding of one character, whatever follows it. */
  lemma UnitRoundTrip(c: char, t: string)
    ensures ReadUnit(EscapeChar(c) + t) == Some((c, t))
  {
    if c == '"' || c == '\\' || c == 8 as char || c == 12 as char || c == '\n' || c == '\r' || c == '\t' {
      ShortEscapeRoundTrip(c, t);
    } else if Plain(c) {
    } else if c as int < 0x10000 {
      BmpEscapeRoundTrip(c, t);
    } else {
      PairEscapeRoundTrip(c, t);
    }
  }

  lemma ShortEscapeRoundTrip(c: char, t: string)
    requires c == '"' || c == '\\' || c == 8 as char || c == 12 as char || c == '\n' || c == '\r' || c == '\t'
    ensures ReadUnit(EscapeChar(c) + t) == Some((c, t))
  {
    var s := EscapeChar(c) + t;
    assert |EscapeChar(c)| == 2;
    assert s[1..][1..] == t;
  }

  lemma BmpEscapeRoundTrip(c: char, t: string)
    requires !Plain(c) && c != '"' && c != '\\' && c != 8 as char && c != 12 as char
    requires c != '\n' && c != '\r' && c != '\t' && c as int < 0x10000
    ensures ReadUnit(EscapeChar(c) + t) == Some((c, t))
  {
    var h := Hex4(c as int);
    assert EscapeChar(c) == ['\\', 'u'] + h;
    var s := ['\\', 'u'] + h + t;
    Hex4RoundTrip(c as int);
    assert s[1..][1..5] == h;
    assert s[1..][5..] == t;
    assert s[1..][0] == 'u';
  }

  /** The UTF-16 surrogate pair of a code point above U+FFFF, and back. */
  lemma SurrogatePair(c: int) returns (hi: int, lo: int)
    requires 0x10000 <= c < 0x110000
    ensures hi == 0xD800 + (c - 0x10000) / 0x400 && lo == 0xDC00 + (c - 0x10000) % 0x400
    ensures 0xD800 <= hi < 0xDC00 && 0xDC00 <= lo < 0xE000
    ensures 0x10000 + (hi - 0xD800) * 0x400 + (lo - 0xDC00) == c
  {
    hi, lo := 0xD800 + (c - 0x10000) / 0x400, 0xDC00 + (c - 0x10000) % 0x400;
  }

  lemma PairEscapeRoundTrip(c: char, t: string)
    requires c as int >= 0x10000
    ensures ReadUnit(EscapeChar(c) + t) == Some((c, t))
  {
    var hi, lo := SurrogatePair(c as int);
    PairText(c, hi, lo, t);
    ReadPairEscape(hi, lo, t);
  }

  /** The encoding of a character above U+FFFF is a backslash followed by the two escapes. */
  lemma PairText(c: char, hi: int, lo: int, t: string)
    requires c as int >= 0x10000
    requires hi == 0xD800 + (c as int - 0x10000) / 0x400 && lo == 0xDC00 + (c as int - 0x10000) % 0x400
    requires 0 <= hi < 0x10000 && 0 <= lo < 0x10000
    ensures var u := ['u'] + Hex4(hi) + ['\\', 'u'] + Hex4(lo) + t;
      ReadUnit(EscapeChar(c) + t) == ReadEscape(u)
  {
    PairEscapeText(c, hi, lo);
    BackslashThen(Hex4(hi), Hex4(lo), t);
  }

  lemma PairEscapeText(c: char, hi: int, lo: int)
    requires c as int >= 0x10000
    requires hi == 0xD800 + (c as int - 0x10000) / 0x400 && lo == 0xDC00 + (c as int - 0x10000) % 0x400
    requires 0 <= hi < 0x10000 && 0 <= lo < 0x10000
    ensures EscapeChar(c) == ['\\', 'u'] + Hex4(hi) + ['\\', 'u'] + Hex4(lo)
  {
  }

  lemma BackslashThen(h: string, l: string, t: string)
    ensures var e := ['\\', 'u'] + h + ['\\', 'u'] + l;
      var u := ['u'] + h + ['\\', 'u'] + l + t;
      e + t != [] && (e + t)[0] == '\\' && (e + t)[1..] == u
  {
    var e := ['\\', 'u'] + h + ['\\', 'u'] + l;
    var u := ['u'] + h + ['\\', 'u'] + l + t;
    assert e + t == ['\\'] + u;
  }

  /** Reading the two escapes of a surrogate pair yields the code point they encode. */
  lemma ReadPairEscape(hi: int, lo: int, t: string)
    requires 0xD800 <= hi < 0xDC00 && 0xDC00 <= lo < 0xE000
    ensures var u := ['u'] + Hex4(hi) + ['\\', 'u'] + Hex4(lo) + t;
      && ReadEscape(u).Some?
      && ReadEscape(u).value.1 == t
      && ReadEscape(u).value.0 as int == 0x10000 + (hi - 0xD800) * 0x400 + (lo - 0xDC00)
  {
    var u := ['u'] + Hex4(hi) + ['\\', 'u'] + Hex4(lo) + t;
    Hex4RoundTrip(hi);
    Hex4RoundTrip(lo);
    assert u[1..5] == Hex4(hi) && u[7..11] == Hex4(lo) && u[11..] == t;
    assert u[5] == '\\' && u[6] == 'u' && u[0] == 'u';
  }

  /** Decoding inverts the encoding: the body of `Quote(x)` reads back as `x`, leaving what follows. */
  lemma {:induction false} StringRoundTrip(x: string, rest: string)
    ensures ReadString(Escape(x) + "\"" + rest) == Some((x, rest))
  {
    if x == [] {
      assert Escape(x) + "\"" + rest == "\"" + rest;
    } else {
      var tail := Escape(x[1..]) + "\"" + rest;
      EscapeCons(x, rest);
      UnitRoundTrip(x[0], tail);
      StringRoundTrip(x[1..], rest);
      ReadStringCons(EscapeChar(x[0]) + tail, x[0], tail, x[1..], rest);
      assert [x[0]] + x[1..] == x;
    }
  }

  lemma EscapeCons(x: string, rest: string)
    requires x != []
    ensures Escape(x) + "\"" + rest == EscapeChar(x[0]) + (Escape(x[1..]) + "\"" + rest)
  {
  }

  /** A string body that starts with an encoded character reads as that character followed by the rest. */
  lemma ReadStringCons(s: string, c: char, t: string, u: string, rest: string)
    requires s != [] && s[0] != '"'
    requires ReadUnit(s) == Some((c, t)) && ReadString(t) == Some((u, rest))
    ensures ReadString(s) == Some(([c] + u, rest))
  {
  }
}
