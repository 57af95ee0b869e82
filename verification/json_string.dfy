/** The string literal the generator writes for a quoted comparison value: what
    `JSON.stringify(value)` returns for a string, i.e. the QuoteJSONString operation of
    ECMA-262.  Dafny characters are Unicode scalar values, so the lone-surrogate case of that
    operation never arises.  `Unquote` reads such a literal back, and `UnquoteQuote` shows that
    the literal always denotes exactly the value it was made from. */
module JsonString {
  import opened Options

  /** Lower-case hexadecimal digit, as `UnicodeEscape` writes it. */
  function HexDigit(d: nat): (c: char)
    requires d < 16
    ensures HexValue(c) == Some(d)
  {
    "0123456789abcdef"[d]
  }

  /** The value of a hexadecimal digit of either case. */
  function HexValue(c: char): (r: Option<nat>)
    ensures r.Some? ==> r.value < 16
  {
    if '0' <= c <= '9' then Some(c as int - '0' as int)
    else if 'a' <= c <= 'f' then Some(c as int - 'a' as int + 10)
    else if 'A' <= c <= 'F' then Some(c as int - 'A' as int + 10)
    else None
  }

  /** The escape text for one character: the seven short escapes, `\u00XX` for the
      remaining control characters, and the character itself otherwise. */
  function EscapeChar(c: char): (r: string)
    ensures |r| >= 1
  {
    var n := c as int;
    if c == '"' then ['\\', '"']
    else if c == '\\' then ['\\', '\\']
    else if n == 0x08 then ['\\', 'b']
    else if n == 0x0C then ['\\', 'f']
    else if n == 0x0A then ['\\', 'n']
    else if n == 0x0D then ['\\', 'r']
    else if n == 0x09 then ['\\', 't']
    else if n < 0x20 then ['\\', 'u', '0', '0', HexDigit(n / 16), HexDigit(n % 16)]
    else [c]
  }

  function Escape(s: string): (r: string)
    ensures |r| >= |s|
  {
    if s == [] then [] else EscapeChar(s[0]) + Escape(s[1..])
  }

  /** `JSON.stringify(s)` for a string `s`. */
  function Quote(s: string): string {
    "\"" + Escape(s) + "\""
  }

  /** The character a one-letter escape `\x` stands for, if `x` names one. */
  function ShortEscape(x: char): Option<char> {
    if x == '"' then Some('"')
    else if x == '\\' then Some('\\')
    else if x == '/' then Some('/')
    else if x == 'b' then Some(8 as char)
    else if x == 'f' then Some(12 as char)
    else if x == 'n' then Some(10 as char)
    else if x == 'r' then Some(13 as char)
    else if x == 't' then Some(9 as char)
    else None
  }

  /** The value of four hexadecimal digits. */
  function Hex4(d: string): Option<nat>
    requires |d| == 4
  {
    match (HexValue(d[0]), HexValue(d[1]), HexValue(d[2]), HexValue(d[3]))
    case (Some(a), Some(b), Some(c), Some(e)) => Some(((a * 16 + b) * 16 + c) * 16 + e)
    case _ => None
  }

  function Cons(c: char, rest: Option<string>): Option<string> {
    match rest
    case Some(t) => Some([c] + t)
    case None => None
  }

  /** Reads the body of a JSON string literal (the text between the quotes).  A raw quote
      or control character, an unknown escape, and a `\u` escape of a surrogate code unit
      are refused. */
  function Unescape(s: string): Option<string>
    decreases |s|
  {
    if s == [] then Some([])
    else if s[0] == '\\' then
      if |s| < 2 then None
      else if s[1] == 'u' then
        if |s| < 6 then None
        else match Hex4(s[2..6])
          case Some(v) =>
            if v < 0xD800 || 0xE000 <= v then Cons(v as char, Unescape(s[6..])) else None
          case None => None
      else match ShortEscape(s[1])
        case Some(c) => Cons(c, Unescape(s[2..]))
        case None => None
    else if s[0] == '"' || s[0] as int < 0x20 then None
    else Cons(s[0], Unescape(s[1..]))
  }

  /** Reads a complete JSON string literal, quotes included. */
  function Unquote(s: string): Option<string> {
    if |s| >= 2 && s[0] == '"' && s[|s| - 1] == '"' then Unescape(s[1..|s| - 1]) else None
  }

  lemma UnescapeEscapeChar(c: char, t: string)
    ensures Unescape(EscapeChar(c) + t) == Cons(c, Unescape(t))
  {
    var e := EscapeChar(c);
    var s := e + t;
    var n := c as int;
    if n < 0x20 && n != 0x08 && n != 0x0C && n != 0x0A && n != 0x0D && n != 0x09 {
      assert s[2..6] == ['0', '0', HexDigit(n / 16), HexDigit(n % 16)];
      assert Hex4(s[2..6]) == Some(n);
      assert s[6..] == t;
      assert n as char == c;
    } else if |e| == 2 {
      assert s[2..] == t;
      assert ShortEscape(s[1]) == Some(c);
    } else {
      assert s[1..] == t;
    }
  }

  lemma {:induction false} UnescapeEscape(s: string)
    ensures Unescape(Escape(s)) == Some(s)
  {
    if s != [] {
      UnescapeEscapeChar(s[0], Escape(s[1..]));
      UnescapeEscape(s[1..]);
      assert [s[0]] + s[1..] == s;
    }
  }

  /** The quoted literal reads back as exactly the value it was made from. */
  lemma UnquoteQuote(s: string)
    ensures Unquote(Quote(s)) == Some(s)
  {
    var q := Quote(s);
    assert q[1..|q| - 1] == Escape(s);
    UnescapeEscape(s);
  }
}
