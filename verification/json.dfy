/** The string quoting `JSON.stringify` applies (QuoteJSONString, section
    25.5.2.3 of ECMA-262) and a JSON string reader (section 7 of RFC 8259)
    that undoes it. */
module Json {
  import opened Results

  /** Lower-case hexadecimal digit, as `JSON.stringify` writes them. */
  function HexDigit(v: int): char
    requires 0 <= v < 16
  {
    if v < 10 then ('0' as int + v) as char else ('a' as int + (v - 10)) as char
  }

  /** The value of a hexadecimal digit of either case. */
  function HexValue(c: char): (v: Option<int>)
    ensures v.Some? ==> 0 <= v.value < 16
  {
    if '0' <= c <= '9' then Some(c as int - '0' as int)
    else if 'a' <= c <= 'f' then Some(c as int - 'a' as int + 10)
    else if 'A' <= c <= 'F' then Some(c as int - 'A' as int + 10)
    else None
  }

  const Backspace: char := 8 as char
  const FormFeed: char := 12 as char

  /** How `JSON.stringify` writes one character inside a string: the two
      characters that would end or start an escape, the five control
      characters with short escapes, the other control characters as
      `\u00xx`, everything else unchanged. */
  function EscapeChar(c: char): (e: string)
    ensures 1 <= |e| <= 6
    ensures e[0] == '\\' || e == [c]
    ensures e[0] != '"'
  {
    if c == '"' then "\\\""
    else if c == '\\' then "\\\\"
    else if c == Backspace then "\\b"
    else if c == '\t' then "\\t"
    else if c == '\n' then "\\n"
    else if c == FormFeed then "\\f"
    else if c == '\r' then "\\r"
    else if c as int < 0x20 then "\\u00" + [HexDigit(c as int / 16), HexDigit(c as int % 16)]
    else [c]
  }

  /** The characters between the quotes. */
  function QuoteBody(s: string): string
    decreases |s|
  {
    if |s| == 0 then "" else EscapeChar(s[0]) + QuoteBody(s[1..])
  }

  /** A string as `JSON.stringify` writes it: an opening quote, after which
      the text reads back as exactly the string, ending at the closing
      quote. So no two strings share a JSON text. */
  function Quote(s: string): (q: string)
    ensures |q| >= 2 && q[0] == '"' && q[|q| - 1] == '"'
    ensures ParseString(q[1..]) == Some((s, ""))
  {
    var q := "\"" + QuoteBody(s) + "\"";
    ParseQuoteBody(s, "");
    assert q[1..] == QuoteBody(s) + "\"" + "";
    q
  }

  /** The character a one-letter escape `\x` stands for. */
  function ShortEscape(x: char): Option<char> {
    if x == '"' then Some('"')
    else if x == '\\' then Some('\\')
    else if x == '/' then Some('/')
    else if x == 'b' then Some(Backspace)
    else if x == 'f' then Some(FormFeed)
    else if x == 'n' then Some('\n')
    else if x == 'r' then Some('\r')
    else if x == 't' then Some('\t')
    else None
  }

  /** The character of a `\uXXXX` escape given its four digits; escapes of
      surrogate halves are refused, as they are not characters by themselves. */
  function UnicodeEscape(d: string): Option<char>
    requires |d| == 4
  {
    var h0, h1, h2, h3 := HexValue(d[0]), HexValue(d[1]), HexValue(d[2]), HexValue(d[3]);
    if h0.None? || h1.None? || h2.None? || h3.None? then None
    else
      var v := h0.value * 4096 + h1.value * 256 + h2.value * 16 + h3.value;
      if 0xD800 <= v < 0xE000 then None else Some(v as char)
  }

  function Prepend(c: char, r: Option<(string, string)>): Option<(string, string)> {
    match r
    case None => None
    case Some((s, rest)) => Some(([c] + s, rest))
  }

  /** Reads a JSON string whose opening quote has been consumed: returns its
      value and the text after the closing quote. Raw control characters and
      unknown escapes are refused. */
  function ParseString(t: string): Option<(string, string)>
    decreases |t|
  {
    if |t| == 0 then None
    else if t[0] == '"' then Some(("", t[1..]))
    else if t[0] == '\\' then
      if |t| < 2 then None
      else if t[1] == 'u' then
        if |t| < 6 then None
        else match UnicodeEscape(t[2..6])
          case None => None
          case Some(c) => Prepend(c, ParseString(t[6..]))
      else match ShortEscape(t[1])
        case None => None
        case Some(c) => Prepend(c, ParseString(t[2..]))
    else if t[0] as int < 0x20 then None
    else Prepend(t[0], ParseString(t[1..]))
  }

  /** The reader turns the escape of `c` back into `c`, whatever follows. */
  lemma ParseEscapeChar(c: char, t: string)
    ensures ParseString(EscapeChar(c) + t) == Prepend(c, ParseString(t))
  {
    var e := EscapeChar(c);
    var u := e + t;
    if c == '"' || c == '\\' || c == Backspace || c == '\t' || c == '\n' || c == FormFeed || c == '\r' {
      assert |e| == 2 && u[2..] == t;
    } else if c as int < 0x20 {
      var hi, lo := c as int / 16, c as int % 16;
      assert |e| == 6 && u[1] == 'u' && u[6..] == t;
      assert u[2..6] == ['0', '0', HexDigit(hi), HexDigit(lo)];
      assert HexValue(HexDigit(hi)) == Some(hi) && HexValue(HexDigit(lo)) == Some(lo);
      assert UnicodeEscape(u[2..6]) == Some(c);
    } else {
      assert u[0] == c && u[1..] == t;
    }
  }

  /** Round trip: reading back a quoted string gives the string and exactly
      the text that followed the closing quote. */
  lemma {:induction false} ParseQuoteBody(s: string, rest: string)
    ensures ParseString(QuoteBody(s) + "\"" + rest) == Some((s, rest))
    decreases |s|
  {
    if |s| == 0 {
      assert QuoteBody(s) + "\"" + rest == "\"" + rest;
    } else {
      var tail := QuoteBody(s[1..]) + "\"" + rest;
      assert QuoteBody(s) + "\"" + rest == EscapeChar(s[0]) + tail;
      ParseEscapeChar(s[0], tail);
      ParseQuoteBody(s[1..], rest);
      assert [s[0]] + s[1..] == s;
    }
  }
}
