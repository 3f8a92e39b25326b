/** The "base64url" encoding of section 5 of RFC 4648 without padding, as
    produced by Node's `buffer.toString("base64url")`: the URL- and
    filename-safe alphabet `A-Z a-z 0-9 - _`, three bytes to four characters,
    a final group of one or two bytes written as two or three characters.
    Both directions go through the sequence of 6-bit values: the arithmetic
    is done on values, the alphabet maps values to characters one by one. */
module Base64Url {
  import opened Results
  import opened Bytes

  type Sextet = x: int | 0 <= x < 64

  /** The character that stands for a 6-bit value in the alphabet of
      section 5 of RFC 4648: `A`-`Z` are 0-25, `a`-`z` 26-51, `0`-`9` 52-61,
      `-` is 62 and `_` is 63. */
  function CharOf(v: Sextet): char {
    if v < 26 then ('A' as int + v) as char
    else if v < 52 then ('a' as int + (v - 26)) as char
    else if v < 62 then ('0' as int + (v - 52)) as char
    else if v == 62 then '-'
    else '_'
  }

  /** The 6-bit value a character stands for; None outside the alphabet. */
  function ValueOf(c: char): Option<Sextet> {
    if 'A' <= c <= 'Z' then Some(c as int - 'A' as int)
    else if 'a' <= c <= 'z' then Some(c as int - 'a' as int + 26)
    else if '0' <= c <= '9' then Some(c as int - '0' as int + 52)
    else if c == '-' then Some(62)
    else if c == '_' then Some(63)
    else None
  }

  predicate InAlphabet(c: char) {
    ValueOf(c).Some?
  }

  /** A character of the alphabet is the character of its value. */
  lemma CharOfValueOf(c: char)
    requires ValueOf(c).Some?
    ensures CharOf(ValueOf(c).value) == c
  {
  }

  /** Every 6-bit value has exactly one character in the alphabet. */
  lemma ValueOfCharOf(v: Sextet)
    ensures ValueOf(CharOf(v)) == Some(v)
  {
  }

  // ---- bytes and 6-bit values ----

  /** The four 6-bit values of three bytes, most significant bits first. */
  function Sextets(b0: Byte, b1: Byte, b2: Byte): (v: seq<Sextet>)
    ensures |v| == 4
  {
    [b0 / 4, b0 % 4 * 16 + b1 / 16, b1 % 16 * 4 + b2 / 64, b2 % 64]
  }

  /** The three bytes four 6-bit values make. */
  function Group(a: Sextet, b: Sextet, c: Sextet, d: Sextet): (bytes: seq<Byte>)
    ensures |bytes| == 3
  {
    [a * 4 + b / 16, b % 16 * 16 + c / 4, c % 4 * 64 + d]
  }

  /** Cutting three bytes into 6-bit values and joining them again loses
      nothing. */
  lemma GroupSextets(b0: Byte, b1: Byte, b2: Byte)
    ensures var v := Sextets(b0, b1, b2); Group(v[0], v[1], v[2], v[3]) == [b0, b1, b2]
  {
  }

  /** Joining four 6-bit values into bytes and cutting them again loses
      nothing. */
  lemma SextetsGroup(a: Sextet, b: Sextet, c: Sextet, d: Sextet)
    ensures var g := Group(a, b, c, d); Sextets(g[0], g[1], g[2]) == [a, b, c, d]
  {
    var x0, x1, x2 := a * 4 + b / 16, b % 16 * 16 + c / 4, c % 4 * 64 + d;
    assert x0 / 4 == a;
    assert x0 % 4 * 16 + x1 / 16 == b by {
      assert x0 % 4 == b / 16 && x1 / 16 == b % 16;
    }
    assert x1 % 16 * 4 + x2 / 64 == c by {
      assert x1 % 16 == c / 4 && x2 / 64 == c % 4;
    }
    assert x2 % 64 == d;
  }

  /** The number of characters for `n` bytes: no padding is written. */
  function EncodedLength(n: nat): nat {
    4 * (n / 3) + (if n % 3 == 0 then 0 else n % 3 + 1)
  }

  /** The 6-bit values of some bytes: four per three bytes, and a final
      group of one or two bytes completed with zero bytes and cut after the
      values that carry its bits. */
  function EncodeValues(b: seq<Byte>): (v: seq<Sextet>)
    ensures |v| == EncodedLength(|b|)
    decreases |b|
  {
    if |b| == 0 then []
    else if |b| == 1 then Sextets(b[0], 0, 0)[..2]
    else if |b| == 2 then Sextets(b[0], b[1], 0)[..3]
    else Sextets(b[0], b[1], b[2]) + EncodeValues(b[3..])
  }

  /** The bytes of some 6-bit values: None for a length that is 1 modulo 4,
      or for a final group whose unused bits are not zero. */
  function DecodeValues(v: seq<Sextet>): Option<seq<Byte>>
    decreases |v|
  {
    if |v| == 0 then Some([])
    else if |v| == 1 then None
    else if |v| == 2 then
      if v[1] % 16 == 0 then Some(Group(v[0], v[1], 0, 0)[..1]) else None
    else if |v| == 3 then
      if v[2] % 4 == 0 then Some(Group(v[0], v[1], v[2], 0)[..2]) else None
    else
      match DecodeValues(v[4..])
      case None => None
      case Some(rest) => Some(Group(v[0], v[1], v[2], v[3]) + rest)
  }

  /** A final group of one byte survives. */
  lemma DecodeValuesOne(b0: Byte)
    ensures DecodeValues(EncodeValues([b0])) == Some([b0])
  {
    var e := EncodeValues([b0]);
    var x: int := b0 % 4;
    assert e == Sextets(b0, 0, 0)[..2];
    assert e[0] == b0 / 4 && e[1] == x * 16;
    assert e[1] % 16 == 0;
    GroupSextets(b0, 0, 0);
    assert Group(e[0], e[1], 0, 0)[..1] == [b0];
    assert DecodeValues(e) == Some(Group(e[0], e[1], 0, 0)[..1]);
  }

  /** A final group of two bytes survives. */
  lemma DecodeValuesTwo(b0: Byte, b1: Byte)
    ensures DecodeValues(EncodeValues([b0, b1])) == Some([b0, b1])
  {
    var e := EncodeValues([b0, b1]);
    var x: int := b1 % 16;
    assert e == Sextets(b0, b1, 0)[..3];
    assert e[2] == x * 4;
    assert e[2] % 4 == 0;
    GroupSextets(b0, b1, 0);
    assert Group(e[0], e[1], e[2], 0)[..2] == [b0, b1];
  }

  /** Bytes survive the trip through their 6-bit values. */
  lemma {:induction false} DecodeValuesEncodeValues(b: seq<Byte>)
    ensures DecodeValues(EncodeValues(b)) == Some(b)
    decreases |b|
  {
    if |b| == 1 {
      DecodeValuesOne(b[0]);
      assert b == [b[0]];
    } else if |b| == 2 {
      DecodeValuesTwo(b[0], b[1]);
      assert b == [b[0], b[1]];
    } else if |b| >= 3 {
      var v := EncodeValues(b);
      var head := Sextets(b[0], b[1], b[2]);
      DecodeValuesEncodeValues(b[3..]);
      assert v[..4] == head && v[4..] == EncodeValues(b[3..]);
      GroupSextets(b[0], b[1], b[2]);
      assert b == [b[0], b[1], b[2]] + b[3..];
    }
  }

  /** 6-bit values that decode are the values of the bytes they decode
      to. */
  lemma {:induction false} EncodeValuesDecodeValues(v: seq<Sextet>)
    requires DecodeValues(v).Some?
    ensures EncodeValues(DecodeValues(v).value) == v
    decreases |v|
  {
    if |v| == 2 {
      var g := Group(v[0], v[1], 0, 0);
      SextetsGroup(v[0], v[1], 0, 0);
      assert g[1] == 0 && g[2] == 0;
      assert DecodeValues(v).value == [g[0]];
    } else if |v| == 3 {
      var g := Group(v[0], v[1], v[2], 0);
      SextetsGroup(v[0], v[1], v[2], 0);
      assert g[2] == 0;
      assert DecodeValues(v).value == [g[0], g[1]];
    } else if |v| >= 4 {
      var g := Group(v[0], v[1], v[2], v[3]);
      var rest := DecodeValues(v[4..]).value;
      EncodeValuesDecodeValues(v[4..]);
      SextetsGroup(v[0], v[1], v[2], v[3]);
      var bytes := g + rest;
      assert bytes[0] == g[0] && bytes[1] == g[1] && bytes[2] == g[2] && bytes[3..] == rest;
      assert v == v[..4] + v[4..];
    }
  }

  // ---- 6-bit values and characters ----

  /** The characters of some 6-bit values, one each. */
  function Chars(v: seq<Sextet>): (s: string)
    ensures |s| == |v|
  {
    seq(|v|, i requires 0 <= i < |v| => CharOf(v[i]))
  }

  /** The 6-bit values of a text in the alphabet, one each. */
  function Values(s: string): (v: seq<Sextet>)
    requires forall i :: 0 <= i < |s| ==> InAlphabet(s[i])
    ensures |v| == |s|
  {
    seq(|s|, i requires 0 <= i < |s| && InAlphabet(s[i]) => ValueOf(s[i]).value)
  }

  /** Characters of values are in the alphabet and give the values back. */
  lemma ValuesChars(v: seq<Sextet>)
    ensures forall i :: 0 <= i < |v| ==> InAlphabet(Chars(v)[i])
    ensures Values(Chars(v)) == v
  {
    forall i | 0 <= i < |v|
      ensures ValueOf(Chars(v)[i]) == Some(v[i])
    {
      ValueOfCharOf(v[i]);
    }
  }

  /** A text in the alphabet is the characters of its values. */
  lemma CharsValues(s: string)
    requires forall i :: 0 <= i < |s| ==> InAlphabet(s[i])
    ensures Chars(Values(s)) == s
  {
    forall i | 0 <= i < |s|
      ensures Chars(Values(s))[i] == s[i]
    {
      CharOfValueOf(s[i]);
    }
  }

  // ---- the codec ----

  function Encode(b: seq<Byte>): (s: string)
    ensures |s| == EncodedLength(|b|)
  {
    Chars(EncodeValues(b))
  }

  /** Strict decoding: only alphabet characters, no padding, a length that
      is not 1 modulo 4, and zero bits where a final group has unused bits,
      so that each byte string has exactly one accepted text. */
  function Decode(s: string): (r: Option<seq<Byte>>)
    ensures r.Some? ==> forall i :: 0 <= i < |s| ==> InAlphabet(s[i])
  {
    if forall i :: 0 <= i < |s| ==> InAlphabet(s[i]) then DecodeValues(Values(s)) else None
  }

  /** Every character of an encoding is in the alphabet. */
  lemma EncodeInAlphabet(b: seq<Byte>)
    ensures forall i :: 0 <= i < |Encode(b)| ==> InAlphabet(Encode(b)[i])
  {
    ValuesChars(EncodeValues(b));
  }

  /** Round trip: decoding an encoding gives the bytes back. */
  lemma DecodeEncode(b: seq<Byte>)
    ensures Decode(Encode(b)) == Some(b)
  {
    ValuesChars(EncodeValues(b));
    DecodeValuesEncodeValues(b);
  }

  /** The other direction: a text the decoder accepts is exactly the
      encoding of what it decodes to, so no two texts decode alike. */
  lemma EncodeDecode(s: string)
    requires Decode(s).Some?
    ensures Encode(Decode(s).value) == s
  {
    EncodeValuesDecodeValues(Values(s));
    CharsValues(s);
  }

  /** Nothing outside the alphabet, in particular no `.`, ever appears in
      an encoding. */
  lemma NoDotInEncoding(b: seq<Byte>)
    ensures '.' !in Encode(b)
  {
    EncodeInAlphabet(b);
    assert !InAlphabet('.');
  }
}
