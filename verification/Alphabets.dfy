/** The byte classes as the standards list them (section 2 of RFC 3986, section 3.2.6 of RFC 7230), and the proof that
    the tables of http-parser.c are these lists. */
module Alphabets {
  import opened Chars

  const DIGITS := "0123456789"
  const HEX_LOWER := "0123456789abcdef"
  const HEX_UPPER := "0123456789ABCDEF"

  predicate Letter(c: char) {
    'A' <= c <= 'Z' || 'a' <= c <= 'z'
  }

  /** A byte of a token. */
  predicate Tchar(c: char) {
    Letter(c) || c in DIGITS || c in "!#$%&'*+-.^_`|~"
  }

  /** A letter in lower case, and any other byte as it is. */
  function LowerCase(c: char): char {
    if 'A' <= c <= 'Z' then c + ' ' else c
  }

  lemma DigitList(c: char)
    ensures c in DIGITS <==> '0' <= c <= '9'
  {
    if '0' <= c <= '9' { assert DIGITS[c as int - '0' as int] == c; }
  }

  /** The table `tokens` holds the token bytes, lower-cased. */
  lemma TokenExact(c: char)
    ensures Token(c) == if Tchar(c) then LowerCase(c) else '\0'
    ensures Tchar(c) ==> LowerCase(c) != '\0'
  {
    DigitList(c);
  }

  /** LOWER sets bit 5 of a byte: it keeps or makes lower case of letters, and of nothing else. */
  lemma LowerExact(c: char)
    ensures Letter(c) ==> Lower(c) == LowerCase(c)
    ensures Letter(Lower(c)) ==> Letter(c)
    ensures Lower(c) == '-' ==> c == '-' || c == CR
    ensures c == '-' ==> Lower(c) == c
    ensures Lower(c) as int == if c as int < 256 && c as int / 32 % 2 == 0 then c as int + 32 else c as int
  {
  }

  lemma AlphaExact(c: char)
    ensures IsAlpha(c) <==> Letter(c)
  {
    LowerExact(c);
  }

  lemma NumExact(c: char)
    ensures IsNum(c) <==> c in DIGITS
    ensures IsNum(c) ==> Digit(c) < 10 && DIGITS[Digit(c)] == c
  {
    DigitList(c);
  }

  /** The value of a hexadecimal digit is its place among them. */
  lemma UnhexExact(c: char)
    ensures Unhex(c) == -1 <==> c !in HEX_LOWER && c !in HEX_UPPER
    ensures Unhex(c) >= 0 ==> c == HEX_LOWER[Unhex(c)] || c == HEX_UPPER[Unhex(c)]
  {
    if 0 <= Unhex(c) { HexPlace(c); }
    HexList(c);
  }

  lemma HexPlace(c: char)
    requires Unhex(c) >= 0
    ensures c == HEX_LOWER[Unhex(c)] || c == HEX_UPPER[Unhex(c)]
  {
  }

  lemma HexList(c: char)
    ensures c in HEX_LOWER || c in HEX_UPPER ==> Unhex(c) >= 0
  {
  }

  lemma HexExact(c: char)
    ensures IsHex(c) <==> c in HEX_LOWER || c in HEX_UPPER
  {
    UnhexExact(c);
    if 'a' <= Lower(c) <= 'f' { LowerExact(c); }
  }

  /** User information: unreserved bytes, the escape sign, and some of the reserved bytes. */
  lemma UserinfoExact(c: char)
    ensures IsUserinfoChar(c) <==> Letter(c) || c in DIGITS || c in "-_.!~*'()" || c in "%;:&=+$,"
  {
    AlphaExact(c);
    NumExact(c);
  }

  lemma HostExact(c: char)
    ensures IsHostChar(c) <==> Letter(c) || c in DIGITS || c in ".-"
  {
    AlphaExact(c);
    NumExact(c);
  }

  /** A path takes every visible byte but the two that end it. */
  lemma UrlExact(c: char)
    ensures IsUrlChar(c) <==> Letter(c) || c in DIGITS || c in "!\"$%&'()*+,-./:;<=>@[\\]^_`{|}~"
  {
    DigitList(c);
  }
}
