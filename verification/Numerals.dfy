/** Numbers as they are printed, and the proof that the parser reads back what was printed. */
module Numerals {
  import opened Chars
  import opened Alphabets
  import opened ParserTypes
  import opened Machine
  import opened Stream
  import opened Bodies
  import opened Chunked
  import opened Names
  import opened Values
  import opened HeaderLines
  import StartLines
  import UrlParser

  /** The digits of a number, most significant first; the base is the number of digits there are. */
  function Numeral(n: nat, digits: string): (s: string)
    requires |digits| > 1
    ensures s != ""
    decreases n
  {
    var b := |digits|;
    (if n < b then "" else Smaller(n, b); Numeral(n / b, digits)) + [digits[n % b]]
  }

  lemma Smaller(n: nat, b: nat)
    requires 1 < b <= n
    ensures n / b < n
  {
    var q := n / b;
    assert n == b * q + n % b;
    assert b * q == (b - 2) * q + 2 * q && (b - 2) * q >= 0;
    assert q > 0 || n < b;
  }

  // ---- hexadecimal ----

  predicate HexDigits(digits: string) {
    digits == HEX_LOWER || digits == HEX_UPPER
  }

  lemma HexDigitRead(digits: string, i: nat)
    requires HexDigits(digits) && i < 16
    ensures |digits| == 16 && Unhex(digits[i]) == i
  {
  }

  lemma {:induction false} HexMore(v: nat, s: string, c: char)
    requires AllHex(s) && Unhex(c) >= 0
    ensures AllHex(s + [c]) && HexFrom(v, s + [c]) == HexFrom(v, s) * 16 + Unhex(c)
    decreases |s|
  {
    hide Unhex;
    if s == "" {
      assert HexFrom(v * 16 + Unhex(c), [c][1..]) == v * 16 + Unhex(c);
      assert "" + [c] == [c];
    } else {
      assert (s + [c])[1..] == s[1..] + [c];
      HexMore(v * 16 + Unhex(s[0]), s[1..], c);
    }
  }

  /** A number in base 16, in small or capital letters, is read as that number. */
  lemma {:induction false} HexNumeral(n: nat, digits: string)
    requires HexDigits(digits)
    ensures |digits| == 16
    ensures AllHex(Numeral(n, digits)) && HexFrom(0, Numeral(n, digits)) == n
    decreases n
  {
    hide Unhex, HexDigits;
    HexDigitRead(digits, n % 16);
    var c := digits[n % 16];
    if n < 16 {
      HexMore(0, "", c);
    } else {
      HexNumeral(n / 16, digits);
      HexMore(0, Numeral(n / 16, digits), c);
    }
  }

  /** Chunks as a sender prints them: the size in base 16. */
  function Printed(datas: seq<string>, digits: string): seq<Piece>
    requires |digits| > 1
  {
    if datas == [] then [] else [Piece(Numeral(|datas[0]|, digits), "", datas[0])] + Printed(datas[1..], digits)
  }

  /** The bytes of a chunked body, written out: each size and its data on a line, then a zero and an empty line. */
  function ChunkedText(datas: seq<string>, digits: string): string
    requires |digits| > 1
  {
    if datas == [] then "0\r\n\r\n"
    else Numeral(|datas[0]|, digits) + "\r\n" + datas[0] + "\r\n" + ChunkedText(datas[1..], digits)
  }

  /** What the callbacks get of them. */
  function ChunksSeen(t: History, datas: seq<string>): History
    decreases |datas|
  {
    if datas == [] then Push(Push(t, Note(OnChunkHeader, 0)), Note(OnChunkComplete, 0))
    else
      ChunksSeen(Push(Push(Push(t, Note(OnChunkHeader, |datas[0]|)), Text(OnBody, datas[0])), Note(OnChunkComplete, 0)),
                 datas[1..])
  }

  const LAST := Piece("0", "", "")

  lemma LastFits()
    ensures IsLast(LAST)
  {
    assert Unhex('0') == 0;
    assert HexFrom(0, "0") == HexFrom(0, ""[0..]);
  }

  predicate Sendable(datas: seq<string>) {
    forall i :: 0 <= i < |datas| ==> 0 < |datas[i]| <= 0xFFFF_FFFF_FFFF_FFEF
  }

  lemma {:induction false} PrintedPieces(t: History, datas: seq<string>, digits: string)
    requires HexDigits(digits) && Sendable(datas)
    ensures |digits| == 16
    ensures forall i :: 0 <= i < |Printed(datas, digits)| ==> IsPiece(Printed(datas, digits)[i])
    ensures ChunkedText(datas, digits) == Encode(Printed(datas, digits), LAST)
    ensures ChunksSeen(t, datas) ==
            Push(Push(SeenAll(t, Printed(datas, digits)), Note(OnChunkHeader, 0)), Note(OnChunkComplete, 0))
    decreases |datas|
  {
    hide AllHex, HexFrom, Push, HexDigits, Numeral;
    if datas == [] {
      HexNumeral(0, digits);
      assert "0" + "" + CRLF + CRLF == "0\r\n\r\n";
      assert "" + "0\r\n\r\n" == "0\r\n\r\n";
    } else {
      HexNumeral(|datas[0]|, digits);
      var x := Piece(Numeral(|datas[0]|, digits), "", datas[0]);
      PrintedPieces(SeenPiece(t, x), datas[1..], digits);
      var xs := Printed(datas[1..], digits);
      assert Printed(datas, digits) == [x] + xs && ([x] + xs)[1..] == xs;
      assert x.size + x.ext + CRLF + (x.data + CRLF) == x.size + "\r\n" + x.data + "\r\n";
      assert Encode([x] + xs, LAST) == EncodePiece(x) + (EncodeAll(xs) + ("0" + "" + CRLF + CRLF));
    }
  }

  /** Chunks with printed sizes: each is announced with its size, delivered and ended, and the message is complete on
      the last byte. */
  lemma PrintedDecodes(c: Core, datas: seq<string>, digits: string, rest: string, skip: Skip)
    requires c.p.state == Chunk(SizeStart) && HexDigits(digits) && Sendable(datas)
    ensures |digits| == 16
    ensures Feed(c, ChunkedText(datas, digits) + rest, skip) ==
            NextMessage(c.p.(contentLength := 0, flags := c.p.flags.(trailing := true)), ChunksSeen(c.seen, datas),
              rest, skip)
  {
    hide Feed, NextMessage, HexDigits, Encode, IsPiece, IsLast, ChunksSeen, SeenAll, Push;
    LastFits();
    PrintedPieces(c.seen, datas, digits);
    Decodes(c, Printed(datas, digits), LAST, rest, skip);
  }

  /** A chunk size starts with a hexadecimal digit; any other byte is refused. */
  lemma NoSize(c: Core, d: string, skip: Skip)
    requires c.p.state == Chunk(SizeStart) && d != "" && d[0] !in HEX_LOWER && d[0] !in HEX_UPPER
    ensures Feed(c, d, skip) == Outcome(Core(c.p.(errno := HpeInvalidChunkSize), c.seen), d, Failed)
  {
    hide Unhex, LeadByte, ResponseByte, MethodByte, UrlByte, RequestByte, NameByte, DiscardByte, ValueByte, EndByte,
      BodyByte;
    UnhexExact(d[0]);
  }

  // ---- decimal ----

  lemma DigitRead(i: nat)
    requires i < 10
    ensures IsNum(DIGITS[i]) && Digit(DIGITS[i]) == i
  {
  }

  lemma {:induction false} LengthMore(v: nat, s: string, c: char)
    requires IsNum(c) && LengthFrom(v, s) >= 0
    ensures LengthFrom(v, s + [c]) == LengthFrom(v, s) * 10 + Digit(c)
    decreases |s|
  {
    hide Digit, IsNum;
    if s == "" {
      assert "" + [c] == [c] && [c][1..] == "";
      NumNotSpace(c);
    } else {
      assert (s + [c])[1..] == s[1..] + [c];
      if s[0] == ' ' { LengthMore(v, s[1..], c); } else { LengthMore(v * 10 + Digit(s[0]), s[1..], c); }
    }
  }

  lemma NumNotSpace(c: char)
    ensures IsNum(c) ==> c != ' '
  {
  }

  lemma {:induction false} NumberMore(v: nat, s: string, c: char)
    requires IsNum(c) && forall i :: 0 <= i < |s| ==> IsNum(s[i])
    ensures StartLines.NumberFrom(v, s + [c]) == StartLines.NumberFrom(v, s) * 10 + Digit(c)
    decreases |s|
  {
    hide Digit, IsNum;
    if s == "" {
      assert "" + [c] == [c] && [c][1..] == "";
    } else {
      assert (s + [c])[1..] == s[1..] + [c];
      NumberMore(v * 10 + Digit(s[0]), s[1..], c);
    }
  }

  /** A printed number is read as that number: by the content length, by the start lines, and by the port of a URL. */
  lemma {:induction false} DecimalNumeral(n: nat)
    ensures var s := Numeral(n, DIGITS);
            && IsNum(s[0]) && LengthFrom(0, s) == n
            && StartLines.Digits(s) && StartLines.Number(s) == n
            && UrlParser.Decimal(s) == n
    decreases n
  {
    hide Digit, IsNum;
    DigitRead(n % 10);
    var c := DIGITS[n % 10];
    if n < 10 {
      LengthMore(0, "", c);
      NumberMore(0, "", c);
      assert Numeral(n, DIGITS) == [c] && "" + [c] == [c];
      assert UrlParser.Decimal([c]) == UrlParser.Decimal([c][..0]) * 10 + Digit(c);
    } else {
      var s := Numeral(n / 10, DIGITS);
      DecimalNumeral(n / 10);
      LengthMore(0, s, c);
      NumberMore(0, s, c);
      assert Numeral(n, DIGITS) == s + [c] && (s + [c])[..|s|] == s;
    }
  }

  /** A Content-Length line with a printed number sets content_length to it, up to 2^64 - 7, and is refused beyond. */
  lemma LengthNumeral(f: Flags, k: nat, n: nat)
    ensures EffectOf(f, k, Means(ContentLength), Numeral(n, DIGITS)) ==
            if n <= 0xFFFF_FFFF_FFFF_FFF9 then Sets(f, n) else Refused
  {
    hide Numeral, LengthFrom;
    DecimalNumeral(n);
  }
}
