/** The chunked coding of section 4.1 of RFC 7230: an encoder, and the proof that the parser inverts it. */
module Chunked {
  import opened Chars
  import opened ParserTypes
  import opened Machine
  import opened Stream
  import opened Bulk
  import opened Bodies

  const CRLF: string := [CR, LF]

  /** A chunk as a sender may write it: the size in any spelling, a chunk extension, the data. */
  datatype Piece = Piece(size: string, ext: string, data: string)

  predicate IsExtension(e: string) {
    e == "" || ((e[0] == ';' || e[0] == ' ') && forall i :: 0 <= i < |e| ==> e[i] != CR)
  }

  predicate IsSize(size: string, n: nat) {
    size != "" && AllHex(size) && HexFrom(0, size) == n && n <= ULLONG_MAX - 16
  }

  predicate IsPiece(x: Piece) {
    IsSize(x.size, |x.data|) && IsExtension(x.ext) && x.data != ""
  }

  function EncodePiece(x: Piece): string {
    x.size + x.ext + CRLF + (x.data + CRLF)
  }

  function EncodeAll(xs: seq<Piece>): string {
    if xs == [] then "" else EncodePiece(xs[0]) + EncodeAll(xs[1..])
  }

  /** A whole chunked body without trailers: `last` carries the size 0. */
  function Encode(xs: seq<Piece>, last: Piece): string {
    EncodeAll(xs) + (last.size + last.ext + CRLF + CRLF)
  }

  /** What the callbacks see of one chunk. */
  function SeenPiece(t: History, x: Piece): History {
    Push(Push(Push(t, Note(OnChunkHeader, |x.data|)), Text(OnBody, x.data)), Note(OnChunkComplete, 0))
  }

  function SeenAll(t: History, xs: seq<Piece>): History
    decreases |xs|
  {
    if xs == [] then t else SeenAll(SeenPiece(t, xs[0]), xs[1..])
  }

  lemma ReadsMore(c: Core, a: string, c1: Core, b: string, c2: Core, skip: Skip)
    requires Reads(c, a, skip, c1) && Reads(c1, b, skip, c2)
    ensures Reads(c, a + b, skip, c2)
  {
    hide Feed;
    ReadsThen(c, a, c1, b, skip);
  }

  lemma SizeText(c: Core, size: string, n: nat, skip: Skip)
    requires c.p.state == Chunk(SizeStart) && IsSize(size, n)
    ensures Reads(c, size, skip, Core(c.p.(state := Chunk(Size), contentLength := n), c.seen))
  {
    hide Feed, LeadByte, ResponseByte, MethodByte, UrlByte, RequestByte, NameByte, DiscardByte, ValueByte, EndByte,
      BodyByte, Unhex, Push;
    NoUnhex(size[0]);
    var c1 := Core(c.p.(state := Chunk(Size), contentLength := Unhex(size[0])), c.seen);
    assert Apply(c, size[0], skip) == c1;
    ReadsByte(c, size[0], skip);
    SizeDigits(c1, size[1..], skip);
    ReadsThen(c, [size[0]], c1, size[1..], skip);
    assert size == [size[0]] + size[1..];
  }

  lemma {:induction false} ExtensionText(c: Core, e: string, skip: Skip)
    requires c.p.state == Chunk(SizeParameters) && forall i :: 0 <= i < |e| ==> e[i] != CR
    ensures Reads(c, e, skip, c)
    decreases |e|
  {
    hide LeadByte, ResponseByte, MethodByte, UrlByte, RequestByte, NameByte, DiscardByte, ValueByte, EndByte,
      BodyByte, Push;
    if e != "" {
      assert Apply(c, e[0], skip) == c;
      ExtensionText(c, e[1..], skip);
    }
  }

  /** The size and the extension, up to the CR. */
  lemma SizeLine(c: Core, size: string, ext: string, n: nat, skip: Skip)
    requires c.p.state == Chunk(SizeStart) && IsSize(size, n) && IsExtension(ext)
    ensures Reads(c, size + ext + [CR], skip, Core(c.p.(state := Chunk(SizeAlmostDone), contentLength := n), c.seen))
  {
    hide Feed, LeadByte, ResponseByte, MethodByte, UrlByte, RequestByte, NameByte, DiscardByte, ValueByte, EndByte,
      BodyByte, Push, HexFrom, AllHex, Reads;
    var c1 := Core(c.p.(state := Chunk(Size), contentLength := n), c.seen);
    SizeText(c, size, n, skip);
    if ext == "" {
      assert size + ext == size;
      ReadsByte(c1, CR, skip);
      ReadsMore(c, size, c1, [CR], Apply(c1, CR, skip), skip);
    } else {
      var c2 := Core(c1.p.(state := Chunk(SizeParameters)), c.seen);
      assert Apply(c1, ext[0], skip) == c2 by { ExtensionStart(ext[0]); }
      ReadsByte(c1, ext[0], skip);
      ReadsMore(c, size, c1, [ext[0]], c2, skip);
      ExtensionText(c2, ext[1..], skip);
      ReadsMore(c, size + [ext[0]], c2, ext[1..], c2, skip);
      ReadsByte(c2, CR, skip);
      ReadsMore(c, size + [ext[0]] + ext[1..], c2, [CR], Apply(c2, CR, skip), skip);
      assert size + [ext[0]] + ext[1..] == size + ext;
    }
  }

  lemma ExtensionStart(ch: char)
    ensures ch == ';' || ch == ' ' ==> Unhex(ch) == -1 && ch != CR
  {
  }

  lemma PieceData(c: Core, data: string, skip: Skip)
    requires c.p.state == Chunk(ChunkData) && c.p.contentLength == |data| && data != ""
    ensures Reads(c, data, skip,
                  Core(c.p.(state := Chunk(ChunkDataAlmostDone), contentLength := 0), Push(c.seen, Text(OnBody, data))))
  {
    hide Feed, LeadByte, ResponseByte, MethodByte, UrlByte, RequestByte, NameByte, DiscardByte, ValueByte, EndByte,
      BodyByte, Push;
    var n := |data|;
    CountedRun(c, data, n - 1, skip);
    var c1 := Core(c.p.(contentLength := 1), Appended(c.seen, OnBody, data[..n - 1]));
    AppendedLast(c.seen, OnBody, data, n);
    assert data[..n] == data && data[n - 1..] == [data[n - 1]];
    ReadsByte(c1, data[n - 1], skip);
  }

  /** CR and LF after a chunk's data. */
  lemma PieceEnd(c: Core, skip: Skip)
    requires c.p.state == Chunk(ChunkDataAlmostDone) && Ends(c.seen, OnBody)
    ensures Reads(c, CRLF, skip,
                  Core(c.p.(state := Chunk(SizeStart)), Push(c.seen, Note(OnChunkComplete, c.p.contentLength))))
  {
    hide Feed, LeadByte, ResponseByte, MethodByte, UrlByte, RequestByte, NameByte, DiscardByte, ValueByte, EndByte,
      BodyByte, Push;
    var c1 := Core(c.p.(state := Chunk(ChunkDataDone)), c.seen);
    PushNothing(c.seen, OnBody);
    assert Apply(c, CR, skip) == c1;
    ReadsByte(c, CR, skip);
    ReadsByte(c1, LF, skip);
    ReadsMore(c, [CR], c1, [LF], Apply(c1, LF, skip), skip);
    assert CRLF == [CR] + [LF];
  }

  function AfterPiece(c: Core, x: Piece): Core {
    Core(c.p.(contentLength := 0), SeenPiece(c.seen, x))
  }

  /** One chunk. */
  lemma ReadsPiece(c: Core, x: Piece, skip: Skip)
    requires c.p.state == Chunk(SizeStart) && IsPiece(x)
    ensures Reads(c, EncodePiece(x), skip, AfterPiece(c, x))
  {
    hide Feed, LeadByte, ResponseByte, MethodByte, UrlByte, RequestByte, NameByte, DiscardByte, ValueByte, EndByte,
      BodyByte, Push, Reads;
    var n := |x.data|;
    SizeLine(c, x.size, x.ext, n, skip);
    var c1 := Core(c.p.(state := Chunk(SizeAlmostDone), contentLength := n), c.seen);
    var c2 := Core(c.p.(state := Chunk(ChunkData), contentLength := n), Push(c.seen, Note(OnChunkHeader, n)));
    assert Apply(c1, LF, skip) == c2;
    ReadsByte(c1, LF, skip);
    ReadsMore(c, x.size + x.ext + [CR], c1, [LF], c2, skip);
    PieceData(c2, x.data, skip);
    var c3 := Core(c.p.(state := Chunk(ChunkDataAlmostDone), contentLength := 0), Push(c2.seen, Text(OnBody, x.data)));
    PieceBody(c2, x.data, c3, skip);
    ReadsMore(c, x.size + x.ext + [CR] + [LF], c2, x.data + CRLF, AfterPiece(c, x), skip);
    assert x.size + x.ext + [CR] + [LF] == x.size + x.ext + CRLF;
  }

  lemma PieceBody(c2: Core, data: string, c3: Core, skip: Skip)
    requires Reads(c2, data, skip, c3) && c3.p.state == Chunk(ChunkDataAlmostDone)
    requires c3.seen == Push(c2.seen, Text(OnBody, data))
    ensures Reads(c2, data + CRLF, skip,
                  Core(c3.p.(state := Chunk(SizeStart)), Push(c3.seen, Note(OnChunkComplete, c3.p.contentLength))))
  {
    hide Feed, Reads;
    PieceEnd(c3, skip);
    ReadsMore(c2, data, c3, CRLF,
              Core(c3.p.(state := Chunk(SizeStart)), Push(c3.seen, Note(OnChunkComplete, c3.p.contentLength))), skip);
  }

  lemma {:induction false} ReadsAll(c: Core, xs: seq<Piece>, skip: Skip)
    requires c.p.state == Chunk(SizeStart) && forall i :: 0 <= i < |xs| ==> IsPiece(xs[i])
    ensures Reads(c, EncodeAll(xs), skip,
                  Core(if xs == [] then c.p else c.p.(contentLength := 0), SeenAll(c.seen, xs)))
    decreases |xs|
  {
    hide IsPiece, EncodePiece, SeenPiece;
    if xs != [] {
      hide Feed, Reads;
      var c1 := AfterPiece(c, xs[0]);
      var c2 := Core(c.p.(contentLength := 0), SeenAll(c1.seen, xs[1..]));
      ReadsPiece(c, xs[0], skip);
      ReadsAll(c1, xs[1..], skip);
      ReadsMore(c, EncodePiece(xs[0]), c1, EncodeAll(xs[1..]), c2, skip);
    }
  }

  predicate IsLast(last: Piece) {
    IsSize(last.size, 0) && IsExtension(last.ext)
  }

  /** The parser inverts the chunked coding: each chunk's size and data are reported and its end signalled,
      then the last chunk, and the message is complete on the coding's last byte. */
  lemma Decodes(c: Core, xs: seq<Piece>, last: Piece, rest: string, skip: Skip)
    requires c.p.state == Chunk(SizeStart) && IsLast(last)
    requires forall i :: 0 <= i < |xs| ==> IsPiece(xs[i])
    ensures var t := Push(Push(SeenAll(c.seen, xs), Note(OnChunkHeader, 0)), Note(OnChunkComplete, 0));
            Feed(c, Encode(xs, last) + rest, skip) ==
            NextMessage(c.p.(contentLength := 0, flags := c.p.flags.(trailing := true)), t, rest, skip)
  {
    hide Feed, Reads, Push, NextMessage, IsPiece, EncodeAll, SeenAll, IsSize, IsExtension;
    var c1 := Core(if xs == [] then c.p else c.p.(contentLength := 0), SeenAll(c.seen, xs));
    ReadsAll(c, xs, skip);
    SizeLine(c1, last.size, last.ext, 0, skip);
    var tail := last.size + last.ext + CRLF + CRLF + rest;
    ReadsThen(c, EncodeAll(xs), c1, tail, skip);
    LastPiece(c1, last, rest, skip);
    assert Encode(xs, last) + rest == EncodeAll(xs) + tail;
  }

  /** The size line of the last chunk. */
  lemma LastHead(c: Core, last: Piece, skip: Skip)
    requires c.p.state == Chunk(SizeStart) && IsLast(last)
    ensures Reads(c, last.size + last.ext + CRLF, skip,
                  Core(c.p.(contentLength := 0, flags := c.p.flags.(trailing := true), state := Name(FieldStart)),
                       Push(c.seen, Note(OnChunkHeader, 0))))
  {
    hide Feed, Reads, Push, IsSize, IsExtension, LeadByte, ResponseByte, MethodByte, UrlByte, RequestByte, NameByte,
      DiscardByte, ValueByte, BodyByte;
    SizeLine(c, last.size, last.ext, 0, skip);
    var c1 := Core(c.p.(state := Chunk(SizeAlmostDone), contentLength := 0), c.seen);
    var p2 := c.p.(contentLength := 0, flags := c.p.flags.(trailing := true), state := Name(FieldStart));
    var c2 := Core(p2, Push(c.seen, Note(OnChunkHeader, 0)));
    assert Apply(c1, LF, skip) == c2;
    ReadsByte(c1, LF, skip);
    ReadsMore(c, last.size + last.ext + [CR], c1, [LF], c2, skip);
    assert last.size + last.ext + [CR] + [LF] == last.size + last.ext + CRLF;
  }

  lemma LastPiece(c: Core, last: Piece, rest: string, skip: Skip)
    requires c.p.state == Chunk(SizeStart) && IsLast(last)
    ensures var t := Push(Push(c.seen, Note(OnChunkHeader, 0)), Note(OnChunkComplete, 0));
            Feed(c, last.size + last.ext + CRLF + CRLF + rest, skip) ==
            NextMessage(c.p.(contentLength := 0, flags := c.p.flags.(trailing := true)), t, rest, skip)
  {
    hide Feed, Reads, Push, NextMessage, IsLast;
    LastHead(c, last, skip);
    var p2 := c.p.(contentLength := 0, flags := c.p.flags.(trailing := true), state := Name(FieldStart));
    var c2 := Core(p2, Push(c.seen, Note(OnChunkHeader, 0)));
    ReadsThen(c, last.size + last.ext + CRLF, c2, CRLF + rest, skip);
    BlankLine(c2, rest, skip);
    assert last.size + last.ext + CRLF + CRLF + rest == last.size + last.ext + CRLF + (CRLF + rest);
    NextMessageState(c.p.(contentLength := 0, flags := c.p.flags.(trailing := true)), p2,
                     Push(c2.seen, Note(OnChunkComplete, 0)), rest, skip);
  }

  /** The empty line after the last chunk and its trailers. */
  lemma BlankLine(c: Core, rest: string, skip: Skip)
    requires c.p.state == Name(FieldStart) && c.p.flags.trailing
    ensures Feed(c, CRLF + rest, skip) ==
            NextMessage(c.p, Push(c.seen, Note(OnChunkComplete, c.p.contentLength)), rest, skip)
  {
    hide Feed, Reads, Push, NextMessage, LeadByte, ResponseByte, MethodByte, UrlByte, RequestByte, DiscardByte,
      ValueByte, BodyByte, ChunkByte, EndByte;
    var c3 := Core(c.p.(state := End(HeadersAlmostDone)), c.seen);
    assert Apply(c, CR, skip) == c3;
    ReadsByte(c, CR, skip);
    ReadsThen(c, [CR], c3, [LF] + rest, skip);
    TrailersEnd(c3, rest, skip);
    assert CRLF + rest == [CR] + ([LF] + rest);
    NextMessageState(c.p, c3.p, Push(c.seen, Note(OnChunkComplete, c.p.contentLength)), rest, skip);
  }

  /** The LF that ends the trailers ends the message. */
  lemma TrailersEnd(c: Core, rest: string, skip: Skip)
    requires c.p.state == End(HeadersAlmostDone) && c.p.flags.trailing
    ensures Feed(c, [LF] + rest, skip) ==
            NextMessage(c.p, Push(c.seen, Note(OnChunkComplete, c.p.contentLength)), rest, skip)
  {
    hide Push, NextMessage, LeadByte, ResponseByte, MethodByte, UrlByte, RequestByte, NameByte, ChunkByte,
      DiscardByte, ValueByte, BodyByte;
    var c1 := Core(c.p.(state := Body(MessageDone)), Push(c.seen, Note(OnChunkComplete, c.p.contentLength)));
    assert ([LF] + rest)[0] == LF && ([LF] + rest)[1..] == rest;
    assert Apply(c, LF, skip) == c1;
    DoneByte(c1, [LF] + rest, skip);
    NextMessageState(c.p, c1.p, c1.seen, rest, skip);
  }

  // ---- the payload ----

  /** All text reported to a hook. */
  function Collected(h: Hook, t: History): string {
    match t
    case Nothing => ""
    case Then(past, Text(k, s)) => if k == h then Collected(h, past) + s else Collected(h, past)
    case Then(past, _) => Collected(h, past)
  }

  function Payload(xs: seq<Piece>): string {
    if xs == [] then "" else xs[0].data + Payload(xs[1..])
  }

  lemma CollectedPush(h: Hook, t: History, e: Event)
    ensures Collected(h, Push(t, e)) == if e.Text? && e.hook == h then Collected(h, t) + e.text else Collected(h, t)
  {
    if e.Text? && Ends(t, e.hook) && e.hook == h {
      assert Collected(h, t.past) + t.last.text + e.text == Collected(h, t.past) + (t.last.text + e.text);
    }
  }

  /** The on_body texts of a decoded body are the chunks' data, in order. */
  lemma {:induction false} PayloadSeen(t: History, xs: seq<Piece>)
    ensures Collected(OnBody, SeenAll(t, xs)) == Collected(OnBody, t) + Payload(xs)
    decreases |xs|
  {
    if xs != [] {
      hide Push, Collected;
      var a := Push(t, Note(OnChunkHeader, |xs[0].data|));
      var b := Push(a, Text(OnBody, xs[0].data));
      CollectedPush(OnBody, t, Note(OnChunkHeader, |xs[0].data|));
      CollectedPush(OnBody, a, Text(OnBody, xs[0].data));
      CollectedPush(OnBody, b, Note(OnChunkComplete, 0));
      PayloadSeen(SeenPiece(t, xs[0]), xs[1..]);
      assert Collected(OnBody, t) + xs[0].data + Payload(xs[1..]) ==
        Collected(OnBody, t) + (xs[0].data + Payload(xs[1..]));
    }
  }
}
