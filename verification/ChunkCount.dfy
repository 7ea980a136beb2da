/** The header count over a chunked body: every size line is counted from 0, and nothing else is. */
module ChunkCount {
  import opened Chars
  import opened ParserTypes
  import opened Machine
  import opened Stream
  import opened Count
  import opened Pieces
  import opened Grammar
  import opened Bodies
  import opened Chunked

  /** A part of the input that the parser reads to its end, outside names and values, with its header count. */
  ghost predicate Counted(k: nat, c: Core, d: string, skip: Skip, c': Core, end: nat, peak: nat) {
    Reads(c, d, skip, c') && Textless(c, d, skip) && Plain(k, c, d, skip) == end && Peak(k, c, d, skip) == peak
  }

  lemma CountedThen(k: nat, c: Core, a: string, c1: Core, k1: nat, p1: nat, b: string, c2: Core, k2: nat, p2: nat,
    skip: Skip)
    requires Counted(k, c, a, skip, c1, k1, p1) && Counted(k1, c1, b, skip, c2, k2, p2)
    ensures Counted(k, c, a + b, skip, c2, k2, Max(p1, p2))
  {
    hide Feed, Plain, Peak, Textless;
    FeedAppend(c, a, b, skip);
    TextlessAppend(c, a, b, skip);
    PlainAppend(k, c, a, b, skip);
    PeakAppend(k, c, a, b, skip);
  }

  /** A byte that is consumed in one pass. */
  lemma CountedByte(k: nat, c: Core, ch: char, skip: Skip)
    requires Dispatch(c.p, ch).next.Eat? && !LoopsOverText(c.p.state) && !LoopsOverText(Dispatch(c.p, ch).p.state)
    ensures var k1 := if ParsingHeader(c.p.state) then k + 1 else k;
            Counted(k, c, [ch], skip, Apply(c, ch, skip), CountAfter(c.p.state, ch, k1), k1)
  {
    hide Dispatch, Apply;
    ReadsByte(c, ch, skip);
    ApplyState(c, ch, skip);
    assert [ch][1..] == "";
    var c' := Apply(c, ch, skip);
    assert Textless(c', "", skip);
    var k1 := if ParsingHeader(c.p.state) then k + 1 else k;
    var k2 := CountAfter(c.p.state, ch, k1);
    PlainNothing(k2, c', skip);
    assert PlainByte(k1, c, [ch], skip) == Plain(k2, c', "", skip);
    assert PeakByte(k1, c, [ch], skip) == Peak(k2, c', "", skip);
    assert Textless(c, [ch], skip);
  }

  /** The digits of a size and its extension. */
  lemma {:induction false} SizePart(k: nat, c: Core, d: string, c': Core, skip: Skip)
    requires c.p.state.Chunk? && ReadsSize(c.p.state.chunk) && CR !in d && Reads(c, d, skip, c')
    ensures Counted(k, c, d, skip, c', k + |d|, k + |d|)
    ensures c'.p.state.Chunk? && ReadsSize(c'.p.state.chunk)
    decreases |d|
  {
    hide LeadByte, ResponseByte, MethodByte, UrlByte, RequestByte, NameByte, DiscardByte, ValueByte, EndByte,
      BodyByte, Unhex;
    if d == [] {
      PlainNothing(k, c, skip);
    } else {
      var c1 := Apply(c, d[0], skip);
      assert d[0] != CR && d[0] in d && Dispatch(c.p, d[0]).next.Eat?;
      SizePart(k + 1, c1, d[1..], c', skip);
      assert PlainByte(k + 1, c, d, skip) == Plain(k + 1, c1, d[1..], skip);
      assert PeakByte(k + 1, c, d, skip) == Peak(k + 1, c1, d[1..], skip);
    }
  }

  /** Chunk data is not counted. */
  lemma {:induction false} DataPart(k: nat, c: Core, d: string, skip: Skip)
    requires c.p.state == Chunk(ChunkData) && c.p.contentLength == |d| && d != []
    ensures Textless(c, d, skip) && Plain(k, c, d, skip) == k && Peak(k, c, d, skip) == k
    decreases |d|
  {
    hide LeadByte, ResponseByte, MethodByte, UrlByte, RequestByte, NameByte, DiscardByte, ValueByte, EndByte,
      BodyByte, Push;
    var c1 := Apply(c, d[0], skip);
    if |d| > 1 {
      DataPart(k, c1, d[1..], skip);
    } else {
      assert d[1..] == "";
      PlainNothing(k, c1, skip);
    }
    assert PlainByte(k, c, d, skip) == Plain(k, c1, d[1..], skip)
      && PeakByte(k, c, d, skip) == Peak(k, c1, d[1..], skip);
  }

  lemma DataPeak(k: nat, c: Core, d: string, skip: Skip)
    requires c.p.state == Chunk(ChunkData) && c.p.contentLength == |d| && d != []
    ensures Counted(k, c, d, skip,
                    Core(c.p.(state := Chunk(ChunkDataAlmostDone), contentLength := 0),
                      Push(c.seen, Text(OnBody, d))), k, k)
  {
    hide Feed, Dispatch, Push, Textless, Plain, Peak;
    DataPart(k, c, d, skip);
    PieceData(c, d, skip);
  }

  /** The length of a chunk's size line. */
  function LineLength(x: Piece): nat {
    |x.size| + |x.ext| + 2
  }

  lemma NoReturn(size: string, n: nat, ext: string)
    requires IsSize(size, n) && IsExtension(ext)
    ensures CR !in size + ext
  {
  }

  lemma SizeCR(c: Core, skip: Skip)
    requires c.p.state.Chunk? && (c.p.state.chunk.Size? || c.p.state.chunk.SizeParameters?)
    ensures Dispatch(c.p, CR) == Act(c.p.(state := Chunk(SizeAlmostDone)), Bare, Quiet, Eat)
  {
    hide LeadByte, ResponseByte, MethodByte, UrlByte, RequestByte, NameByte, DiscardByte, ValueByte, EndByte,
      BodyByte, Unhex;
  }

  lemma NoSizeCR(c: Core, skip: Skip)
    requires c.p.state == Chunk(SizeStart)
    ensures Feed(c, [CR], skip).why.Failed?
  {
    hide LeadByte, ResponseByte, MethodByte, UrlByte, RequestByte, NameByte, DiscardByte, ValueByte, EndByte, BodyByte;
  }

  /** A size line up to its CR. */
  lemma SizeLineCounts(c: Core, x: Piece, n: nat, skip: Skip)
    requires c.p.state == Chunk(SizeStart) && IsSize(x.size, n) && IsExtension(x.ext)
    ensures Counted(0, c, x.size + x.ext + [CR], skip,
            Core(c.p.(state := Chunk(SizeAlmostDone), contentLength := n), c.seen),
                    LineLength(x) - 1, LineLength(x) - 1)
  {
    hide Feed, Dispatch, Textless, Plain, Peak, IsSize, IsExtension;
    var d := x.size + x.ext;
    SizeLine(c, x.size, x.ext, n, skip);
    NoReturn(x.size, n, x.ext);
    FeedAppend(c, d, [CR], skip);
    var c1 := Feed(c, d, skip).c;
    DrainedRest(c, d, skip);
    SizePart(0, c, d, c1, skip);
    if c1.p.state == Chunk(SizeStart) { NoSizeCR(c1, skip); } else { SizeCR(c1, skip); }
    CountedByte(|d|, c1, CR, skip);
    CountedThen(0, c, d, c1, |d|, |d|, [CR], Apply(c1, CR, skip), |d| + 1, |d| + 1, skip);
  }

  lemma {:induction false} DrainedRest(c: Core, d: string, skip: Skip)
    requires Feed(c, d, skip).why.Drained?
    ensures Feed(c, d, skip).rest == ""
    decreases |d|, Rank(c.p.state)
  {
    hide Dispatch, Apply;
    if d != [] {
      match Dispatch(c.p, d[0]).next
      case Eat => DrainedRest(Apply(c, d[0], skip), d[1..], skip);
      case Redo =>
        RankFalls(c.p, d[0]);
        ApplyState(c, d[0], skip);
        DrainedRest(Apply(c, d[0], skip), d, skip);
      case _ =>
    }
  }

  /** The LF of a size line sets the count back to 0. */
  lemma SizeLF(k: nat, c: Core, skip: Skip)
    requires c.p.state == Chunk(SizeAlmostDone)
    ensures var q := if c.p.contentLength == 0
            then c.p.(flags := c.p.flags.(trailing := true), state := Name(FieldStart))
                     else c.p.(state := Chunk(ChunkData));
            Counted(k, c, [LF], skip, Core(q, Push(c.seen, Note(OnChunkHeader, c.p.contentLength))), 0, k + 1)
  {
    hide Feed, Textless, Plain, Peak, Push, LeadByte, ResponseByte, MethodByte, UrlByte, RequestByte, NameByte,
      DiscardByte, ValueByte, EndByte, BodyByte;
    CountedByte(k, c, LF, skip);
  }

  /** CR and LF after a chunk's data. */
  lemma PieceEndCounts(c: Core, skip: Skip)
    requires c.p.state == Chunk(ChunkDataAlmostDone) && Ends(c.seen, OnBody)
    ensures Counted(0, c, CRLF, skip,
                    Core(c.p.(state := Chunk(SizeStart)), Push(c.seen, Note(OnChunkComplete, c.p.contentLength))), 0, 0)
  {
    hide Feed, Textless, Plain, Peak, Push, LeadByte, ResponseByte, MethodByte, UrlByte, RequestByte, NameByte,
      DiscardByte, ValueByte, EndByte, BodyByte;
    var c1 := Core(c.p.(state := Chunk(ChunkDataDone)), c.seen);
    PushNothing(c.seen, OnBody);
    assert Apply(c, CR, skip) == c1;
    CountedByte(0, c, CR, skip);
    CountedByte(0, c1, LF, skip);
    CountedThen(0, c, [CR], c1, 0, 0, [LF], Apply(c1, LF, skip), 0, 0, skip);
    assert CRLF == [CR] + [LF];
  }

  /** One chunk: only its size line is counted, from 0. */
  lemma PieceCounts(c: Core, x: Piece, skip: Skip)
    requires c.p.state == Chunk(SizeStart) && IsPiece(x)
    ensures Counted(0, c, EncodePiece(x), skip, AfterPiece(c, x), 0, LineLength(x))
  {
    hide Counted, Push, IsSize, IsExtension;
    var n := |x.data|;
    var c1 := Core(c.p.(state := Chunk(SizeAlmostDone), contentLength := n), c.seen);
    SizeLineCounts(c, x, n, skip);
    SizeLF(LineLength(x) - 1, c1, skip);
    var c2 := Core(c.p.(state := Chunk(ChunkData), contentLength := n), Push(c.seen, Note(OnChunkHeader, n)));
    CountedThen(0, c, x.size + x.ext + [CR], c1, LineLength(x) - 1, LineLength(x) - 1, [LF], c2, 0, LineLength(x),
      skip);
    DataPeak(0, c2, x.data, skip);
    var c3 := Core(c2.p.(state := Chunk(ChunkDataAlmostDone), contentLength := 0), Push(c2.seen, Text(OnBody, x.data)));
    PushEnds(c2.seen, OnBody, x.data);
    PieceEndCounts(c3, skip);
    var c4 := AfterPiece(c, x);
    CountedThen(0, c2, x.data, c3, 0, 0, CRLF, c4, 0, 0, skip);
    CountedThen(0, c, x.size + x.ext + [CR] + [LF], c2, 0, LineLength(x), x.data + CRLF, c4, 0, 0, skip);
    assert x.size + x.ext + [CR] + [LF] == x.size + x.ext + CRLF;
  }

  function LongestLine(xs: seq<Piece>): nat {
    if xs == [] then 0 else Max(LineLength(xs[0]), LongestLine(xs[1..]))
  }

  lemma {:induction false} AllCounts(c: Core, xs: seq<Piece>, skip: Skip)
    requires c.p.state == Chunk(SizeStart) && forall i :: 0 <= i < |xs| ==> IsPiece(xs[i])
    ensures Counted(0, c, EncodeAll(xs), skip,
                    Core(if xs == [] then c.p else c.p.(contentLength := 0), SeenAll(c.seen, xs)), 0, LongestLine(xs))
    decreases |xs|
  {
    hide IsPiece, EncodePiece, SeenPiece;
    if xs == [] {
      PlainNothing(0, c, skip);
    } else {
      hide Counted, Feed;
      var c1 := AfterPiece(c, xs[0]);
      var c2 := Core(c.p.(contentLength := 0), SeenAll(c1.seen, xs[1..]));
      PieceCounts(c, xs[0], skip);
      AllCounts(c1, xs[1..], skip);
      CountedThen(0, c, EncodePiece(xs[0]), c1, 0, LineLength(xs[0]), EncodeAll(xs[1..]), c2, 0, LongestLine(xs[1..]),
        skip);
    }
  }

  /** The last byte of the coding. */
  lemma EndCounts(c: Core, skip: Skip)
    requires c.p.state == End(HeadersAlmostDone) && c.p.flags.trailing && !c.p.upgrade
    ensures Textless(c, [LF], skip) && Peak(1, c, [LF], skip) == 2 && Feed(c, [LF], skip).why.Drained?
  {
    hide Push, LeadByte, ResponseByte, MethodByte, UrlByte, RequestByte, NameByte, DiscardByte, ValueByte, ChunkByte,
      NewMessage;
    var c1 := Core(c.p.(state := Body(MessageDone)), Push(c.seen, Note(OnChunkComplete, c.p.contentLength)));
    var c2 := Apply(c1, LF, skip);
    assert Apply(c, LF, skip) == c1;
    assert [LF][1..] == "" && c2.p.state.Lead?;
    PlainNothing(2, c2, skip);
    assert PeakByte(2, c1, [LF], skip) == Peak(2, c2, "", skip);
    assert PeakByte(2, c, [LF], skip) == PeakByte(2, c1, [LF], skip);
    assert Textless(c2, "", skip);
    assert Textless(c1, [LF], skip);
    assert Feed(c1, [LF], skip) == Feed(c2, "", skip);
  }

  /** The last chunk: its size line is counted from 0, and so is the empty line. */
  lemma LastCounts(c: Core, last: Piece, skip: Skip)
    requires c.p.state == Chunk(SizeStart) && IsLast(last) && !c.p.upgrade
    ensures var d := last.size + last.ext + CRLF + CRLF;
            Textless(c, d, skip) && Peak(0, c, d, skip) == LineLength(last) && Feed(c, d, skip).why.Drained?
  {
    hide Feed, Textless, Plain, Peak, Push, IsSize, IsExtension, LeadByte, ResponseByte, MethodByte, UrlByte,
      RequestByte, DiscardByte, ValueByte, BodyByte, ChunkByte;
    var a, k := last.size + last.ext + [CR], LineLength(last);
    var c1 := Core(c.p.(state := Chunk(SizeAlmostDone), contentLength := 0), c.seen);
    SizeLineCounts(c, last, 0, skip);
    SizeLF(k - 1, c1, skip);
    var p2 := c.p.(contentLength := 0, flags := c.p.flags.(trailing := true), state := Name(FieldStart));
    var c2 := Core(p2, Push(c.seen, Note(OnChunkHeader, 0)));
    CountedThen(0, c, a, c1, k - 1, k - 1, [LF], c2, 0, k, skip);
    var c3 := Core(p2.(state := End(HeadersAlmostDone)), c2.seen);
    assert Apply(c2, CR, skip) == c3;
    CountedByte(0, c2, CR, skip);
    CountedThen(0, c, a + [LF], c2, 0, k, [CR], c3, 1, 1, skip);
    EndCounts(c3, skip);
    var b := a + [LF] + [CR];
    FeedAppend(c, b, [LF], skip);
    TextlessAppend(c, b, [LF], skip);
    PeakAppend(0, c, b, [LF], skip);
    assert b + [LF] == last.size + last.ext + CRLF + CRLF;
    SizeNonEmpty(last);
  }

  lemma SizeNonEmpty(last: Piece)
    requires IsLast(last)
    ensures LineLength(last) >= 3
  {
  }

  /** The count over a whole chunked body is the length of its longest size line. */
  lemma EncodeCounts(c: Core, xs: seq<Piece>, last: Piece, skip: Skip)
    requires c.p.state == Chunk(SizeStart) && IsLast(last) && !c.p.upgrade
    requires forall i :: 0 <= i < |xs| ==> IsPiece(xs[i])
    ensures Textless(c, Encode(xs, last), skip)
    ensures Peak(0, c, Encode(xs, last), skip) == Max(LongestLine(xs), LineLength(last))
  {
    hide Feed, Textless, Plain, Peak, IsPiece, IsLast, SeenAll;
    var c1 := Core(if xs == [] then c.p else c.p.(contentLength := 0), SeenAll(c.seen, xs));
    AllCounts(c, xs, skip);
    LastCounts(c1, last, skip);
    var tail := last.size + last.ext + CRLF + CRLF;
    TextlessAppend(c, EncodeAll(xs), tail, skip);
    PeakAppend(0, c, EncodeAll(xs), tail, skip);
  }

  /** Every size line is within the header limit. */
  predicate LinesFit(xs: seq<Piece>, last: Piece) {
    (forall i :: 0 <= i < |xs| ==> LineLength(xs[i]) <= HTTP_MAX_HEADER_SIZE)
      && LineLength(last) <= HTTP_MAX_HEADER_SIZE
  }

  lemma {:induction false} LongestFits(xs: seq<Piece>)
    ensures LongestLine(xs) <= HTTP_MAX_HEADER_SIZE <==>
            forall i :: 0 <= i < |xs| ==> LineLength(xs[i]) <= HTTP_MAX_HEADER_SIZE
    decreases |xs|
  {
    hide LineLength;
    if xs != [] {
      LongestFits(xs[1..]);
      assert forall i :: 0 <= i < |xs| - 1 ==> xs[1..][i] == xs[i + 1];
      assert forall i :: 1 <= i < |xs| ==> xs[i] == xs[1..][i - 1];
    }
  }
}
