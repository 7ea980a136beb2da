/** What is refused where: the bytes that may stand at each place of a message, and the errno of any other. */
module Refusals {
  import opened Chars
  import opened Alphabets
  import opened ParserTypes
  import opened Machine
  import opened Stream
  import opened Invariant
  import opened Bodies
  import opened Cursor
  import opened Passes
  import UrlChar

  /** The bytes that may stand somewhere: these only, digits with the number they end staying within 999, any of a
      class, or all. */
  datatype Place =
    | Only(bytes: string)
    | DigitOr(bytes: string, value: nat)
    | Tokens(bytes: string)
    | HexOr(bytes: string, length: nat)
    | Anything

  /** What may stand where the parser is; the method matcher, the target, and content lengths have results of their
      own. */
  function PlaceOf(p: Parser): Place {
    match p.state
    case Lead(Dead) => Only("\r\n")
    case Lead(ResOrRespH) => Only("TE")
    case Lead(StartRes) => Only("H\r\n")
    case Lead(StartReq) => Only("CDGHLMNOPRSTU\r\n")
    case Lead(StartReqOrRes) => Anything
    case Response(ResH) => Only("T")
    case Response(ResHT) => Only("T")
    case Response(ResHTT) => Only("P")
    case Response(ResHTTP) => Only("/")
    case Response(ResFirstMajor) => DigitOr("", 0)
    case Response(ResMajor) => DigitOr(".", p.httpMajor * 10)
    case Response(ResFirstMinor) => DigitOr("", 0)
    case Response(ResMinor) => DigitOr(" ", p.httpMinor * 10)
    case Response(ResFirstStatusCode) => DigitOr(" ", 0)
    case Response(ResStatusCode) => DigitOr(" \r\n", p.statusCode * 10)
    case Response(ResStatusStart) => Anything
    case Response(ResStatus) => Anything
    case Response(ResLineAlmostDone) => Only("\n")
    case Request(ReqHttpStart) => Only("H ")
    case Request(ReqH) => Only("T")
    case Request(ReqHT) => Only("T")
    case Request(ReqHTT) => Only("P")
    case Request(ReqHTTP) => Only("/")
    case Request(ReqFirstMajor) => Only("123456789")
    case Request(ReqMajor) => DigitOr(".", p.httpMajor * 10)
    case Request(ReqFirstMinor) => DigitOr("", 0)
    case Request(ReqMinor) => DigitOr("\r\n", p.httpMinor * 10)
    case Request(ReqLineAlmostDone) => Only("\n")
    case Name(FieldStart) => Tokens("\r\n")
    case Name(FieldText) => Tokens(":")
    case Discard(DiscardWsAlmostDone) => Only("\n")
    case Value(ValueAlmostDone) => Only("\n")
    case End(_) => Only("\n")
    case Chunk(SizeStart) => HexOr("", 0)
    case Chunk(Size) => HexOr("\r; ", p.contentLength)
    case Chunk(SizeAlmostDone) => Only("\n")
    case Chunk(ChunkDataAlmostDone) => Only("\r")
    case Chunk(ChunkDataDone) => Only("\n")
    case _ => Anything
  }

  /** The errno of a byte that may not stand there: it names the part of the message. */
  function Complaint(s: State): Errno {
    match s
    case Lead(Dead) => HpeClosedConnection
    case Lead(StartReq) => HpeInvalidMethod
    case ReqMethod => HpeInvalidMethod
    case Lead(_) => HpeInvalidConstant
    case Request(ReqHttpStart) => HpeInvalidConstant
    case Response(ResFirstMajor) => HpeInvalidVersion
    case Response(ResMajor) => HpeInvalidVersion
    case Response(ResFirstMinor) => HpeInvalidVersion
    case Response(ResMinor) => HpeInvalidVersion
    case Request(ReqFirstMajor) => HpeInvalidVersion
    case Request(ReqMajor) => HpeInvalidVersion
    case Request(ReqFirstMinor) => HpeInvalidVersion
    case Request(ReqMinor) => HpeInvalidVersion
    case Response(ResFirstStatusCode) => HpeInvalidStatus
    case Response(ResStatusCode) => HpeInvalidStatus
    case Request(ReqLineAlmostDone) => HpeLfExpected
    case Url(_) => HpeInvalidUrl
    case Name(_) => HpeInvalidHeaderToken
    case Value(ValueStart) => HpeInvalidContentLength
    case Value(ValueText) => HpeInvalidContentLength
    case Discard(DiscardWs) => HpeInvalidContentLength
    case Chunk(SizeStart) => HpeInvalidChunkSize
    case Chunk(Size) => HpeInvalidChunkSize
    case _ => HpeStrict
  }

  /** A byte may stand at a place. A chunk size may grow while it stays below 2^64 - 16. */
  predicate MayStand(place: Place, ch: char) {
    match place
    case Only(bytes) => ch in bytes
    case DigitOr(bytes, n) => ch in bytes || (ch in DIGITS && n + ValueOf(ch) <= 999)
    case Tokens(bytes) => ch in bytes || Tchar(ch)
    case HexOr(bytes, n) => ch in bytes || ((ch in HEX_LOWER || ch in HEX_UPPER) && n <= 0xFFF_FFFF_FFFF_FFFE)
    case Anything => true
  }

  /** The value of a decimal digit, its place among the digits. */
  function ValueOf(ch: char): (v: nat)
    requires ch in DIGITS
    ensures v < 10 && DIGITS[v] == ch
  {
    DigitList(ch);
    ch as int - '0' as int
  }

  predicate HasResult(p: Parser) {
    p.state.ReqMethod? || p.state.Url? || p.hstate == Named(ContentLength)
  }

  predicate Judged(p: Parser, ch: char, a: Act) {
    if MayStand(PlaceOf(p), ch) then !a.next.Bad?
    else
      && a.next.Bad?
      && (a.next.why == Complaint(p.state) || (p.state == Chunk(Size) && a.next.why == HpeInvalidContentLength))
  }

  lemma Starters(ch: char)
    ensures StartsMethod(ch) <==> ch in "CDGHLMNOPRSTU"
    ensures StartsMethod(ch) ==> IsAlpha(ch)
    ensures ch in "CDGHLMNOPRSTU\r\n" <==> ch in "CDGHLMNOPRSTU" || ch == '\r' || ch == '\n'
  {
  }

  lemma LeadJudged(p: Parser, s: LeadState, ch: char)
    requires p.state == Lead(s)
    ensures Judged(p, ch, LeadByte(p, s, ch))
  {
    hide FirstMethod;
    if s.StartReq? {
      Starters(ch);
      hide StartsMethod, IsAlpha;
    }
  }

  lemma NumberJudged(p: Parser, ch: char)
    ensures IsNum(ch) <==> ch in DIGITS
    ensures ch in DIGITS ==> Digit(ch) == ValueOf(ch)
  {
    NumExact(ch);
  }

  lemma ResponseJudged(p: Parser, s: ResponseState, ch: char)
    requires p.state == Response(s)
    ensures Judged(p, ch, ResponseByte(p, s, ch))
  {
    NumberJudged(p, ch);
    hide IsNum, Digit;
  }

  lemma RequestJudged(p: Parser, s: RequestState, ch: char)
    requires p.state == Request(s)
    ensures Judged(p, ch, RequestByte(p, s, ch))
  {
    NumberJudged(p, ch);
    hide Digit;
  }

  lemma FieldJudged(p: Parser, ch: char)
    requires (p.state.Name? || p.state.Discard? || p.state.Value?) && p.hstate != Named(ContentLength)
    ensures Judged(p, ch, Dispatch(p, ch))
  {
    hide Token, Tchar, LeadByte, ResponseByte, MethodByte, UrlByte, RequestByte, EndByte, ChunkByte, BodyByte,
      NameToken, ValueToken, FirstName, FirstValue, Recognised, Lower;
    TokenExact(ch);
    TokenMarks();
  }

  lemma TokenMarks()
    ensures !Tchar(':') && !Tchar('\r') && !Tchar('\n')
  {
  }

  lemma BodyJudged(p: Parser, ch: char)
    requires p.state.End? || p.state.Body?
    ensures Judged(p, ch, Dispatch(p, ch))
  {
    hide NewMessage, LeadByte, ResponseByte, MethodByte, UrlByte, RequestByte, NameByte, DiscardByte, ValueByte,
      ChunkByte, WantsUpgrade, HasBody, NeedsEof;
  }

  lemma SizeJudged(p: Parser, ch: char)
    requires p.state == Chunk(SizeStart) || p.state == Chunk(Size)
    ensures Judged(p, ch, ChunkByte(p, p.state.chunk, ch))
  {
    UnhexExact(ch);
    SizeMarks(ch);
    hide Unhex, HEX_LOWER, HEX_UPPER;
  }

  lemma SizeMarks(ch: char)
    ensures ch == CR || ch == ';' || ch == ' ' ==> Unhex(ch) == -1
  {
  }

  lemma ChunkJudged(p: Parser, s: ChunkState, ch: char)
    requires p.state == Chunk(s) && !s.SizeStart? && !s.Size?
    ensures Judged(p, ch, ChunkByte(p, s, ch))
  {
    hide Unhex, SizeByte;
  }

  /** At every place the bytes that are listed for it may stand, and any other is refused with the errno of the place;
      but a method, a target and a content length are judged by what they are compared with. */
  lemma RefusedExact(p: Parser, ch: char)
    requires !HasResult(p)
    ensures Judged(p, ch, Dispatch(p, ch))
  {
    hide Judged, LeadByte, ResponseByte, MethodByte, UrlByte, RequestByte, NameByte, DiscardByte, ValueByte, EndByte,
      ChunkByte, BodyByte;
    match p.state
    case Lead(s) => LeadJudged(p, s, ch);
    case Response(s) => ResponseJudged(p, s, ch);
    case Request(s) => RequestJudged(p, s, ch);
    case End(_) => BodyJudged(p, ch);
    case Chunk(s) => if s.SizeStart? || s.Size? { SizeJudged(p, ch); } else { ChunkJudged(p, s, ch); }
    case Body(_) => BodyJudged(p, ch);
    case _ => FieldJudged(p, ch);
  }

  /** In a method, a target and a content length the errno still names the place. */
  lemma ResultErrno(p: Parser, ch: char)
    requires p.state.ReqMethod? || p.state.Url?
             || (p.hstate == Named(ContentLength) && (p.state.Discard? || p.state.Value?))
    ensures var a := Dispatch(p, ch);
            a.next.Bad? ==> a.next.why == Complaint(p.state)
                            || ((p.state == Discard(DiscardWsAlmostDone) || p.state == Value(ValueAlmostDone))
                              && a.next.why == HpeStrict)
  {
    hide MethodString, SwitchMethod, UrlChar.Next, LeadByte, ResponseByte, RequestByte, NameByte, EndByte, ChunkByte,
      BodyByte, Recognised, Lower, FirstValue, ValueToken;
  }

  /** A byte that may not stand where it does ends the run: nothing more is signalled, and it is left unread. */
  lemma RefusedRun(c: Core, d: string, skip: Skip)
    requires Inv(c.p) && d != "" && !HasResult(c.p) && !MayStand(PlaceOf(c.p), d[0])
    ensures var o := Feed(c, d, skip);
            && o.why.Failed? && o.rest == d && o.c.seen == c.seen
            && (o.c.p.errno == Complaint(c.p.state)
              || (c.p.state == Chunk(Size) && o.c.p.errno == HpeInvalidContentLength))
  {
    hide Dispatch, PlaceOf, MayStand, Complaint, HasResult, Inv;
    InvNumbers(c.p);
    RefusedExact(c.p, d[0]);
    DispatchTidy(c.p, d[0]);
    TidyError(c.p.state, Dispatch(c.p, d[0]));
    BadEffect(c, d[0], skip);
  }

  /** A letter that no method starts with: the message had begun to be a request, with the first method of the enum. */
  lemma BadMethod(c: Core, d: string, skip: Skip)
    requires c.p.state == Lead(StartReq) && d != "" && Letter(d[0]) && d[0] !in "CDGHLMNOPRSTU"
    ensures Feed(c, d, skip) ==
            Outcome(Core(Fresh(c.p).(httpMethod := Delete, index := 1, errno := HpeInvalidMethod), c.seen), d, Failed)
  {
    hide ResponseByte, MethodByte, UrlByte, RequestByte, NameByte, DiscardByte, ValueByte, EndByte, ChunkByte, BodyByte,
      StartsMethod, IsAlpha;
    Starters(d[0]);
    AlphaExact(d[0]);
  }

  // ---- what is skipped ----

  predicate Spaces(s: string) {
    forall i :: 0 <= i < |s| ==> s[i] == ' '
  }

  /** More than one space is as good as one: before a target, before the protocol, and before a status code. */
  lemma {:induction false} SpacesSkipped(c: Core, s: string, skip: Skip)
    requires Spaces(s)
    requires c.p.state == Url(UrlStart) || c.p.state == Request(ReqHttpStart)
             || c.p.state == Response(ResFirstStatusCode)
    ensures Reads(c, s, skip, c)
    decreases |s|
  {
    hide LeadByte, MethodByte, NameByte, DiscardByte, ValueByte, EndByte, ChunkByte, BodyByte, UrlChar.Next;
    if s != "" {
      assert Apply(c, s[0], skip) == c;
      SpacesSkipped(c, s[1..], skip);
    }
  }
}
