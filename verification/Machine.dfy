/** The switch of http_parser_execute, one byte at a time: where a byte takes the parser, whether it is
    field text, which callback it triggers, and whether it is consumed or looked at again. */
module Machine {
  import opened Chars
  import opened ParserTypes
  import UrlChar

  /** Whether a byte belongs to the text that a data callback reports. */
  datatype Reading = Bare | Field(hook: Hook)

  /** The callback of one pass: a notification, a data callback for the text under the mark, or the
      data callback of an empty header value. */
  datatype Sig = Quiet | Tell(hook: Hook) | Flush(hook: Hook) | Blank(hook: Hook)

  /** What follows a pass: the next byte, `goto reexecute`, `goto error`, or the return on upgrade. */
  datatype Next = Eat | Redo | Bad(why: Errno) | Exit

  datatype Act = Act(p: Parser, reading: Reading, sig: Sig, next: Next)

  function Go(p: Parser, s: State): Act {
    Act(p.(state := s), Bare, Quiet, Eat)
  }

  function Again(p: Parser, s: State): Act {
    Act(p.(state := s), Bare, Quiet, Redo)
  }

  function Error(p: Parser, e: Errno): Act {
    Act(p, Bare, Quiet, Bad(e))
  }

  function Read(p: Parser, s: State, h: Hook): Act {
    Act(p.(state := s), Field(h), Quiet, Eat)
  }

  function Signal(p: Parser, s: State, sig: Sig, next: Next): Act {
    Act(p.(state := s), Bare, sig, next)
  }

  /** STRICT_CHECK of one expected byte. */
  function Expect(p: Parser, ch: char, want: char, s: State): Act {
    if ch != want then Error(p, HpeStrict) else Go(p, s)
  }

  /** http_message_needs_eof */
  predicate NeedsEof(p: Parser) {
    && !p.kind.HttpRequest?
    && !(p.statusCode / 100 == 1 || p.statusCode == 204 || p.statusCode == 304 || p.flags.skipBody)
    && !p.flags.chunked
    && p.contentLength == ULLONG_MAX
  }

  /** http_should_keep_alive */
  predicate ShouldKeepAlive(p: Parser) {
    && (if p.httpMajor > 0 && p.httpMinor > 0 then !p.flags.close else p.flags.keepAlive)
    && !NeedsEof(p)
  }

  /** NEW_MESSAGE, in strict mode */
  function NewMessage(p: Parser): LeadState {
    if !ShouldKeepAlive(p) then Dead else if p.kind.HttpRequest? then StartReq else StartRes
  }

  function Complete(p: Parser, next: Next): Act {
    Signal(p, Lead(NewMessage(p)), Tell(OnMessageComplete), next)
  }

  // ---- the first byte of a message ----

  function Fresh(p: Parser): Parser {
    p.(flags := NO_FLAGS, contentLength := ULLONG_MAX)
  }

  predicate StartsMethod(ch: char) {
    ch == 'C' || ch == 'D' || ch == 'G' || ch == 'H' || 'L' <= ch <= 'P' || 'R' <= ch <= 'U'
  }

  function FirstMethod(ch: char): Method {
    match ch
    case 'C' => Connect
    case 'D' => Delete
    case 'G' => Get
    case 'H' => Head
    case 'L' => Lock
    case 'M' => MkCol
    case 'N' => Notify
    case 'O' => Options
    case 'P' => Post
    case 'R' => Report
    case 'S' => Subscribe
    case 'T' => Trace
    case _ => Unlock
  }

  function LeadByte(p: Parser, s: LeadState, ch: char): Act {
    var newline := ch == CR || ch == LF;
    match s
    case Dead => if newline then Go(p, Lead(Dead)) else Error(p, HpeClosedConnection)
    case StartReqOrRes =>
      if newline then Go(p, Lead(StartReqOrRes))
      else if ch == 'H' then Signal(Fresh(p), Lead(ResOrRespH), Tell(OnMessageBegin), Eat)
      else Again(Fresh(p).(kind := HttpRequest), Lead(StartReq))
    case ResOrRespH =>
      if ch == 'T' then Go(p.(kind := HttpResponse), Response(ResHT))
      else if ch != 'E' then Error(p, HpeInvalidConstant)
      else Go(p.(kind := HttpRequest, httpMethod := Head, index := 2), ReqMethod)
    case StartRes =>
      if ch == 'H' then Signal(Fresh(p), Response(ResH), Tell(OnMessageBegin), Eat)
      else if newline then Signal(Fresh(p), Lead(StartRes), Tell(OnMessageBegin), Eat)
      else Error(Fresh(p), HpeInvalidConstant)
    case StartReq =>
      if newline then Go(p, Lead(StartReq))
      else if !IsAlpha(ch) then Error(Fresh(p), HpeInvalidMethod)
      else if !StartsMethod(ch) then Error(Fresh(p).(httpMethod := Delete, index := 1), HpeInvalidMethod)
      else Signal(Fresh(p).(httpMethod := FirstMethod(ch), index := 1), ReqMethod, Tell(OnMessageBegin), Eat)
  }

  // ---- the status line ----

  function MoreMajor(p: Parser, ch: char, dot: State): Act {
    if ch == '.' then Go(p, dot)
    else if !IsNum(ch) then Error(p, HpeInvalidVersion)
    else
      var q := p.(httpMajor := p.httpMajor * 10 + Digit(ch));
      if q.httpMajor > 999 then Error(q, HpeInvalidVersion) else Go(q, q.state)
  }

  function MoreMinor(p: Parser, ch: char): Act {
    if !IsNum(ch) then Error(p, HpeInvalidVersion)
    else
      var q := p.(httpMinor := p.httpMinor * 10 + Digit(ch));
      if q.httpMinor > 999 then Error(q, HpeInvalidVersion) else Go(q, q.state)
  }

  function StatusCode(p: Parser, ch: char): Act {
    if ch == ' ' then Go(p, Response(ResStatusStart))
    else if ch == CR then Go(p, Response(ResLineAlmostDone))
    else if ch == LF then Go(p, Name(FieldStart))
    else if !IsNum(ch) then Error(p, HpeInvalidStatus)
    else
      var q := p.(statusCode := p.statusCode * 10 + Digit(ch));
      if q.statusCode > 999 then Error(q, HpeInvalidStatus) else Go(q, q.state)
  }

  function ResponseByte(p: Parser, s: ResponseState, ch: char): Act {
    match s
    case ResH => Expect(p, ch, 'T', Response(ResHT))
    case ResHT => Expect(p, ch, 'T', Response(ResHTT))
    case ResHTT => Expect(p, ch, 'P', Response(ResHTTP))
    case ResHTTP => Expect(p, ch, '/', Response(ResFirstMajor))
    case ResFirstMajor =>
      if !IsNum(ch) then Error(p, HpeInvalidVersion) else Go(p.(httpMajor := Digit(ch)), Response(ResMajor))
    case ResMajor => MoreMajor(p, ch, Response(ResFirstMinor))
    case ResFirstMinor =>
      if !IsNum(ch) then Error(p, HpeInvalidVersion) else Go(p.(httpMinor := Digit(ch)), Response(ResMinor))
    case ResMinor => if ch == ' ' then Go(p, Response(ResFirstStatusCode)) else MoreMinor(p, ch)
    case ResFirstStatusCode =>
      if ch == ' ' then Go(p, Response(ResFirstStatusCode))
      else if !IsNum(ch) then Error(p, HpeInvalidStatus)
      else Go(p.(statusCode := Digit(ch)), Response(ResStatusCode))
    case ResStatusCode => StatusCode(p, ch)
    case ResStatusStart =>
      if ch == CR then Go(p, Response(ResLineAlmostDone))
      else if ch == LF then Go(p, Name(FieldStart))
      else Read(p.(index := 0), Response(ResStatus), OnStatus)
    case ResStatus =>
      if ch == CR then Signal(p, Response(ResLineAlmostDone), Flush(OnStatus), Eat)
      else if ch == LF then Signal(p, Name(FieldStart), Flush(OnStatus), Eat)
      else Read(p, Response(ResStatus), OnStatus)
    case ResLineAlmostDone => Expect(p, ch, LF, Name(FieldStart))
  }

  // ---- the request line ----

  /** A C string's byte at `i`, with its terminating NUL. */
  function At(s: string, i: nat): char {
    if i < |s| then s[i] else '\0'
  }

  /** The methods that share a prefix: the method the matcher switches to when byte `i` is `ch`,
      the same method when there is none. */
  function SwitchMethod(m: Method, i: nat, ch: char): Method {
    match m
    case Connect => if i == 1 && ch == 'H' then Checkout else if i == 2 && ch == 'P' then Copy else m
    case MkCol =>
      if i == 1 && ch == 'O' then Move
      else if i == 1 && ch == 'E' then Merge
      else if i == 1 && ch == '-' then MSearch
      else if i == 2 && ch == 'A' then MkActivity
      else if i == 3 && ch == 'A' then MkCalendar
      else m
    case Subscribe => if i == 1 && ch == 'E' then Search else m
    case Post =>
      if i != 1 then m
      else if ch == 'R' then PropFind
      else if ch == 'U' then Put
      else if ch == 'A' then Patch
      else m
    case Put => if i == 2 && ch == 'R' then Purge else m
    case Unlock => if i == 2 && ch == 'S' then Unsubscribe else m
    case PropFind => if i == 4 && ch == 'P' then PropPatch else m
    case _ => m
  }

  function MethodByte(p: Parser, ch: char): Act {
    var matcher := MethodString(p.httpMethod);
    var next := p.(index := p.index + 1);
    if ch == '\0' then Error(p, HpeInvalidMethod)
    else if ch == ' ' && p.index == |matcher| then Go(next, Url(UrlStart))
    else if ch == At(matcher, p.index) then Go(next, ReqMethod)
    else
      var m := SwitchMethod(p.httpMethod, p.index, ch);
      if m == p.httpMethod then Error(p, HpeInvalidMethod) else Go(next.(httpMethod := m), ReqMethod)
  }

  function UrlText(p: Parser, s: UrlState, ch: char): Act {
    var t := UrlChar.Next(s, ch);
    if t.UrlDead? then Error(p.(state := Lead(Dead)), HpeInvalidUrl) else Read(p, Url(t), OnUrl)
  }

  /** The states in which a URL cannot end yet. */
  predicate UrlOpen(s: UrlState) {
    s.Schema? || s.SchemaSlash? || s.SchemaSlashSlash? || s.ServerStart?
  }

  function UrlByte(p: Parser, s: UrlState, ch: char): Act {
    if s.UrlStart? then
      if ch == ' ' then Go(p, Url(UrlStart))
      else UrlText(p, if p.httpMethod == Connect then ServerStart else UrlStart, ch)
    else if ch == ' ' || ch == CR || ch == LF then
      if UrlOpen(s) then Error(p, HpeInvalidUrl)
      else if ch == ' ' then Signal(p, Request(ReqHttpStart), Flush(OnUrl), Eat)
      else
        var simple := p.(httpMajor := 0, httpMinor := 9);
        Signal(simple, if ch == CR then Request(ReqLineAlmostDone) else Name(FieldStart), Flush(OnUrl), Eat)
    else UrlText(p, s, ch)
  }

  function RequestByte(p: Parser, s: RequestState, ch: char): Act {
    match s
    case ReqHttpStart =>
      if ch == 'H' then Go(p, Request(ReqH))
      else if ch == ' ' then Go(p, Request(ReqHttpStart))
      else Error(p, HpeInvalidConstant)
    case ReqH => Expect(p, ch, 'T', Request(ReqHT))
    case ReqHT => Expect(p, ch, 'T', Request(ReqHTT))
    case ReqHTT => Expect(p, ch, 'P', Request(ReqHTTP))
    case ReqHTTP => Expect(p, ch, '/', Request(ReqFirstMajor))
    case ReqFirstMajor =>
      if !('1' <= ch <= '9') then Error(p, HpeInvalidVersion)
      else Go(p.(httpMajor := Digit(ch)), Request(ReqMajor))
    case ReqMajor => MoreMajor(p, ch, Request(ReqFirstMinor))
    case ReqFirstMinor =>
      if !IsNum(ch) then Error(p, HpeInvalidVersion) else Go(p.(httpMinor := Digit(ch)), Request(ReqMinor))
    case ReqMinor =>
      if ch == CR then Go(p, Request(ReqLineAlmostDone))
      else if ch == LF then Go(p, Name(FieldStart))
      else MoreMinor(p, ch)
    case ReqLineAlmostDone => if ch != LF then Error(p, HpeLfExpected) else Go(p, Name(FieldStart))
  }

  // ---- header names ----

  const PROXY_CONNECTION := "proxy-connection"
  const CONNECTION := "connection"
  const CONTENT_LENGTH := "content-length"
  const TRANSFER_ENCODING := "transfer-encoding"
  const UPGRADE := "upgrade"
  const CHUNKED := "chunked"
  const KEEP_ALIVE := "keep-alive"
  const CLOSE := "close"

  /** The state of a word matcher after byte `c`, which `i` indexes. */
  function Match(word: string, i: nat, c: char, matching: HState, matched: HState, mismatch: HState): HState {
    if i > |word| || At(word, i) != c then mismatch
    else if i == |word| - 1 then matched
    else matching
  }

  /** The name matcher after the lower-cased token `c`, which `i` indexes. */
  function NameMatcher(n: Naming, i: nat, c: char): HState {
    match n
    case NameC => if c == 'o' then Naming(NameCO) else General
    case NameCO => if c == 'n' then Naming(NameCON) else General
    case NameCON =>
      if c == 'n' then Naming(NameConnection) else if c == 't' then Naming(NameContentLength) else General
    case NameConnection => Match(CONNECTION, i, c, Naming(n), Named(Connection), General)
    case NameProxyConnection => Match(PROXY_CONNECTION, i, c, Naming(n), Named(Connection), General)
    case NameContentLength => Match(CONTENT_LENGTH, i, c, Naming(n), Named(ContentLength), General)
    case NameTransferEncoding => Match(TRANSFER_ENCODING, i, c, Naming(n), Named(TransferEncoding), General)
    case NameUpgrade => Match(UPGRADE, i, c, Naming(n), Named(Upgrade), General)
  }

  /** One byte of a header name. */
  function NameToken(p: Parser, ch: char): Parser {
    match p.hstate
    case Naming(n) => p.(index := p.index + 1, hstate := NameMatcher(n, p.index + 1, Token(ch)))
    case Named(_) => if ch != ' ' then p.(hstate := General) else p
    case _ => p
  }

  function FirstName(c: char): HState {
    if c == 'c' then Naming(NameC)
    else if c == 'p' then Naming(NameProxyConnection)
    else if c == 't' then Naming(NameTransferEncoding)
    else if c == 'u' then Naming(NameUpgrade)
    else General
  }

  function NameByte(p: Parser, s: NameState, ch: char): Act {
    match s
    case FieldStart =>
      if ch == CR then Go(p, End(HeadersAlmostDone))
      else if ch == LF then Again(p, End(HeadersAlmostDone))
      else if Token(ch) == '\0' then Error(p, HpeInvalidHeaderToken)
      else Read(p.(index := 0, hstate := FirstName(Token(ch))), Name(FieldText), OnHeaderField)
    case FieldText =>
      if Token(ch) != '\0' then Read(NameToken(p, ch), Name(FieldText), OnHeaderField)
      else if ch == ':' then Signal(p, Discard(DiscardWs), Flush(OnHeaderField), Eat)
      else Error(p, HpeInvalidHeaderToken)
  }

  // ---- header values ----

  function FirstValue(h: HState, c: char): HState {
    match h
    case Named(TransferEncoding) => if c == 'c' then Valuing(MatchChunked) else General
    case Named(Connection) =>
      if c == 'k' then Valuing(MatchKeepAlive)
      else if c == 'c' then Valuing(MatchClose)
      else if c == 'u' then Valuing(MatchUpgrade)
      else Valuing(AnyToken)
    case Valuing(TokenStart) => h
    case _ => General
  }

  /** s_header_value_start: the first byte of a value, or of its continuation line. */
  function FirstByte(p: Parser, ch: char): Act {
    var q := p.(state := Value(ValueText), index := 0);
    if p.hstate == Named(ContentLength) then
      if !IsNum(ch) then Error(q, HpeInvalidContentLength)
      else Read(q.(contentLength := Digit(ch)), Value(ValueText), OnHeaderValue)
    else
      var flags := if p.hstate == Named(Upgrade) then p.flags.(upgrade := true) else p.flags;
      Read(q.(flags := flags, hstate := FirstValue(p.hstate, Lower(ch))), Value(ValueText), OnHeaderValue)
  }

  /** The flag that a recognised value sets. */
  function Recognised(f: Flags, h: HState): Flags {
    match h
    case Valued(KeepAlive) => f.(keepAlive := true)
    case Valued(Close) => f.(close := true)
    case Valued(ConnectionUpgrade) => f.(connectionUpgrade := true)
    case Valued(Chunked) => f.(chunked := true)
    case _ => f
  }

  function StartToken(ch: char): HState {
    var c := Lower(ch);
    if c == 'k' then Valuing(MatchKeepAlive)
    else if c == 'c' then Valuing(MatchClose)
    else if c == 'u' then Valuing(MatchUpgrade)
    else if Token(c) != '\0' then Valuing(AnyToken)
    else if c == ' ' || c == '\t' then Valuing(TokenStart)
    else General
  }

  /** One byte of a header value, in the Connection and Transfer-Encoding machines. */
  function ValueToken(p: Parser, ch: char): Parser {
    var i := p.index + 1;
    var c := Lower(ch);
    match p.hstate
    case Valuing(MatchChunked) =>
      p.(index := i, hstate := Match(CHUNKED, i, c, p.hstate, Valued(Chunked), General))
    case Valuing(TokenStart) => p.(hstate := StartToken(ch))
    case Valuing(MatchKeepAlive) =>
      p.(index := i, hstate := Match(KEEP_ALIVE, i, c, p.hstate, Valued(KeepAlive), Valuing(AnyToken)))
    case Valuing(MatchClose) =>
      p.(index := i, hstate := Match(CLOSE, i, c, p.hstate, Valued(Close), Valuing(AnyToken)))
    case Valuing(MatchUpgrade) =>
      p.(index := i, hstate := Match(UPGRADE, i, c, p.hstate, Valued(ConnectionUpgrade), Valuing(AnyToken)))
    case Valuing(AnyToken) => if ch == ',' then p.(index := 0, hstate := Valuing(TokenStart)) else p
    case Valued(Chunked) => if ch != ' ' then p.(hstate := General) else p
    case Valued(_) =>
      if ch == ',' then p.(flags := Recognised(p.flags, p.hstate), index := 0, hstate := Valuing(TokenStart))
      else if ch != ' ' then p.(hstate := Valuing(AnyToken))
      else p
    case _ => p.(hstate := General)
  }

  /** One byte of a Content-Length value. */
  function LengthByte(p: Parser, ch: char): Act {
    if ch == ' ' then Read(p, Value(ValueText), OnHeaderValue)
    else if !IsNum(ch) then Error(p, HpeInvalidContentLength)
    else if (ULLONG_MAX - 10) / 10 < p.contentLength then Error(p, HpeInvalidContentLength)
    else Read(p.(contentLength := p.contentLength * 10 + Digit(ch)), Value(ValueText), OnHeaderValue)
  }

  function DiscardByte(p: Parser, s: DiscardState, ch: char): Act {
    match s
    case DiscardWs =>
      if ch == ' ' || ch == '\t' then Go(p, Discard(DiscardWs))
      else if ch == CR then Go(p, Discard(DiscardWsAlmostDone))
      else if ch == LF then Go(p, Discard(DiscardLws))
      else FirstByte(p, ch)
    case DiscardWsAlmostDone => Expect(p, ch, LF, Discard(DiscardLws))
    case DiscardLws =>
      if ch == ' ' || ch == '\t' then Go(p, Discard(DiscardWs))
      else Signal(p.(flags := Recognised(p.flags, p.hstate)), Name(FieldStart), Blank(OnHeaderValue), Redo)
  }

  function ValueByte(p: Parser, s: ValueState, ch: char): Act {
    match s
    case ValueStart => FirstByte(p, ch)
    case ValueText =>
      if ch == CR then Signal(p, Value(ValueAlmostDone), Flush(OnHeaderValue), Eat)
      else if ch == LF then Signal(p, Value(ValueAlmostDone), Flush(OnHeaderValue), Redo)
      else if p.hstate == Named(ContentLength) then LengthByte(p, ch)
      else Read(ValueToken(p, ch), Value(ValueText), OnHeaderValue)
    case ValueAlmostDone => Expect(p, ch, LF, Value(ValueLws))
    case ValueLws =>
      if ch == ' ' || ch == '\t' then Again(p, Value(ValueStart))
      else Again(p.(flags := Recognised(p.flags, p.hstate)), Name(FieldStart))
  }

  // ---- the end of the header block ----

  predicate HasBody(p: Parser) {
    p.flags.chunked || (p.contentLength > 0 && p.contentLength != ULLONG_MAX)
  }

  predicate WantsUpgrade(p: Parser) {
    (p.flags.upgrade && p.flags.connectionUpgrade) || p.httpMethod == Connect
  }

  /** s_headers_done, on its LF. */
  function StartBody(p: Parser): Act {
    if p.upgrade && (p.httpMethod == Connect || p.flags.skipBody || !HasBody(p)) then Complete(p, Exit)
    else if p.flags.skipBody then Complete(p, Eat)
    else if p.flags.chunked then Go(p, Chunk(SizeStart))
    else if p.contentLength == 0 then Complete(p, Eat)
    else if p.contentLength != ULLONG_MAX then Go(p, Body(Identity))
    else if p.kind.HttpRequest? || !NeedsEof(p) then Complete(p, Eat)
    else Go(p, Body(IdentityEof))
  }

  function EndByte(p: Parser, s: EndState, ch: char): Act {
    if ch != LF then Error(p, HpeStrict)
    else match s
      case HeadersAlmostDone =>
        if p.flags.trailing then Signal(p, Body(MessageDone), Tell(OnChunkComplete), Redo)
        else Signal(p.(upgrade := WantsUpgrade(p)), End(HeadersDone), Tell(OnHeadersComplete), Redo)
      case HeadersDone => StartBody(p)
  }

  // ---- bodies ----

  function BodyByte(p: Parser, s: BodyState, ch: char): Act {
    match s
    case Identity =>
      if p.contentLength <= 1 then
        Act(p.(contentLength := 0, state := Body(MessageDone)), Field(OnBody), Flush(OnBody), Redo)
      else Read(p.(contentLength := p.contentLength - 1), Body(Identity), OnBody)
    case IdentityEof => Read(p, Body(IdentityEof), OnBody)
    case MessageDone => Complete(p, if p.upgrade then Exit else Eat)
  }

  function SizeByte(p: Parser, ch: char): Act {
    if ch == CR then Go(p, Chunk(SizeAlmostDone))
    else if Unhex(ch) == -1 then
      if ch == ';' || ch == ' ' then Go(p, Chunk(SizeParameters)) else Error(p, HpeInvalidChunkSize)
    else if (ULLONG_MAX - 16) / 16 < p.contentLength then Error(p, HpeInvalidContentLength)
    else Go(p.(contentLength := p.contentLength * 16 + Unhex(ch)), Chunk(Size))
  }

  function ChunkByte(p: Parser, s: ChunkState, ch: char): Act {
    match s
    case SizeStart =>
      if Unhex(ch) == -1 then Error(p, HpeInvalidChunkSize)
      else Go(p.(contentLength := Unhex(ch)), Chunk(Size))
    case Size => SizeByte(p, ch)
    case SizeParameters => Go(p, Chunk(if ch == CR then SizeAlmostDone else SizeParameters))
    case SizeAlmostDone =>
      if ch != LF then Error(p, HpeStrict)
      else if p.contentLength == 0 then
        Signal(p.(flags := p.flags.(trailing := true)), Name(FieldStart), Tell(OnChunkHeader), Eat)
      else Signal(p, Chunk(ChunkData), Tell(OnChunkHeader), Eat)
    case ChunkData =>
      if p.contentLength <= 1 then Read(p.(contentLength := 0), Chunk(ChunkDataAlmostDone), OnBody)
      else Read(p.(contentLength := p.contentLength - 1), Chunk(ChunkData), OnBody)
    case ChunkDataAlmostDone =>
      if ch != CR then Error(p, HpeStrict) else Signal(p, Chunk(ChunkDataDone), Flush(OnBody), Eat)
    case ChunkDataDone =>
      if ch != LF then Error(p, HpeStrict) else Signal(p, Chunk(SizeStart), Tell(OnChunkComplete), Eat)
  }

  // ---- one pass of the switch ----

  function Dispatch(p: Parser, ch: char): Act {
    match p.state
    case Lead(s) => LeadByte(p, s, ch)
    case Response(s) => ResponseByte(p, s, ch)
    case ReqMethod => MethodByte(p, ch)
    case Url(s) => UrlByte(p, s, ch)
    case Request(s) => RequestByte(p, s, ch)
    case Name(s) => NameByte(p, s, ch)
    case Discard(s) => DiscardByte(p, s, ch)
    case Value(s) => ValueByte(p, s, ch)
    case End(s) => EndByte(p, s, ch)
    case Chunk(s) => ChunkByte(p, s, ch)
    case Body(s) => BodyByte(p, s, ch)
  }
}
