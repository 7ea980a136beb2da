/** Whole messages, from the start line to message_complete: printing one and parsing it gives its parts back,
    whatever pieces it comes in. */
module WholeMessages {
  import opened Chars
  import opened ParserTypes
  import opened Machine
  import opened Stream
  import opened Invariant
  import opened Bulk
  import opened HttpParserObject
  import opened Bodies
  import opened Chunked
  import opened Values
  import opened HeaderLines
  import opened Trailers
  import opened StartLines
  import Messages

  /** What follows a header block. */
  datatype Content = NoContent | Sized(text: string) | Chunks(xs: seq<Piece>, last: Piece, trailers: seq<Line>)

  datatype Message = Message(start: StartLine, eol: string, lines: seq<Line>, blank: string, content: Content)

  predicate IsContent(b: Content) {
    b.Chunks? ==> IsLast(b.last) && AreLines(b.trailers) && forall i :: 0 <= i < |b.xs| ==> IsPiece(b.xs[i])
  }

  predicate IsMessage(x: Message) {
    IsStartLine(x.start) && IsEol(x.eol) && AreLines(x.lines) && IsEol(x.blank) && IsContent(x.content)
  }

  // ---- printing ----

  function HeadText(x: Message): string {
    StartText(x.start, x.eol) + (LinesText(x.lines) + x.blank)
  }

  function ContentText(b: Content): string {
    match b
    case NoContent => ""
    case Sized(text) => text
    case Chunks(xs, last, trailers) => EncodeWith(xs, last, trailers)
  }

  function MessageText(x: Message): string {
    HeadText(x) + ContentText(x.content)
  }

  // ---- the header block ----

  /** What the header lines set, all flags clear and no length known before them. */
  function HeadEffect(x: Message): Effect {
    LinesEffect(Flags(false, false, false, false, false, false, false), 0xFFFF_FFFF_FFFF_FFFF, x.lines)
  }

  /** The parser before the body. */
  function HeadRead(c: Core, x: Message, skip: Skip): Core
    requires IsMessage(x)
  {
    BlockRead(Core(LinesRead(Started(c.p, x.start), x.lines), LinesSeen(StartSeen(c.seen, x.start), x.lines)), skip)
  }

  lemma StartedFresh(p: Parser, x: StartLine)
    requires IsStartLine(x)
    ensures var q := Started(p, x); q.flags == NO_FLAGS && q.contentLength == ULLONG_MAX && q.state == Name(FieldStart)
  {
    hide MethodString, Number, Digits;
  }

  lemma EolNext(e: string, d: string)
    requires IsEol(e)
    ensures NextLine(e + d)
  {
    assert (e + d)[0] == e[0];
  }

  /** The head of a message is accepted exactly when its start line fits and no content length is refused; the last
      LF of the head is then looked at for the body. */
  lemma HeadExact(c: Core, x: Message, d: string, skip: Skip)
    requires IsMessage(x) && AwaitsStart(c.p, x.start)
    ensures var run := Feed(c, HeadText(x) + d, skip);
            if !StartFits(x.start) then run.why.Failed?
            else if HeadEffect(x).Refused? then RefusesLength(run)
            else run == Feed(HeadRead(c, x, skip), [LF] + d, skip)
  {
    hide Feed, Reads, Started, StartSeen, StartText, LinesText, LinesRead, LinesSeen, LinesEffect, IsStartLine,
      StartFits, IsEol, AreLines, RefusesLength, BlockRead, NextLine, IsContent, AwaitsStart;
    var text, tail := StartText(x.start, x.eol), LinesText(x.lines) + (x.blank + d);
    assert HeadText(x) + d == text + tail;
    StartReads(c, x.start, x.eol, skip);
    if !StartFits(x.start) {
      FeedAppend(c, text, tail, skip);
    } else {
      var c1 := Core(Started(c.p, x.start), StartSeen(c.seen, x.start));
      ReadsThen(c, text, c1, tail, skip);
      StartedFresh(c.p, x.start);
      EolNext(x.blank, d);
      HeaderBlock(c1, x.lines, x.blank + d, skip);
      if HeadEffect(x).Sets? {
        LinesKeep(c1.p.flags, c1.p.contentLength, x.lines);
        BlockEnds(Core(LinesRead(c1.p, x.lines), LinesSeen(c1.seen, x.lines)), x.blank, d, skip);
      }
    }
  }

  // ---- what a head announces ----

  /** The history at the end of the head. */
  function HeadSeen(t: History, x: Message): History
    requires HeadEffect(x).Sets?
  {
    Push(LinesSeen(StartSeen(t, x.start), x.lines), Note(OnHeadersComplete, HeadEffect(x).length))
  }

  /** on_headers_complete asks to skip the body. */
  predicate Skipped(c: Core, x: Message, skip: Skip)
    requires HeadEffect(x).Sets?
  {
    skip(HeadSeen(c.seen, x))
  }

  predicate IsConnect(x: Message) {
    x.start.RequestLine? && MethodString(x.start.httpMethod) == "CONNECT"
  }

  /** The message leaves HTTP: CONNECT, or both an Upgrade header and the upgrade option of a Connection header. */
  predicate LeavesHttp(x: Message)
    requires HeadEffect(x).Sets?
  {
    var f := HeadEffect(x).flags; IsConnect(x) || (f.upgrade && f.connectionUpgrade)
  }

  /** No Content-Length line was read, or none that counts. */
  const NO_LENGTH: nat := 0xFFFF_FFFF_FFFF_FFFF

  /** The status codes of responses that have no body. */
  predicate NoBodyCode(n: nat) {
    100 <= n <= 199 || n == 204 || n == 304
  }

  /** The body ends with the connection: a response that could have a body, and announces neither length nor chunks. */
  predicate EndsAtEof(x: Message, skipped: bool)
    requires IsMessage(x) && HeadEffect(x).Sets?
  {
    && x.start.StatusLine? && !NoBodyCode(Number(x.start.code)) && !skipped
    && !HeadEffect(x).flags.chunked && HeadEffect(x).length == NO_LENGTH
  }

  /** No body follows the head. */
  predicate NoneFollows(x: Message, skipped: bool)
    requires IsMessage(x) && HeadEffect(x).Sets?
  {
    var f, n := HeadEffect(x).flags, HeadEffect(x).length;
    || skipped || IsConnect(x)
    || (!f.chunked && n == 0)
    || (!f.chunked && n == NO_LENGTH && (LeavesHttp(x) || !EndsAtEof(x, skipped)))
  }

  /** The body is what the head announces (section 3.3.3 of RFC 7230). */
  predicate Announced(x: Message, skipped: bool)
    requires IsMessage(x) && HeadEffect(x).Sets?
  {
    if NoneFollows(x, skipped) then x.content.NoContent?
    else if HeadEffect(x).flags.chunked then x.content.Chunks?
    else x.content.Sized? && |x.content.text| == HeadEffect(x).length < NO_LENGTH
  }

  /** What the trailers set on top of the head. */
  function TrailersEffect(x: Message): Effect
    requires HeadEffect(x).Sets? && x.content.Chunks?
  {
    LinesEffect(HeadEffect(x).flags.(trailing := true), 0, x.content.trailers)
  }

  /** A trailer is a content length that is none. */
  predicate BadTrailers(x: Message)
    requires HeadEffect(x).Sets?
  {
    x.content.Chunks? && TrailersEffect(x).Refused?
  }

  // ---- the parser at the end of the head ----

  /** The parser after the start line. */
  lemma StartedFacts(p: Parser, x: StartLine)
    requires IsStartLine(x) && AwaitsStart(p, x) && Inv(p)
    ensures var q := Started(p, x);
            && q.flags == NO_FLAGS && q.contentLength == NO_LENGTH && q.state == Name(FieldStart) && q.errno == HpeOk
            && q.kind == (if x.RequestLine? then HttpRequest else HttpResponse)
            && (if x.RequestLine? then q.httpMethod == x.httpMethod else q.httpMethod == Delete)
            && q.httpMajor == Number(x.version.major) && q.httpMinor == Number(x.version.minor)
            && (x.StatusLine? ==> q.statusCode == Number(x.code))
  {
    hide MethodString, Number, Digits, NoBreak, Inv;
    Methodless(p);
  }

  /** The parser after the header lines. */
  lemma LinesFacts(p: Parser, xs: seq<Line>)
    requires AreLines(xs) && p.state == Name(FieldStart) && p.flags == NO_FLAGS && p.contentLength == NO_LENGTH
    requires LinesEffect(NO_FLAGS, NO_LENGTH, xs).Sets?
    ensures var q, e := LinesRead(p, xs), LinesEffect(NO_FLAGS, NO_LENGTH, xs);
            && q == p.(flags := e.flags, contentLength := e.length, state := Name(FieldStart),
                       index := q.index, hstate := q.hstate)
            && !e.flags.trailing && !e.flags.skipBody
  {
    hide LinesRead, LinesEffect, AreLines, Feed;
    HeaderBlock(Core(p, Nothing), xs, "\r\n", NEVER);
    LinesKeep(p.flags, p.contentLength, xs);
  }

  /** What is known of the parser before the body. */
  lemma HeadFacts(c: Core, x: Message, skip: Skip)
    requires IsMessage(x) && AwaitsStart(c.p, x.start) && Inv(c.p) && HeadEffect(x).Sets?
    ensures var c1 := HeadRead(c, x, skip); var p := c1.p;
            && c1.seen == HeadSeen(c.seen, x) && p.state == End(HeadersDone) && p.errno == HpeOk
            && p.flags == HeadEffect(x).flags.(skipBody := Skipped(c, x, skip))
            && !HeadEffect(x).flags.trailing && !HeadEffect(x).flags.skipBody
            && p.contentLength == HeadEffect(x).length && (p.upgrade <==> LeavesHttp(x))
            && (p.httpMethod == Connect <==> IsConnect(x))
            && p.kind == (if x.start.RequestLine? then HttpRequest else HttpResponse)
            && p.httpMajor == Number(x.start.version.major) && p.httpMinor == Number(x.start.version.minor)
            && (x.start.StatusLine? ==> p.statusCode == Number(x.start.code))
  {
    hide LinesRead, LinesSeen, StartSeen, Push, LinesEffect, MethodString, Number, IsStartLine, AreLines, IsContent,
      Inv, Started, AwaitsStart;
    StartedFacts(c.p, x.start);
    LinesFacts(Started(c.p, x.start), x.lines);
    ConnectName();
    if x.start.RequestLine? { OnlyConnect(x.start.httpMethod); }
  }

  lemma Methodless(p: Parser)
    requires Inv(p)
    ensures p.errno == HpeOk && (!p.kind.HttpRequest? || p.state == Lead(StartReqOrRes) ==> p.httpMethod == Delete)
  {
    hide NumbersFit, LengthFits, FlagsFit, HeaderFits;
  }

  lemma ConnectName()
    ensures MethodString(Connect) == "CONNECT"
  {
  }

  lemma OnlyConnect(m: Method)
    ensures MethodString(m) == "CONNECT" ==> m == Connect
  {
  }

  // ---- the body ----

  /** The branches of the source at the last LF of the head. */
  predicate Bodiless(p: Parser) {
    || p.flags.skipBody
    || (p.upgrade && (p.httpMethod == Connect || !HasBody(p)))
    || (!p.flags.chunked && p.contentLength == 0)
    || (!p.flags.chunked && p.contentLength == ULLONG_MAX && (p.kind.HttpRequest? || !NeedsEof(p)))
  }

  lemma BodilessExact(c: Core, x: Message, skip: Skip)
    requires IsMessage(x) && AwaitsStart(c.p, x.start) && Inv(c.p) && HeadEffect(x).Sets?
    ensures Bodiless(HeadRead(c, x, skip).p) <==> NoneFollows(x, Skipped(c, x, skip))
  {
    hide HeadRead, Inv, LinesEffect, IsMessage, Number, MethodString, HeadEffect, AwaitsStart;
    HeadFacts(c, x, skip);
  }

  /** The parser when its body has been read. */
  function ContentRead(p: Parser, b: Content): Parser
    requires IsContent(b)
  {
    match b
    case NoContent => p
    case Sized(_) => p.(contentLength := 0)
    case Chunks(_, _, trailers) => LinesRead(Trailing(p), trailers)
  }

  /** What the callbacks get of the body. */
  function ContentSeen(t: History, p: Parser, b: Content): History
    requires IsContent(b)
  {
    match b
    case NoContent => t
    case Sized(text) => Push(t, Text(OnBody, text))
    case Chunks(xs, _, trailers) =>
      Push(LinesSeen(Push(SeenAll(t, xs), Note(OnChunkHeader, 0)), trailers),
           Note(OnChunkComplete, ContentRead(p, b).contentLength))
  }

  /** The last LF of the head. */
  lemma BodyStarts(p: Parser)
    requires p.state == End(HeadersDone)
    ensures var a := Dispatch(p, LF);
            && (Bodiless(p) ==> a == Complete(p, if p.upgrade then Exit else Eat))
            && (!Bodiless(p) && p.flags.chunked ==> a == Act(p.(state := Chunk(SizeStart)), Bare, Quiet, Eat))
            && (!Bodiless(p) && !p.flags.chunked && p.contentLength != ULLONG_MAX ==>
                  a == Act(p.(state := Body(Identity)), Bare, Quiet, Eat))
  {
    hide NewMessage;
  }

  lemma NoContentRead(c: Core, rest: string, skip: Skip)
    requires c.p.state == End(HeadersDone) && Bodiless(c.p)
    ensures Feed(c, [LF] + rest, skip) == NextMessage(c.p, c.seen, rest, skip)
  {
    hide Dispatch, Push, NewMessage, Bodiless;
    BodyStarts(c.p);
    assert ([LF] + rest)[0] == LF && ([LF] + rest)[1..] == rest;
  }

  lemma SizedRead(c: Core, text: string, rest: string, skip: Skip)
    requires c.p.state == End(HeadersDone) && !Bodiless(c.p) && !c.p.flags.chunked && |text| == c.p.contentLength
    requires c.p.contentLength < ULLONG_MAX && Inv(c.p.(state := Body(Identity)))
    ensures Feed(c, [LF] + (text + rest), skip) ==
            NextMessage(c.p.(contentLength := 0), Push(c.seen, Text(OnBody, text)), rest, skip)
  {
    hide Dispatch, Push, NewMessage, Bodiless, Feed, Inv, NextMessage;
    BodyStarts(c.p);
    var c1 := Core(c.p.(state := Body(Identity)), c.seen);
    StepReads(c, LF, c1.p, skip);
    ReadsThen(c, [LF], c1, text + rest, skip);
    IdentityBody(c1, text + rest, skip);
    assert (text + rest)[..|text|] == text && (text + rest)[|text|..] == rest;
    NextMessageState(c.p.(contentLength := 0), c1.p.(contentLength := 0), Push(c.seen, Text(OnBody, text)), rest, skip);
  }

  lemma ChunksRead(c: Core, b: Content, rest: string, skip: Skip)
    requires c.p.state == End(HeadersDone) && !Bodiless(c.p) && c.p.flags.chunked && b.Chunks? && IsContent(b)
    ensures var run := Feed(c, [LF] + (ContentText(b) + rest), skip);
            if LinesEffect(Trailing(c.p).flags, 0, b.trailers).Refused? then RefusesLength(run)
            else run == NextMessage(ContentRead(c.p, b), ContentSeen(c.seen, c.p, b), rest, skip)
  {
    hide Dispatch, Push, NewMessage, Bodiless, Feed, NextMessage, EncodeWith, SeenAll, LinesSeen, LinesRead,
      LinesEffect, RefusesLength, IsPiece, IsLast, AreLines;
    BodyStarts(c.p);
    var c1 := Core(c.p.(state := Chunk(SizeStart)), c.seen);
    StepReads(c, LF, c1.p, skip);
    ReadsThen(c, [LF], c1, ContentText(b) + rest, skip);
    DecodesWith(c1, b.xs, b.last, b.trailers, rest, skip);
    assert Trailing(c1.p) == Trailing(c.p);
  }

  /** Before a body of announced length, the invariant says that the length is one. */
  lemma SizedInvariant(c: Core, x: Message, skip: Skip)
    requires IsMessage(x) && AwaitsStart(c.p, x.start) && Inv(c.p) && StartFits(x.start) && HeadEffect(x).Sets?
    requires var p := HeadRead(c, x, skip).p; !Bodiless(p) && !p.flags.chunked && p.contentLength != ULLONG_MAX
    ensures var q := HeadRead(c, x, skip).p.(state := Body(Identity)); Inv(q) && q.contentLength < ULLONG_MAX
  {
    hide Feed, Inv, Dispatch, HeadText, IsMessage, StartFits, AwaitsStart, HeadEffect, HeadRead, Bodiless, Push;
    var c1 := HeadRead(c, x, skip);
    HeadState(c, x, skip);
    HeadExact(c, x, "", skip);
    assert HeadText(x) + "" == HeadText(x) && [LF] + "" == [LF];
    BodyStarts(c1.p);
    var c2 := Core(c1.p.(state := Body(Identity)), c1.seen);
    StepReads(c1, LF, c2.p, skip);
    FeedKeeps(c, HeadText(x), skip);
    CountedLength(c2.p);
  }

  lemma CountedLength(p: Parser)
    requires Inv(p) && p.state == Body(Identity)
    ensures p.contentLength < ULLONG_MAX
  {
    hide NumbersFit, FlagsFit, HeaderFits, KindFits;
  }

  lemma HeadState(c: Core, x: Message, skip: Skip)
    requires IsMessage(x)
    ensures HeadRead(c, x, skip).p.state == End(HeadersDone)
  {
    hide LinesRead, LinesSeen, Started, StartSeen, IsMessage, Push, WantsUpgrade;
  }

  /** What the parser asks of a message. */
  predicate Acceptable(c: Core, x: Message, skip: Skip)
    requires IsMessage(x)
  {
    && StartFits(x.start) && HeadEffect(x).Sets?
    && Announced(x, Skipped(c, x, skip)) && !BadTrailers(x)
  }

  /** Where a message that has been read leaves the run. */
  ghost function MessageRun(c: Core, x: Message, rest: string, skip: Skip): Outcome
    requires IsMessage(x)
  {
    var c1 := HeadRead(c, x, skip);
    NextMessage(ContentRead(c1.p, x.content), ContentSeen(c1.seen, c1.p, x.content), rest, skip)
  }

  /** Printing a message and parsing it gives its parts back: the start line, the header lines, the body and one
      message_complete on the last byte; what follows belongs to the next message. */
  lemma MessageRoundTrip(c: Core, x: Message, rest: string, skip: Skip)
    requires IsMessage(x) && AwaitsStart(c.p, x.start) && Inv(c.p) && StartFits(x.start) && HeadEffect(x).Sets?
    requires Announced(x, Skipped(c, x, skip))
    ensures var run := Feed(c, MessageText(x) + rest, skip);
            if BadTrailers(x) then RefusesLength(run) else run == MessageRun(c, x, rest, skip)
  {
    hide Feed, Inv, HeadText, AwaitsStart, HeadEffect, HeadRead, Bodiless, NextMessage, RefusesLength, StartFits,
      IsContent, LinesEffect, LinesRead, LinesSeen, EncodeWith, Push, NoneFollows, Skipped, HeadSeen;
    var c1, b := HeadRead(c, x, skip), x.content;
    HeadFacts(c, x, skip);
    BodilessExact(c, x, skip);
    HeadExact(c, x, ContentText(b) + rest, skip);
    assert MessageText(x) + rest == HeadText(x) + (ContentText(b) + rest);
    if Bodiless(c1.p) {
      assert ContentText(b) + rest == rest;
      NoContentRead(c1, rest, skip);
    } else if c1.p.flags.chunked {
      NotSkipped(c1.p);
      ChunksRead(c1, b, rest, skip);
    } else {
      SizedInvariant(c, x, skip);
      SizedRead(c1, b.text, rest, skip);
    }
  }

  lemma NotSkipped(p: Parser)
    ensures !Bodiless(p) ==> !p.flags.skipBody
  {
  }

  /** A head that announces no length, where only the end of the connection ends the body: everything after it is
      body. */
  lemma BodyUntilEof(c: Core, x: Message, rest: string, skip: Skip)
    requires IsMessage(x) && AwaitsStart(c.p, x.start) && Inv(c.p) && StartFits(x.start) && HeadEffect(x).Sets?
    requires EndsAtEof(x, Skipped(c, x, skip)) && !LeavesHttp(x)
    ensures var c1 := HeadRead(c, x, skip);
            Reads(c, HeadText(x) + rest, skip,
                  Core(c1.p.(state := Body(IdentityEof)), Appended(c1.seen, OnBody, rest)))
  {
    hide Feed, Dispatch, HeadText, AwaitsStart, HeadEffect, HeadRead, Bodiless, StartFits, Push, IsMessage, Inv,
      Number, Skipped;
    var c1 := HeadRead(c, x, skip);
    HeadFacts(c, x, skip);
    BodilessExact(c, x, skip);
    HeadExact(c, x, rest, skip);
    EofStarts(c1.p);
    var c2 := Core(c1.p.(state := Body(IdentityEof)), c1.seen);
    StepReads(c1, LF, c2.p, skip);
    ReadsThen(c1, [LF], c2, rest, skip);
    forall i | 0 <= i < |rest| ensures Dispatch(c2.p, rest[i]) == Act(c2.p, Field(OnBody), Quiet, Eat) {
      EofStep(c2, rest[i], skip);
    }
    SteadyRun(c2, rest, |rest|, OnBody, skip);
    assert rest[..|rest|] == rest && rest[|rest|..] == "";
    FeedNothing(Core(c2.p, Appended(c2.seen, OnBody, rest)), skip);
  }

  lemma EofStarts(p: Parser)
    requires p.state == End(HeadersDone) && !Bodiless(p) && !p.flags.chunked && p.contentLength == ULLONG_MAX
    ensures Dispatch(p, LF) == Act(p.(state := Body(IdentityEof)), Bare, Quiet, Eat)
  {
    hide NewMessage;
  }

  // ---- what is left and what was signalled ----

  /** What the callbacks get of a whole message. */
  function MessageSeen(c: Core, x: Message, skip: Skip): History
    requires IsMessage(x)
  {
    var c1 := HeadRead(c, x, skip);
    Push(ContentSeen(c1.seen, c1.p, x.content), Note(OnMessageComplete, ContentRead(c1.p, x.content).contentLength))
  }

  lemma MessageDrains(c: Core, x: Message, skip: Skip)
    requires IsMessage(x) && AwaitsStart(c.p, x.start) && Inv(c.p) && Acceptable(c, x, skip) && !LeavesHttp(x)
    ensures Reads(c, MessageText(x), skip,
                  Core(MessageEnded(ContentRead(HeadRead(c, x, skip).p, x.content)), MessageSeen(c, x, skip)))
  {
    hide Feed, HeadRead, IsMessage, StartFits, HeadEffect, Announced, MessageText, AwaitsStart, ContentSeen, NewMessage,
      Push, Inv, ContentRead, BadTrailers, LeavesHttp, Skipped;
    assert MessageText(x) + "" == MessageText(x);
    MessageRoundTrip(c, x, "", skip);
    HeadFacts(c, x, skip);
    MessageFacts(c, x, skip);
    assert IsContent(x.content) by { MessageContent(x); }
    Messages.Completed(ContentRead(HeadRead(c, x, skip).p, x.content),
                       ContentSeen(HeadRead(c, x, skip).seen, HeadRead(c, x, skip).p, x.content), skip);
  }

  lemma MessageContent(x: Message)
    requires IsMessage(x)
    ensures IsContent(x.content)
  {
    hide IsContent, IsStartLine, AreLines;
  }

  /** The flags when the message is complete: the trailers count, too. */
  function FinalFlags(x: Message): Flags
    requires HeadEffect(x).Sets? && !BadTrailers(x)
  {
    if x.content.Chunks? then TrailersEffect(x).flags else HeadEffect(x).flags
  }

  /** What is known of the parser when the body has been read. */
  lemma MessageFacts(c: Core, x: Message, skip: Skip)
    requires IsMessage(x) && AwaitsStart(c.p, x.start) && Inv(c.p) && Acceptable(c, x, skip)
    ensures var p, q := HeadRead(c, x, skip).p, ContentRead(HeadRead(c, x, skip).p, x.content);
            && q.kind == p.kind && q.httpMajor == p.httpMajor && q.httpMinor == p.httpMinor
              && q.statusCode == p.statusCode
            && q.upgrade == p.upgrade && q.httpMethod == p.httpMethod && q.errno == p.errno
            && q.flags == FinalFlags(x).(skipBody := Skipped(c, x, skip))
            && (x.content.NoContent? ==> q.contentLength == HeadEffect(x).length)
            && (x.content.Sized? ==> q.contentLength == 0)
            && (x.content.Chunks? ==> HeadEffect(x).flags.chunked && q.flags.chunked)
  {
    hide Feed, HeadRead, IsStartLine, StartFits, HeadEffect, AwaitsStart, Push, Inv, LinesRead, LinesEffect, AreLines,
      IsPiece, IsLast, Skipped, HeadSeen, LeavesHttp;
    HeadFacts(c, x, skip);
    var p := HeadRead(c, x, skip).p;
    if x.content.Chunks? {
      var t := Trailing(p);
      assert !Skipped(c, x, skip);
      HeaderBlock(Core(t, Nothing), x.content.trailers, "\r\n", skip);
      LinesKeep(t.flags, 0, x.content.trailers);
    }
  }
}
