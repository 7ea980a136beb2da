/** The end of a message: whether the connection goes on with another one, ends, or leaves HTTP. */
module KeepAlive {
  import opened Chars
  import opened ParserTypes
  import opened Machine
  import opened Stream
  import opened Invariant
  import opened Bodies
  import opened StartLines
  import opened WholeMessages
  import Methods
  import HeaderLines
  import Grammar

  /** Both numbers of the version are positive: HTTP/1.1, and not HTTP/1.0 or HTTP/2.0. */
  predicate KeepsByDefault(x: Message)
    requires IsMessage(x)
  {
    Number(x.start.version.major) > 0 && Number(x.start.version.minor) > 0
  }

  /** The connection goes on after the message: by default unless it says close, else only if it says keep-alive;
      and not if the body would end with the connection. */
  predicate Persists(x: Message, skipped: bool)
    requires IsMessage(x) && HeadEffect(x).Sets? && !BadTrailers(x)
  {
    && (if KeepsByDefault(x) then !FinalFlags(x).close else FinalFlags(x).keepAlive)
    && !(EndsAtEof(x, skipped) && x.content.NoContent?)
  }

  /** After a message the parser awaits the next start line exactly if the connection goes on; else it is dead. */
  lemma MessageEnds(c: Core, x: Message, skip: Skip)
    requires IsMessage(x) && AwaitsStart(c.p, x.start) && Inv(c.p) && Acceptable(c, x, skip)
    ensures MessageEnded(ContentRead(HeadRead(c, x, skip).p, x.content)).state ==
            if !Persists(x, Skipped(c, x, skip)) then Lead(Dead)
            else if x.start.RequestLine? then Lead(StartReq)
            else Lead(StartRes)
  {
    hide HeadRead, ContentRead, Inv, Number, HeadEffect, AwaitsStart, StartFits, Skipped, IsMessage, IsConnect,
      Announced, BadTrailers;
    HeadFacts(c, x, skip);
    MessageFacts(c, x, skip);
    assert IsStartLine(x.start) by { MessageStart(x); }
  }

  lemma MessageStart(x: Message)
    requires IsMessage(x)
    ensures IsStartLine(x.start) && IsContent(x.content)
  {
    hide IsStartLine, IsContent, HeaderLines.AreLines;
  }

  // ---- between messages ----

  predicate Breaks(s: string) {
    forall i :: 0 <= i < |s| ==> s[i] == CR || s[i] == LF
  }

  /** Line breaks before a request, or after the last message, are skipped. */
  lemma {:induction false} BreaksSkipped(c: Core, s: string, skip: Skip)
    requires Breaks(s) && (c.p.state == Lead(StartReq) || c.p.state == Lead(StartReqOrRes) || c.p.state == Lead(Dead))
    ensures Reads(c, s, skip, c)
    decreases |s|
  {
    hide ResponseByte, MethodByte, UrlByte, RequestByte, NameByte, DiscardByte, ValueByte, EndByte, ChunkByte, BodyByte;
    if s != "" {
      assert Apply(c, s[0], skip) == c;
      BreaksSkipped(c, s[1..], skip);
    }
  }

  /** One message_begin for each of them. */
  function Begun(t: History, n: nat): History
    decreases n
  {
    if n == 0 then t else Begun(Push(t, Note(OnMessageBegin, NO_LENGTH)), n - 1)
  }

  /** Line breaks before a response are skipped, too, but each of them signals that a message begins. */
  lemma {:induction false} BreaksBeforeResponse(c: Core, s: string, skip: Skip)
    requires Breaks(s) && c.p.state == Lead(StartRes)
    ensures Reads(c, s, skip, Core(if s == "" then c.p else Fresh(c.p), Begun(c.seen, |s|)))
    decreases |s|
  {
    hide ResponseByte, MethodByte, UrlByte, RequestByte, NameByte, DiscardByte, ValueByte, EndByte, ChunkByte, BodyByte,
      Push;
    if s != "" {
      var c1 := Core(Fresh(c.p), Push(c.seen, Note(OnMessageBegin, NO_LENGTH)));
      assert Apply(c, s[0], skip) == c1;
      BreaksBeforeResponse(c1, s[1..], skip);
    }
  }

  /** After the last message any other byte is refused. */
  lemma DeadRefuses(c: Core, d: string, skip: Skip)
    requires c.p.state == Lead(Dead) && d != "" && d[0] != CR && d[0] != LF
    ensures Feed(c, d, skip) == Outcome(Core(c.p.(errno := HpeClosedConnection), c.seen), d, Failed)
  {
    hide ResponseByte, MethodByte, UrlByte, RequestByte, NameByte, DiscardByte, ValueByte, EndByte, ChunkByte, BodyByte;
  }

  // ---- two messages on one connection ----

  /** The parser after a message. */
  function AfterMessage(c: Core, x: Message, skip: Skip): Core
    requires IsMessage(x)
  {
    Core(MessageEnded(ContentRead(HeadRead(c, x, skip).p, x.content)), MessageSeen(c, x, skip))
  }

  lemma AfterFacts(c: Core, x: Message, skip: Skip)
    requires IsMessage(x) && AwaitsStart(c.p, x.start) && Inv(c.p) && Acceptable(c, x, skip) && !LeavesHttp(x)
    ensures var c1 := AfterMessage(c, x, skip);
            && Reads(c, MessageText(x), skip, c1) && Inv(c1.p)
            && c1.p.kind == (if x.start.RequestLine? then HttpRequest else HttpResponse)
            && c1.p.state == if !Persists(x, Skipped(c, x, skip)) then Lead(Dead)
                             else if x.start.RequestLine? then Lead(StartReq)
                             else Lead(StartRes)
  {
    hide HeadRead, ContentRead, Inv, Number, HeadEffect, AwaitsStart, StartFits, Skipped, IsMessage, FinalFlags,
      MessageText, Feed, Persists, Acceptable, LeavesHttp, NewMessage, MessageSeen;
    assert HeadEffect(x).Sets? by { assert Acceptable(c, x, skip); AcceptableSets(c, x, skip); }
    MessageDrains(c, x, skip);
    FeedKeeps(c, MessageText(x), skip);
    MessageEnds(c, x, skip);
    HeadFacts(c, x, skip);
    MessageFacts(c, x, skip);
  }

  lemma AcceptableSets(c: Core, x: Message, skip: Skip)
    requires IsMessage(x) && Acceptable(c, x, skip)
    ensures HeadEffect(x).Sets? && StartFits(x.start) && !BadTrailers(x)
  {
    hide IsMessage, HeadEffect, StartFits, BadTrailers, Announced, Skipped;
  }

  /** The first byte of a message is no line break. */
  lemma MessageFirst(x: Message)
    requires IsMessage(x)
    ensures MessageText(x) != "" && MessageText(x)[0] != CR && MessageText(x)[0] != LF
  {
    hide MethodString, FirstMethod, Methods.Path, StartsMethod, IsAlpha, IsStartLine, VersionText,
      HeaderLines.LinesText, HeaderLines.AreLines, IsContent, ContentText;
    if x.start.RequestLine? {
      Methods.FirstByteOf(x.start.httpMethod);
      assert StartText(x.start, x.eol)[0] == MethodString(x.start.httpMethod)[0];
    } else {
      assert StartText(x.start, x.eol)[0] == 'H';
    }
  }

  /** Two messages of one kind, one after the other: they are read as two messages exactly if the connection goes on
      after the first; else the first byte of the second is refused. */
  lemma TwoMessages(c: Core, x: Message, y: Message, rest: string, skip: Skip)
    requires IsMessage(x) && AwaitsStart(c.p, x.start) && Inv(c.p) && Acceptable(c, x, skip) && !LeavesHttp(x)
    requires IsMessage(y) && (x.start.RequestLine? <==> y.start.RequestLine?)
    requires Acceptable(AfterMessage(c, x, skip), y, skip)
    ensures var c1 := AfterMessage(c, x, skip);
            var run := Feed(c, MessageText(x) + (MessageText(y) + rest), skip);
            if Persists(x, Skipped(c, x, skip)) then run == MessageRun(c1, y, rest, skip)
            else run == Outcome(Core(c1.p.(errno := HpeClosedConnection), c1.seen), MessageText(y) + rest, Failed)
  {
    hide Feed, Reads, IsMessage, Acceptable, Inv, MessageText, AfterMessage, MessageRun, Persists, LeavesHttp;
    var c1 := AfterMessage(c, x, skip);
    AcceptableSets(c, x, skip);
    AfterFacts(c, x, skip);
    ReadsThen(c, MessageText(x), c1, MessageText(y) + rest, skip);
    MessageFirst(y);
    if Persists(x, Skipped(c, x, skip)) {
      AcceptableRoundTrip(c1, y, rest, skip);
    } else {
      DeadRefuses(c1, MessageText(y) + rest, skip);
    }
  }

  lemma AcceptableRoundTrip(c: Core, x: Message, rest: string, skip: Skip)
    requires IsMessage(x) && AwaitsStart(c.p, x.start) && Inv(c.p) && Acceptable(c, x, skip)
    ensures Feed(c, MessageText(x) + rest, skip) == MessageRun(c, x, rest, skip)
  {
    hide Feed, IsMessage, Inv, MessageText, MessageRun, Announced, BadTrailers, StartFits, HeadEffect, Skipped;
    MessageRoundTrip(c, x, rest, skip);
  }

  /** After a message that does not keep the connection nothing is signalled any more, whatever follows. */
  lemma LastMessage(c: Core, x: Message, d: string, skip: Skip)
    requires IsMessage(x) && AwaitsStart(c.p, x.start) && Inv(c.p) && Acceptable(c, x, skip) && !LeavesHttp(x)
    requires !Persists(x, Skipped(c, x, skip))
    ensures Feed(c, MessageText(x) + d, skip).c.seen == MessageSeen(c, x, skip)
  {
    hide Feed, Reads, IsMessage, Acceptable, Inv, MessageText, MessageSeen, Persists, LeavesHttp;
    var c1 := AfterMessage(c, x, skip);
    AcceptableSets(c, x, skip);
    AfterFacts(c, x, skip);
    ReadsThen(c, MessageText(x), c1, d, skip);
    Grammar.DeadIsSilent(c1, d, skip);
  }

  // ---- leaving HTTP ----

  lemma {:induction false} UpgradeReads(c: Core, d: string, skip: Skip)
    ensures var o := Feed(c, d, skip); o.why.Upgraded? ==> |o.rest| < |d|
    decreases |d|, Rank(c.p.state)
  {
    hide Dispatch, Apply;
    if d != "" {
      ApplyState(c, d[0], skip);
      match Dispatch(c.p, d[0]).next
      case Eat => UpgradeReads(Apply(c, d[0], skip), d[1..], skip);
      case Redo =>
        RankFalls(c.p, d[0]);
        UpgradeReads(Apply(c, d[0], skip), d, skip);
      case _ =>
    }
  }

  /** The run leaves HTTP right after the message, and leaves the rest unread, exactly for CONNECT and for a message
      that asks for an upgrade in both of its headers. */
  lemma UpgradeEnds(c: Core, x: Message, rest: string, skip: Skip)
    requires IsMessage(x) && AwaitsStart(c.p, x.start) && Inv(c.p) && Acceptable(c, x, skip)
    ensures var run := Feed(c, MessageText(x) + rest, skip);
            run.why.Upgraded? && run.rest == rest <==> LeavesHttp(x)
  {
    hide Feed, IsMessage, Inv, MessageText, HeadRead, ContentRead, ContentSeen, Acceptable, HeadEffect, LeavesHttp,
      Skipped, NewMessage, Push, AwaitsStart, FinalFlags, IsConnect;
    AcceptableSets(c, x, skip);
    AcceptableRoundTrip(c, x, rest, skip);
    HeadFacts(c, x, skip);
    MessageFacts(c, x, skip);
    MessageStart(x);
    var c1 := HeadRead(c, x, skip);
    var q, t := ContentRead(c1.p, x.content), ContentSeen(c1.seen, c1.p, x.content);
    UpgradeReads(Core(MessageEnded(q), Push(t, Note(OnMessageComplete, q.contentLength))), rest, skip);
  }
}
