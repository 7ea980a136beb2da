/** The header count over a head: every byte of it is counted once. */
module HeadCounts {
  import opened Chars
  import opened ParserTypes
  import opened Machine
  import opened Stream
  import opened Count
  import opened Bodies
  import opened Values
  import opened StartLines
  import opened HeaderLines
  import opened WholeMessages
  import Upgrades

  /** The states of header lines, up to the empty line. */
  predicate InLines(s: State) {
    s.Name? || s.Discard? || s.Value? || s == End(HeadersAlmostDone)
  }

  /** In a start line or in a header line, and not in a trailer. */
  predicate HeadFits(p: Parser) {
    || (p.state.Lead? && !p.state.lead.ResOrRespH?)
    || (&& !p.flags.trailing
        && (|| p.state.Lead? || p.state.Response? || p.state.ReqMethod? || p.state.Url? || p.state.Request?
            || InLines(p.state)))
  }

  /** The number of headers_complete callbacks. */
  function Heads(t: History): nat {
    match t
    case Nothing => 0
    case Then(past, e) => Heads(past) + if e.Note? && e.hook.OnHeadersComplete? then 1 else 0
  }

  lemma HeadsPush(t: History, e: Event)
    ensures Heads(Push(t, e)) == Heads(t) + if e.Note? && e.hook.OnHeadersComplete? then 1 else 0
  {
  }

  lemma ApplyHeads(c: Core, ch: char, skip: Skip)
    ensures Heads(Apply(c, ch, skip).seen) ==
            Heads(c.seen) + if Dispatch(c.p, ch).sig == Tell(OnHeadersComplete) then 1 else 0
  {
    hide Dispatch, Push, Heads;
    var a := Dispatch(c.p, ch);
    var t1 := match a.reading case Bare => c.seen case Field(h) => Push(c.seen, Text(h, [ch]));
    if a.reading.Field? { HeadsPush(c.seen, Text(a.reading.hook, [ch])); }
    if a.sig.Tell? { HeadsPush(t1, Note(a.sig.hook, a.p.contentLength)); }
    if a.sig.Flush? || a.sig.Blank? { HeadsPush(t1, Text(a.sig.hook, "")); }
  }

  /** A pass in a head stays in it, or signals its end. */
  predicate HeadPass(a: Act) {
    match a.next
    case Bad(_) => true
    case Exit => false
    case _ => a.sig == Tell(OnHeadersComplete) || HeadFits(a.p)
  }

  lemma StartStays(p: Parser, ch: char)
    requires HeadFits(p) && (p.state.Response? || p.state.ReqMethod? || p.state.Url? || p.state.Request?)
    ensures HeadPass(Dispatch(p, ch))
  {
    hide MethodString, SwitchMethod, LeadByte, NameByte, DiscardByte, ValueByte, EndByte, ChunkByte, BodyByte;
    if p.state.Response? { hide MethodByte, UrlByte, RequestByte; }
    else if p.state.Url? { hide MethodByte, ResponseByte, RequestByte; }
  }

  lemma LeadStays(p: Parser, s: LeadState, ch: char)
    requires HeadFits(p) && p.state == Lead(s)
    ensures HeadPass(LeadByte(p, s, ch))
  {
    hide FirstMethod, StartsMethod;
  }

  lemma LineStays(p: Parser, ch: char)
    requires HeadFits(p) && InLines(p.state)
    ensures HeadPass(Dispatch(p, ch))
  {
    hide Token, LeadByte, ResponseByte, MethodByte, UrlByte, RequestByte, ChunkByte, BodyByte, NameToken, ValueToken,
      FirstByte, LengthByte, Recognised, FirstName, WantsUpgrade, StartBody;
    Upgrades.TokensKeep(p, ch);
    if p.state.Name? { hide DiscardByte, ValueByte, EndByte; }
    else if p.state.Discard? { hide NameByte, ValueByte, EndByte; }
    else if p.state.Value? { hide NameByte, DiscardByte, EndByte; }
  }

  lemma HeadStays(p: Parser, ch: char)
    requires HeadFits(p)
    ensures HeadPass(Dispatch(p, ch))
  {
    hide LeadByte, ResponseByte, MethodByte, UrlByte, RequestByte, NameByte, DiscardByte, ValueByte, EndByte,
      ChunkByte, BodyByte, HeadPass;
    match p.state
    case Lead(s) => LeadStays(p, s, ch);
    case _ => if InLines(p.state) { LineStays(p, ch); } else { StartStays(p, ch); }
  }

  lemma HeadCounted(p: Parser)
    requires HeadFits(p)
    ensures ParsingHeader(p.state) && !ResetsCount(p.state)
  {
  }

  /** No run takes a callback back. */
  lemma {:induction false} HeadsGrow(c: Core, d: string, skip: Skip)
    ensures Heads(Feed(c, d, skip).c.seen) >= Heads(c.seen)
    decreases |d|, Rank(c.p.state)
  {
    hide Dispatch, Apply, Heads;
    if d != "" {
      ApplyHeads(c, d[0], skip);
      ApplyState(c, d[0], skip);
      match Dispatch(c.p, d[0]).next
      case Eat => HeadsGrow(Apply(c, d[0], skip), d[1..], skip);
      case Redo =>
        RankFalls(c.p, d[0]);
        HeadsGrow(Apply(c, d[0], skip), d, skip);
      case _ =>
    }
  }

  /** A run that does not come to the end of the head counts each of its bytes. */
  lemma {:induction false} HeadRun(k: nat, c: Core, d: string, skip: Skip)
    requires HeadFits(c.p) && Feed(c, d, skip).why.Drained? && Heads(Feed(c, d, skip).c.seen) == Heads(c.seen)
    ensures Plain(k, c, d, skip) == Peak(k, c, d, skip) == k + |d| && HeadFits(Feed(c, d, skip).c.p)
    decreases |d|, Rank(c.p.state), 1
  {
    hide Dispatch, Apply, Heads, HeadFits, PlainByte, PeakByte, Feed;
    if d == "" {
      FeedNothing(c, skip);
    } else {
      HeadCounted(c.p);
      HeadByte(k + 1, c, d, skip);
    }
  }

  lemma {:induction false} HeadByte(k: nat, c: Core, d: string, skip: Skip)
    requires d != "" && HeadFits(c.p)
    requires Feed(c, d, skip).why.Drained? && Heads(Feed(c, d, skip).c.seen) == Heads(c.seen)
    ensures PlainByte(k, c, d, skip) == PeakByte(k, c, d, skip) == k + |d| - 1 && HeadFits(Feed(c, d, skip).c.p)
    decreases |d|, Rank(c.p.state), 0
  {
    hide Dispatch, Apply, Heads, HeadFits, Plain, Peak;
    var a, c' := Dispatch(c.p, d[0]), Apply(c, d[0], skip);
    HeadCounted(c.p);
    HeadStays(c.p, d[0]);
    ApplyHeads(c, d[0], skip);
    ApplyState(c, d[0], skip);
    RankFalls(c.p, d[0]);
    var rest := if a.next.Eat? then d[1..] else d;
    HeadsGrow(c', rest, skip);
    SkipFits(a.p);
    match a.next
    case Eat => HeadRun(k, c', d[1..], skip);
    case Redo => HeadByte(k, c', d, skip);
    case _ =>
  }

  /** Asking to skip the body changes nothing of that. */
  lemma SkipFits(p: Parser)
    ensures HeadFits(p.(flags := p.flags.(skipBody := true))) == HeadFits(p)
  {
  }

  lemma {:induction false} LinesHeads(t: History, xs: seq<Line>)
    ensures Heads(LinesSeen(t, xs)) == Heads(t)
    decreases |xs|
  {
    hide Heads, Push;
    if xs != [] {
      HeadsPush(t, Text(OnHeaderField, xs[0].name));
      HeadsPush(Push(t, Text(OnHeaderField, xs[0].name)), Text(OnHeaderValue, xs[0].value));
      LinesHeads(LineSeen(t, xs[0]), xs[1..]);
    }
  }

  lemma StartHeads(t: History, x: StartLine)
    ensures Heads(StartSeen(t, x)) == Heads(t)
  {
    hide Heads, Push;
    var begun := Push(t, Note(OnMessageBegin, ULLONG_MAX));
    HeadsPush(t, Note(OnMessageBegin, ULLONG_MAX));
    if x.RequestLine? { HeadsPush(begun, Text(OnUrl, x.target)); } else { HeadsPush(begun, Text(OnStatus, x.reason)); }
  }

  /** The head without its empty line. */
  function Upper(x: Message): string {
    StartText(x.start, x.eol) + LinesText(x.lines)
  }

  /** The head up to the CR of an empty line. */
  lemma UpperReads(c: Core, x: Message, skip: Skip)
    requires IsMessage(x) && AwaitsStart(c.p, x.start) && StartFits(x.start) && HeadEffect(x).Sets?
    ensures var o := Feed(c, Upper(x) + "\r", skip); o.why.Drained? && Heads(o.c.seen) == Heads(c.seen)
  {
    hide Feed, Started, StartSeen, StartText, LinesText, LinesRead, LinesSeen, LinesEffect, IsStartLine, StartFits,
      AreLines, IsEol, IsContent, AwaitsStart, Heads, Push;
    var c1 := Core(Started(c.p, x.start), StartSeen(c.seen, x.start));
    StartReads(c, x.start, x.eol, skip);
    ReadsThen(c, StartText(x.start, x.eol), c1, LinesText(x.lines) + "\r", skip);
    StartedFresh(c.p, x.start);
    assert Upper(x) + "\r" == StartText(x.start, x.eol) + (LinesText(x.lines) + "\r");
    HeaderBlock(c1, x.lines, "\r", skip);
    var c2 := Core(LinesRead(c1.p, x.lines), LinesSeen(c1.seen, x.lines));
    ReadsReturn(c2, skip);
    StartHeads(c.seen, x.start);
    LinesHeads(c1.seen, x.lines);
  }

  lemma ReadsReturn(c: Core, skip: Skip)
    requires c.p.state == Name(FieldStart)
    ensures Feed(c, "\r", skip) == Outcome(Core(c.p.(state := End(HeadersAlmostDone)), c.seen), "", Drained)
  {
    hide LeadByte, ResponseByte, MethodByte, UrlByte, RequestByte, DiscardByte, ValueByte, EndByte, ChunkByte, BodyByte;
    ReadsByte(c, '\r', skip);
  }

  lemma AwaitsFits(c: Core, x: Message)
    requires IsMessage(x) && AwaitsStart(c.p, x.start)
    ensures HeadFits(c.p)
  {
    hide IsMessage;
  }

  /** Every byte of a head is counted: the longest header block in it is the head, with what was counted before. */
  lemma HeadPeak(k: nat, c: Core, x: Message, skip: Skip)
    requires IsMessage(x) && AwaitsStart(c.p, x.start) && StartFits(x.start) && HeadEffect(x).Sets?
    ensures Peak(k, c, HeadText(x), skip) == k + |HeadText(x)|
  {
    hide Feed, Heads, HeadFits, StartText, LinesText, Plain, Peak, AwaitsStart, StartFits, HeadEffect, IsStartLine,
      IsContent;
    var d := Upper(x);
    UpperReads(c, x, skip);
    AwaitsFits(c, x);
    FeedAppend(c, d, "\r", skip);
    var c1 := Feed(c, d, skip).c;
    HeadsGrow(c, d, skip);
    HeadsGrow(c1, "\r", skip);
    if x.blank == [LF] {
      HeadRun(k, c, d, skip);
      LastByte(k, c, d, skip);
      assert HeadText(x) == d + [LF];
    } else {
      HeadRun(k, c, d + "\r", skip);
      LastByte(k, c, d + "\r", skip);
      assert HeadText(x) == d + "\r" + [LF];
    }
  }

  /** The LF that ends a head. */
  lemma LastByte(k: nat, c: Core, d: string, skip: Skip)
    requires Feed(c, d, skip).why.Drained? && Plain(k, c, d, skip) == Peak(k, c, d, skip) == k + |d|
    requires HeadFits(Feed(c, d, skip).c.p)
    ensures Peak(k, c, d + [LF], skip) == k + |d| + 1
  {
    hide Feed, PeakByte, HeadFits, Plain;
    var c1 := Feed(c, d, skip).c;
    PeakAppend(k, c, d, [LF], skip);
    HeadCounted(c1.p);
    PeakByteShort(k + |d| + 1, c1, [LF], skip);
  }

  /** The same for a whole message. */
  lemma MessagePeak(k: nat, c: Core, x: Message, skip: Skip)
    requires IsMessage(x) && AwaitsStart(c.p, x.start) && StartFits(x.start) && HeadEffect(x).Sets?
    requires Feed(c, MessageText(x), skip).why.Drained?
    ensures Peak(k, c, MessageText(x), skip) >= k + |HeadText(x)|
  {
    hide Feed, IsMessage, AwaitsStart, StartFits, HeadEffect, HeadText, ContentText, Plain, Peak;
    HeadPeak(k, c, x, skip);
    FeedAppend(c, HeadText(x), ContentText(x.content), skip);
    PeakAppend(k, c, HeadText(x), ContentText(x.content), skip);
  }
}
