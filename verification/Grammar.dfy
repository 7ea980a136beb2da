/** The order of callbacks: a small automaton over whole histories, and the proof that no run leaves it. */
module Grammar {
  import opened Chars
  import opened ParserTypes
  import opened Machine
  import opened Stream
  import opened Invariant
  import opened Cursor

  /** Where a history is in
        (message_begin+ (url | status)? (field value)* headers_complete
         (body | (chunk_header body chunk_complete)* chunk_header (field value)* chunk_complete)?
         message_complete)*
      with adjacent texts of one hook taken as one. A URL follows exactly one message_begin. */
  datatype Phase =
    | Idle
    | Begun | BegunAgain
    | AtUrl | AtStatus
    | AtField | AtValue
    | HeadersSeen
    | AtBody
    | ChunkHead | ChunkText | ChunkEnd
    | LastHead | TrailerField | TrailerValue | LastEnd
    | Broken

  /** The phase after a piece of text. */
  function OnText(g: Phase, h: Hook): Phase {
    match h
    case OnUrl => if g.Begun? || g.AtUrl? then AtUrl else Broken
    case OnStatus => if g.Begun? || g.BegunAgain? || g.AtStatus? then AtStatus else Broken
    case OnHeaderField =>
      if g.Begun? || g.BegunAgain? || g.AtUrl? || g.AtStatus? || g.AtField? || g.AtValue? then AtField
      else if g.LastHead? || g.TrailerField? || g.TrailerValue? then TrailerField
      else Broken
    case OnHeaderValue =>
      if g.AtField? || g.AtValue? then AtValue
      else if g.TrailerField? || g.TrailerValue? then TrailerValue
      else Broken
    case OnBody =>
      if g.HeadersSeen? || g.AtBody? then AtBody
      else if g.ChunkHead? || g.ChunkText? then ChunkText
      else Broken
    case _ => Broken
  }

  /** The phase after a notification; the last chunk is the one of length 0. */
  function OnNote(g: Phase, h: Hook, length: nat): Phase {
    match h
    case OnMessageBegin => if g.Idle? then Begun else if g.Begun? || g.BegunAgain? then BegunAgain else Broken
    case OnHeadersComplete =>
      if g.Begun? || g.BegunAgain? || g.AtUrl? || g.AtStatus? || g.AtValue? then HeadersSeen else Broken
    case OnChunkHeader =>
      if !(g.HeadersSeen? || g.ChunkEnd?) then Broken else if length == 0 then LastHead else ChunkHead
    case OnChunkComplete =>
      if g.ChunkText? then ChunkEnd else if g.LastHead? || g.TrailerValue? then LastEnd else Broken
    case OnMessageComplete => if g.HeadersSeen? || g.AtBody? || g.LastEnd? then Idle else Broken
    case _ => Broken
  }

  function OnEvent(g: Phase, e: Event): Phase {
    match e
    case Text(h, _) => OnText(g, h)
    case Note(h, n) => OnNote(g, h, n)
  }

  function PhaseOf(t: History): Phase {
    match t
    case Nothing => Idle
    case Then(past, e) => OnEvent(PhaseOf(past), e)
  }

  lemma PhasePush(t: History, e: Event)
    ensures PhaseOf(Push(t, e)) == OnEvent(PhaseOf(t), e)
  {
  }

  /** Cutting texts into pieces does not change the phase. */
  lemma {:induction false} PhaseMerged(raw: History)
    ensures PhaseOf(Merged(raw)) == PhaseOf(raw)
  {
    hide OnEvent, Push;
    match raw
    case Nothing =>
    case Then(past, e) => PhaseMerged(past); PhasePush(Merged(past), e);
  }

  predicate BeforeHeaders(g: Phase, request: bool) {
    g.AtUrl? || g.AtStatus? || g.AtValue? || (!request && (g.Begun? || g.BegunAgain?))
  }

  /** The phases that go with a state. */
  predicate Fits(p: Parser, g: Phase) {
    var trailing := p.flags.trailing;
    match p.state
    case Lead(StartRes) => g.Idle? || g.Begun? || g.BegunAgain?
    case Lead(ResOrRespH) => g.Begun? && !trailing
    case Lead(_) => g.Idle?
    case Response(ResStatus) => g.AtStatus? && !trailing
    case Response(_) => (g.Begun? || g.BegunAgain? || g.AtStatus?) && !trailing
    case ReqMethod => g.Begun? && !trailing
    case Url(UrlStart) => g.Begun? && !trailing
    case Url(_) => g.AtUrl? && !trailing
    case Request(_) => g.AtUrl? && !trailing
    case Name(FieldStart) => if trailing then g.LastHead? || g.TrailerValue? else BeforeHeaders(g, p.kind.HttpRequest?)
    case Name(FieldText) => if trailing then g.TrailerField? else g.AtField?
    case Discard(_) => if trailing then g.TrailerField? else g.AtField?
    case Value(_) => if trailing then g.TrailerValue? else g.AtValue?
    case End(HeadersAlmostDone) =>
      if trailing then g.LastHead? || g.TrailerValue? else BeforeHeaders(g, p.kind.HttpRequest?)
    case End(HeadersDone) => g.HeadersSeen? && !trailing
    case Chunk(ChunkData) => (g.ChunkHead? || g.ChunkText?) && !trailing
    case Chunk(ChunkDataAlmostDone) => g.ChunkText? && !trailing
    case Chunk(ChunkDataDone) => g.ChunkText? && !trailing
    case Chunk(_) => (g.HeadersSeen? || g.ChunkEnd?) && !trailing
    case Body(MessageDone) => g.AtBody? || g.LastEnd?
    case Body(_) => g.HeadersSeen? || g.AtBody?
  }

  /** The phase after a pass. */
  function Speaks(g: Phase, a: Act): Phase {
    var g1 := match a.reading case Bare => g case Field(h) => OnText(g, h);
    match a.sig
    case Quiet => g1
    case Tell(h) => OnNote(g1, h, a.p.contentLength)
    case Flush(h) => OnText(g1, h)
    case Blank(h) => OnText(g1, h)
  }

  predicate FitsAfter(g: Phase, a: Act) {
    a.next.Bad? || Fits(a.p, Speaks(g, a))
  }

  lemma LeadFits(p: Parser, g: Phase, ch: char)
    requires Fits(p, g) && p.state.Lead?
    ensures FitsAfter(g, LeadByte(p, p.state.lead, ch))
  {
    hide StartsMethod, FirstMethod, OnText, IsAlpha;
  }

  lemma ResponseFits(p: Parser, g: Phase, ch: char)
    requires Fits(p, g) && p.state.Response? && p.kind.HttpResponse? && p.index <= 17
    ensures FitsAfter(g, ResponseByte(p, p.state.res, ch))
  {
    hide ResponseByte;
    ResponseTidy(p, ch);
    ResponseTellsNothing(p, ch);
    ResponseTail(p, p.state.res, ch);
  }

  lemma ResponseTellsNothing(p: Parser, ch: char)
    requires p.state.Response?
    ensures var a := ResponseByte(p, p.state.res, ch); a.sig.Quiet? || a.sig.Flush?
  {
  }

  lemma MethodFits(p: Parser, g: Phase, ch: char)
    requires Fits(p, g) && p.state.ReqMethod?
    ensures FitsAfter(g, MethodByte(p, ch))
  {
    hide MethodString, SwitchMethod;
  }

  lemma UrlFits(p: Parser, g: Phase, ch: char)
    requires Fits(p, g) && p.state.Url? && p.kind.HttpRequest? && !p.state.url.UrlDead?
    ensures FitsAfter(g, UrlByte(p, p.state.url, ch))
  {
  }

  lemma RequestFits(p: Parser, g: Phase, ch: char)
    requires Fits(p, g) && p.state.Request? && p.kind.HttpRequest?
    ensures FitsAfter(g, RequestByte(p, p.state.req, ch))
  {
  }

  /** The states that follow a byte of the header block, and what such a byte leaves alone. */
  predicate HeaderRoute(p: Parser, a: Act) {
    && a.p.flags.trailing == p.flags.trailing && a.p.kind == p.kind
    && match p.state
       case Name(_) => a.p.state == Name(FieldText) || a.p.state == Discard(DiscardWs)
         || a.p.state == End(HeadersAlmostDone)
       case Discard(_) => a.p.state.Discard? || a.p.state == Value(ValueText) || a.p.state == Name(FieldStart)
       case _ => a.p.state.Value? || a.p.state == Name(FieldStart)
  }

  predicate HeaderEdge(p: Parser, a: Act) {
    && (p.state == Name(FieldStart) && a.reading.Bare? ==> a.p.state == End(HeadersAlmostDone))
    && (p.state == Name(FieldText) && a.reading.Bare? ==> a.p.state == Discard(DiscardWs))
    && (p.state.Discard? && a.p.state == Name(FieldStart) ==> a.sig.Blank?)
    && (a.sig.Blank? ==> a.p.state == Name(FieldStart))
    && !a.sig.Tell?
  }

  lemma FirstByteRoute(p: Parser, ch: char)
    ensures var a := FirstByte(p, ch);
            a.next.Bad? || (a.p.flags.trailing == p.flags.trailing && a.p.kind == p.kind && a.sig.Quiet?
                            && a.reading == Field(OnHeaderValue) && a.p.state == Value(ValueText))
  {
    hide FirstValue, Lower;
  }

  lemma RecognisedRoute(f: Flags, h: HState)
    ensures Recognised(f, h).trailing == f.trailing
  {
  }

  lemma ValueTokenRoute(p: Parser, ch: char)
    ensures var q := ValueToken(p, ch); q.flags.trailing == p.flags.trailing && q.kind == p.kind && q.state == p.state
  {
    hide Match, StartToken, Lower, Recognised;
    RecognisedRoute(p.flags, p.hstate);
  }

  lemma NameRoute(p: Parser, ch: char)
    requires p.state.Name?
    ensures var a := NameByte(p, p.state.name, ch); a.next.Bad? || (HeaderRoute(p, a) && HeaderEdge(p, a))
  {
    hide Token, NameMatcher, FirstName;
  }

  lemma DiscardRoute(p: Parser, ch: char)
    requires p.state.Discard?
    ensures var a := DiscardByte(p, p.state.discard, ch); a.next.Bad? || (HeaderRoute(p, a) && HeaderEdge(p, a))
  {
    hide FirstByte, Recognised;
    FirstByteRoute(p, ch);
    RecognisedRoute(p.flags, p.hstate);
  }

  lemma ValueRoute(p: Parser, ch: char)
    requires p.state.Value?
    ensures var a := ValueByte(p, p.state.value, ch); a.next.Bad? || (HeaderRoute(p, a) && HeaderEdge(p, a))
  {
    hide FirstByte, Recognised, ValueToken;
    FirstByteRoute(p, ch);
    RecognisedRoute(p.flags, p.hstate);
    ValueTokenRoute(p, ch);
  }

  lemma NameFits(p: Parser, g: Phase, ch: char)
    requires Fits(p, g) && p.state.Name?
    ensures FitsAfter(g, NameByte(p, p.state.name, ch))
  {
    hide NameByte;
    NameTidy(p, ch);
    NameRoute(p, ch);
  }

  lemma DiscardFits(p: Parser, g: Phase, ch: char)
    requires Fits(p, g) && p.state.Discard?
    ensures FitsAfter(g, DiscardByte(p, p.state.discard, ch))
  {
    hide DiscardByte;
    DiscardTidy(p, ch);
    DiscardRoute(p, ch);
  }

  lemma ValueFits(p: Parser, g: Phase, ch: char)
    requires Fits(p, g) && p.state.Value?
    ensures FitsAfter(g, ValueByte(p, p.state.value, ch))
  {
    hide ValueByte;
    ValueTidy(p, ch);
    ValueRoute(p, ch);
  }

  lemma EndFits(p: Parser, g: Phase, ch: char)
    requires Fits(p, g) && p.state.End? && !p.kind.HttpBoth?
    ensures FitsAfter(g, EndByte(p, p.state.end, ch))
  {
    hide ShouldKeepAlive, NeedsEof, WantsUpgrade;
  }

  predicate ReadsSize(s: ChunkState) {
    s.SizeStart? || s.Size? || s.SizeParameters?
  }

  lemma SizeFits(p: Parser, g: Phase, ch: char)
    requires Fits(p, g) && p.state.Chunk? && ReadsSize(p.state.chunk)
    ensures FitsAfter(g, ChunkByte(p, p.state.chunk, ch))
  {
    hide Unhex, OnText, OnNote;
  }

  lemma DataFits(p: Parser, g: Phase, ch: char)
    requires Fits(p, g) && (p.state == Chunk(ChunkData) || p.state == Chunk(ChunkDataAlmostDone))
    ensures FitsAfter(g, ChunkByte(p, p.state.chunk, ch))
  {
    hide SizeByte, Unhex, OnNote;
  }

  lemma ChunkLineFits(p: Parser, g: Phase, ch: char)
    requires Fits(p, g) && (p.state == Chunk(SizeAlmostDone) || p.state == Chunk(ChunkDataDone))
    ensures FitsAfter(g, ChunkByte(p, p.state.chunk, ch))
  {
    hide SizeByte, Unhex, OnText;
  }

  lemma BodyFits(p: Parser, g: Phase, ch: char)
    requires Fits(p, g) && p.state.Body?
    ensures FitsAfter(g, BodyByte(p, p.state.body, ch))
  {
    hide ShouldKeepAlive;
  }

  // ---- every pass, and every run ----

  lemma StartLineFits(p: Parser, g: Phase, ch: char)
    requires Fits(p, g) && Inv(p)
    requires p.state.Lead? || p.state.Response? || p.state.ReqMethod? || p.state.Url? || p.state.Request?
    ensures FitsAfter(g, Dispatch(p, ch))
  {
    hide Fits, FitsAfter, LeadByte, ResponseByte, MethodByte, UrlByte, RequestByte, NameByte, DiscardByte, ValueByte,
      EndByte, ChunkByte, BodyByte, LengthFits, FlagsFit;
    match p.state
    case Lead(_) => LeadFits(p, g, ch);
    case Response(_) => ResponseFits(p, g, ch);
    case ReqMethod => MethodFits(p, g, ch);
    case Url(_) => UrlFits(p, g, ch);
    case _ => RequestFits(p, g, ch);
  }

  lemma ChunkFits(p: Parser, g: Phase, ch: char)
    requires Fits(p, g) && p.state.Chunk?
    ensures FitsAfter(g, ChunkByte(p, p.state.chunk, ch))
  {
    hide Fits, FitsAfter, ChunkByte;
    if ReadsSize(p.state.chunk) {
      SizeFits(p, g, ch);
    } else if p.state.chunk.ChunkData? || p.state.chunk.ChunkDataAlmostDone? {
      DataFits(p, g, ch);
    } else {
      ChunkLineFits(p, g, ch);
    }
  }

  /** No pass of the switch leaves the order of callbacks. */
  lemma DispatchFits(p: Parser, g: Phase, ch: char)
    requires Fits(p, g) && Inv(p)
    ensures FitsAfter(g, Dispatch(p, ch))
  {
    hide Fits, FitsAfter, LeadByte, ResponseByte, MethodByte, UrlByte, RequestByte, NameByte, DiscardByte, ValueByte,
      EndByte, ChunkByte, BodyByte, LengthFits, FlagsFit, HeaderFits, NumbersFit;
    match p.state
    case Name(_) => NameFits(p, g, ch);
    case Discard(_) => DiscardFits(p, g, ch);
    case Value(_) => ValueFits(p, g, ch);
    case End(_) => EndFits(p, g, ch);
    case Chunk(_) => ChunkFits(p, g, ch);
    case Body(_) => BodyFits(p, g, ch);
    case _ => StartLineFits(p, g, ch);
  }

  /** The history so far is in order, and in step with the parser's state. */
  predicate Spoken(c: Core) {
    Fits(c.p, PhaseOf(c.seen))
  }

  /** The phase follows the pass. */
  lemma PhasePushed(t: History, a: Act, ch: char)
    ensures PhaseOf(Pushed(t, a, ch)) == Speaks(PhaseOf(t), a)
  {
    hide OnText, OnNote, Push;
    var t1 := match a.reading case Bare => t case Field(h) => Push(t, Text(h, [ch]));
    match a.reading {
      case Bare =>
      case Field(h) => PhasePush(t, Text(h, [ch]));
    }
    match a.sig
    case Quiet =>
    case Tell(h) => PhasePush(t1, Note(h, a.p.contentLength));
    case Flush(h) => PhasePush(t1, Text(h, ""));
    case Blank(h) => PhasePush(t1, Text(h, ""));
  }

  lemma FitsAnswered(a: Act, t: History, skip: Skip, g: Phase)
    requires Fits(a.p, g)
    ensures Fits(Answered(a, t, skip), g)
  {
  }

  lemma SpokenKeeps(c: Core, ch: char, skip: Skip)
    requires Inv(c.p) && Spoken(c) && !Dispatch(c.p, ch).next.Bad?
    ensures Spoken(Apply(c, ch, skip))
  {
    hide Dispatch, Inv, Fits, Speaks, Pushed, Answered;
    var a := Dispatch(c.p, ch);
    DispatchFits(c.p, PhaseOf(c.seen), ch);
    PhasePushed(c.seen, a, ch);
    FitsAnswered(a, Pushed(c.seen, a, ch), skip, Speaks(PhaseOf(c.seen), a));
  }

  predicate InOrder(t: History) {
    !PhaseOf(t).Broken?
  }

  lemma SpokenInOrder(c: Core)
    requires Spoken(c)
    ensures InOrder(c.seen)
  {
  }

  /** Whatever the bytes, the callbacks of every run come in order. */
  lemma {:induction false} FeedInOrder(c: Core, d: string, skip: Skip)
    requires Inv(c.p) && Spoken(c)
    ensures var run := Feed(c, d, skip); InOrder(run.c.seen) && (run.why.Failed? || Spoken(run.c))
    decreases |d|, Rank(c.p.state)
  {
    hide Dispatch, Apply, Inv, Spoken, InOrder;
    SpokenInOrder(c);
    if d != [] {
      var next := Dispatch(c.p, d[0]).next;
      if next.Bad? {
        FailedQuietly(c, d[0], skip);
      } else {
        ApplyKeeps(c, d[0], skip);
        SpokenKeeps(c, d[0], skip);
        SpokenInOrder(Apply(c, d[0], skip));
        RankFalls(c.p, d[0]);
        ApplyState(c, d[0], skip);
        match next
        case Eat => FeedInOrder(Apply(c, d[0], skip), d[1..], skip);
        case Redo => FeedInOrder(Apply(c, d[0], skip), d, skip);
        case _ =>
      }
    }
  }

  /** A pass that finds an error signals nothing. */
  lemma FailedQuietly(c: Core, ch: char, skip: Skip)
    requires Inv(c.p) && Dispatch(c.p, ch).next.Bad?
    ensures Apply(c, ch, skip).seen == c.seen
  {
    hide Dispatch, Inv;
    InvNumbers(c.p);
    DispatchTidy(c.p, ch);
  }

  /** A history that is out of order stays so. */
  lemma PastInOrder(t: History, e: Event)
    requires InOrder(Push(t, e))
    ensures InOrder(t)
  {
    PhasePush(t, e);
  }

  lemma PendingInOrder(t: History, m: Mark, data: string, p: nat)
    requires p <= |data| && (m.Mark? ==> m.from <= p) && InOrder(Pending(t, m, data, p))
    ensures InOrder(t)
  {
    hide InOrder, Push;
    if m.Mark? { PastInOrder(t, Text(m.hook, data[m.from..p])); }
  }

  /** After a message that does not keep the connection alive nothing is signalled any more. */
  lemma {:induction false} DeadIsSilent(c: Core, d: string, skip: Skip)
    requires c.p.state == Lead(Dead)
    ensures var run := Feed(c, d, skip); run.c.seen == c.seen && run.c.p.state == Lead(Dead)
    decreases |d|
  {
    hide ResponseByte, MethodByte, UrlByte, RequestByte, NameByte, DiscardByte, ValueByte, EndByte, ChunkByte, BodyByte;
    if d != [] && (d[0] == CR || d[0] == LF) {
      assert Apply(c, d[0], skip) == c;
      DeadIsSilent(c, d[1..], skip);
    }
  }

  /** A message that does not keep the connection alive is the last one: its completion kills the parser,
      and no further byte signals anything. */
  lemma {:induction false} LastMessage(c: Core, ch: char, d: string, skip: Skip)
    requires c.p.state == Body(MessageDone) || c.p.state == End(HeadersDone)
    requires Dispatch(c.p, ch).sig == Tell(OnMessageComplete) && !ShouldKeepAlive(c.p)
    ensures var done := Apply(c, ch, skip);
            done.seen == Push(c.seen, Note(OnMessageComplete, c.p.contentLength))
              && Feed(done, d, skip).c.seen == done.seen
  {
    hide ShouldKeepAlive, LeadByte, ResponseByte, MethodByte, UrlByte, RequestByte, NameByte, DiscardByte, ValueByte,
      ChunkByte, Feed;
    DeadIsSilent(Apply(c, ch, skip), d, skip);
  }
}
