/** What every pass of the switch keeps: the facts behind the assertions of http_parser_execute. */
module Invariant {
  import opened Chars
  import opened ParserTypes
  import opened Machine
  import opened Stream

  /** content_length is the sentinel or a number that no digit ever made wrap. */
  predicate LengthFits(p: Parser) {
    && (p.contentLength == ULLONG_MAX || p.contentLength <= ULLONG_MAX - 6)
    && match p.state
       case Body(Identity) => 0 < p.contentLength < ULLONG_MAX
       case Value(_) => p.hstate == Named(ContentLength) ==> p.contentLength < ULLONG_MAX
       case Chunk(SizeStart) => true
       case Chunk(ChunkData) => 0 < p.contentLength <= ULLONG_MAX - 16
       case Chunk(ChunkDataAlmostDone) => p.contentLength == 0
       case Chunk(_) => p.contentLength <= ULLONG_MAX - 16
       case _ => true
  }

  predicate FlagsFit(p: Parser) {
    && (p.state.Chunk? ==> p.flags.chunked)
    && (p.flags.trailing ==> p.flags.chunked)
  }

  /** The index of the name matcher is inside its word. */
  predicate NamingFits(n: Naming, i: nat) {
    match n
    case NameC => i == 0
    case NameCO => i == 1
    case NameCON => i == 2
    case NameConnection => 3 <= i < 9
    case NameProxyConnection => i < 15
    case NameContentLength => 3 <= i < 13
    case NameTransferEncoding => i < 16
    case NameUpgrade => i < 6
  }

  /** The index of the value matcher is inside its word. */
  predicate ValuingFits(v: Valuing, i: nat) {
    match v
    case MatchChunked => i < 6
    case MatchKeepAlive => i < 9
    case MatchClose => i < 4
    case MatchUpgrade => i < 6
    case TokenStart => i == 0
    case AnyToken => true
  }

  predicate NameStates(h: HState) {
    h.General? || h.Naming? || h.Named?
  }

  predicate ValueStates(h: HState) {
    h.General? || h.Valuing? || h.Valued? || h == Named(ContentLength)
  }

  /** The header machine is in step with the state machine. */
  predicate HeaderFits(p: Parser) {
    && p.index <= 17
    && match p.state
       case Name(FieldText) => NameStates(p.hstate) && (p.hstate.Naming? ==> NamingFits(p.hstate.naming, p.index))
       case Discard(_) => NameStates(p.hstate)
       case Value(ValueText) =>
         ValueStates(p.hstate) && (p.hstate.Valuing? ==> ValuingFits(p.hstate.valuing, p.index))
       case Value(_) => ValueStates(p.hstate)
       case _ => true
  }

  /** The type goes with the state; only a request has a method. */
  predicate KindFits(p: Parser) {
    && (!p.kind.HttpRequest? ==> p.httpMethod == Delete)
    && match p.state
       case Lead(s) =>
         && (p.kind.HttpBoth? <==> s.StartReqOrRes? || s.ResOrRespH?)
         && (s.StartReq? ==> p.kind.HttpRequest?)
         && (s.StartRes? ==> p.kind.HttpResponse?)
       case Response(_) => p.kind.HttpResponse?
       case ReqMethod => p.kind.HttpRequest?
       case Url(_) => p.kind.HttpRequest?
       case Request(_) => p.kind.HttpRequest?
       case _ => !p.kind.HttpBoth?
  }

  /** The version and status numbers fit their fields, and the method matcher is inside its word. */
  predicate NumbersFit(p: Parser) {
    && p.httpMajor <= 999 && p.httpMinor <= 999 && p.statusCode <= 999
    && (p.state.ReqMethod? ==> 1 <= p.index <= |MethodString(p.httpMethod)|)
    && (p.state.Url? ==> !p.state.url.UrlDead?)
  }

  predicate Inv(p: Parser) {
    p.errno.HpeOk? && LengthFits(p) && FlagsFit(p) && HeaderFits(p) && KindFits(p) && NumbersFit(p)
  }

  predicate Keeps(a: Act) {
    !a.next.Bad? ==> Inv(a.p)
  }

  // ---- the fields that most passes leave alone ----

  predicate SameHead(p: Parser, q: Parser) {
    && q.kind == p.kind && q.httpMajor == p.httpMajor && q.httpMinor == p.httpMinor
    && q.statusCode == p.statusCode && q.httpMethod == p.httpMethod && q.errno == p.errno
  }

  /** The states after the start line, before the next message. */
  predicate Late(s: State) {
    s.Name? || s.Discard? || s.Value? || s.End? || s.Chunk? || s.Body?
  }

  lemma HeadKeeps(p: Parser, q: Parser)
    requires KindFits(p) && NumbersFit(p) && Late(p.state)
    requires SameHead(p, q) && Late(q.state)
    ensures KindFits(q) && NumbersFit(q)
  {
  }

  /** A status line byte changes the numbers and the state only. */
  predicate SameTail(p: Parser, q: Parser) {
    && q.kind == p.kind && q.flags == p.flags && q.contentLength == p.contentLength && q.errno == p.errno
    && q.httpMethod == p.httpMethod
    && q.index <= 17
    && (q.state.Response? || q.state == Name(FieldStart))
  }

  lemma TailKeeps(p: Parser, q: Parser)
    requires LengthFits(p) && FlagsFit(p) && KindFits(p) && p.state.Response? && SameTail(p, q)
    ensures LengthFits(q) && FlagsFit(q) && HeaderFits(q) && KindFits(q)
  {
  }

  lemma ResponseTail(p: Parser, s: ResponseState, ch: char)
    requires p.state == Response(s) && p.index <= 17
    ensures var a := ResponseByte(p, s, ch); a.next.Bad? || SameTail(p, a.p)
  {
  }

  lemma ResponseNumbers(p: Parser, s: ResponseState, ch: char)
    requires p.state == Response(s) && NumbersFit(p)
    ensures var a := ResponseByte(p, s, ch); a.next.Bad? || NumbersFit(a.p)
  {
  }

  lemma ResponseKeeps(p: Parser, ch: char)
    requires Inv(p) && p.state.Response?
    ensures Keeps(ResponseByte(p, p.state.res, ch))
  {
    hide ResponseByte, NumbersFit, LengthFits, FlagsFit, KindFits;
    var a := ResponseByte(p, p.state.res, ch);
    ResponseTail(p, p.state.res, ch);
    ResponseNumbers(p, p.state.res, ch);
    if !a.next.Bad? { TailKeeps(p, a.p); }
  }

  // ---- header names ----

  lemma NameTokenFits(p: Parser, ch: char)
    requires HeaderFits(p) && p.state == Name(FieldText)
    ensures HeaderFits(NameToken(p, ch))
            && NameToken(p, ch) == p.(index := NameToken(p, ch).index, hstate := NameToken(p, ch).hstate)
  {
    hide Token;
  }

  lemma NameKeeps(p: Parser, ch: char)
    requires Inv(p) && p.state.Name?
    ensures Keeps(NameByte(p, p.state.name, ch))
  {
    hide NameToken, Token;
    if p.state.name.FieldText? { NameTokenFits(p, ch); }
  }

  // ---- header values ----

  lemma ValueTokenFits(p: Parser, ch: char)
    requires HeaderFits(p) && p.state == Value(ValueText) && p.hstate != Named(ContentLength)
    ensures HeaderFits(ValueToken(p, ch)) && ValueToken(p, ch).hstate != Named(ContentLength)
  {
    hide Token, Lower;
  }

  lemma ValueTokenFrame(p: Parser, ch: char)
    ensures var q := ValueToken(p, ch);
            SameHead(p, q) && q.state == p.state && q.contentLength == p.contentLength
            && (FlagsFit(p) ==> FlagsFit(q))
  {
    hide Token, Lower, StartToken, Match;
  }

  lemma FirstByteKeeps(p: Parser, ch: char)
    requires Inv(p) && (p.state.Discard? || p.state.Value?)
    ensures Keeps(FirstByte(p, ch))
  {
    hide Lower;
  }

  lemma RecognisedKeeps(p: Parser)
    ensures FlagsFit(p) && !p.state.Chunk? ==> FlagsFit(p.(flags := Recognised(p.flags, p.hstate)))
  {
  }

  lemma DiscardKeeps(p: Parser, ch: char)
    requires Inv(p) && p.state.Discard?
    ensures Keeps(DiscardByte(p, p.state.discard, ch))
  {
    hide FirstByte, Recognised;
    RecognisedKeeps(p);
    FirstByteKeeps(p, ch);
  }

  lemma LengthKeeps(p: Parser, ch: char)
    requires Inv(p) && p.state == Value(ValueText) && p.hstate == Named(ContentLength)
    ensures Keeps(LengthByte(p, ch))
  {
  }

  lemma ValueKeeps(p: Parser, ch: char)
    requires Inv(p) && p.state.Value?
    ensures Keeps(ValueByte(p, p.state.value, ch))
  {
    hide FirstByte, Recognised, LengthByte, ValueToken;
    RecognisedKeeps(p);
    FirstByteKeeps(p, ch);
    if p.state.value.ValueText? {
      if p.hstate == Named(ContentLength) {
        LengthKeeps(p, ch);
      } else {
        ValueTokenFits(p, ch);
        ValueTokenFrame(p, ch);
      }
    }
  }

  // ---- chunks ----

  lemma ChunkHead(p: Parser, s: ChunkState, ch: char)
    requires p.state == Chunk(s)
    ensures var a := ChunkByte(p, s, ch);
            a.next.Bad? || (SameHead(p, a.p) && a.p.index == p.index
              && (a.p.state.Chunk? || a.p.state == Name(FieldStart)))
  {
  }

  lemma ChunkLength(p: Parser, s: ChunkState, ch: char)
    requires p.state == Chunk(s) && LengthFits(p) && FlagsFit(p)
    ensures var a := ChunkByte(p, s, ch); a.next.Bad? || (LengthFits(a.p) && FlagsFit(a.p))
  {
  }

  lemma ChunkKeeps(p: Parser, ch: char)
    requires Inv(p) && p.state.Chunk?
    ensures Keeps(ChunkByte(p, p.state.chunk, ch))
  {
    hide ChunkByte, LengthFits, FlagsFit;
    var a := ChunkByte(p, p.state.chunk, ch);
    ChunkHead(p, p.state.chunk, ch);
    ChunkLength(p, p.state.chunk, ch);
    if !a.next.Bad? { HeadKeeps(p, a.p); }
  }

  // ---- the other groups ----

  lemma LeadKeeps(p: Parser, ch: char)
    requires Inv(p) && p.state.Lead?
    ensures Keeps(LeadByte(p, p.state.lead, ch))
  {
    hide MethodString, FirstMethod, StartsMethod, NamingFits, ValuingFits, ShouldKeepAlive;
  }

  lemma MethodKeeps(p: Parser, ch: char)
    requires Inv(p) && p.state.ReqMethod?
    ensures Keeps(MethodByte(p, ch))
  {
  }

  lemma UrlKeeps(p: Parser, ch: char)
    requires Inv(p) && p.state.Url?
    ensures Keeps(UrlByte(p, p.state.url, ch))
  {
    hide MethodString, UrlChar.Next, NamingFits, ValuingFits;
  }

  lemma RequestKeeps(p: Parser, ch: char)
    requires Inv(p) && p.state.Request?
    ensures Keeps(RequestByte(p, p.state.req, ch))
  {
    hide MethodString, NamingFits, ValuingFits;
  }

  lemma EndKeeps(p: Parser, ch: char)
    requires Inv(p) && p.state.End?
    ensures Keeps(EndByte(p, p.state.end, ch))
  {
    hide MethodString, NeedsEof, ShouldKeepAlive, WantsUpgrade, NamingFits, ValuingFits;
  }

  lemma BodyKeeps(p: Parser, ch: char)
    requires Inv(p) && p.state.Body?
    ensures Keeps(BodyByte(p, p.state.body, ch))
  {
  }

  lemma DispatchKeeps(p: Parser, ch: char)
    requires Inv(p)
    ensures Keeps(Dispatch(p, ch))
  {
    hide Inv, LeadByte, ResponseByte, MethodByte, UrlByte, RequestByte, NameByte, DiscardByte, ValueByte, EndByte,
      ChunkByte, BodyByte;
    match p.state
    case Lead(_) => LeadKeeps(p, ch);
    case Response(_) => ResponseKeeps(p, ch);
    case ReqMethod => MethodKeeps(p, ch);
    case Url(_) => UrlKeeps(p, ch);
    case Request(_) => RequestKeeps(p, ch);
    case Name(_) => NameKeeps(p, ch);
    case Discard(_) => DiscardKeeps(p, ch);
    case Value(_) => ValueKeeps(p, ch);
    case End(_) => EndKeeps(p, ch);
    case Chunk(_) => ChunkKeeps(p, ch);
    case Body(_) => BodyKeeps(p, ch);
  }

  lemma ApplyKeeps(c: Core, ch: char, skip: Skip)
    requires Inv(c.p) && !Dispatch(c.p, ch).next.Bad?
    ensures Inv(Apply(c, ch, skip).p)
  {
    hide Dispatch;
    DispatchKeeps(c.p, ch);
  }

  /** The facts hold of the parser wherever a run stops other than on an error. */
  lemma {:induction false} FeedKeeps(c: Core, d: string, skip: Skip)
    requires Inv(c.p)
    ensures Feed(c, d, skip).why.Failed? || Inv(Feed(c, d, skip).c.p)
    decreases |d|, Rank(c.p.state)
  {
    hide Dispatch, Apply, Inv;
    if d != [] && !Dispatch(c.p, d[0]).next.Bad? {
      ApplyKeeps(c, d[0], skip);
      RankFalls(c.p, d[0]);
      ApplyState(c, d[0], skip);
      match Dispatch(c.p, d[0]).next
      case Eat => FeedKeeps(Apply(c, d[0], skip), d[1..], skip);
      case Redo => FeedKeeps(Apply(c, d[0], skip), d, skip);
      case _ =>
    }
  }

  /** What the assertions of http_parser_execute say of the parser's fields: the chunk states come with
      F_CHUNKED; a body that is counted has a length, and a chunk that is read has none left; and the header
      machine is in none of the states that its switches do not list. */
  predicate Asserted(p: Parser) {
    && (p.state.Chunk? ==> p.flags.chunked)
    && (p.state == Body(Identity) || p.state == Chunk(ChunkData) ==>
          p.contentLength != 0 && p.contentLength != ULLONG_MAX)
    && (p.state == Chunk(ChunkDataAlmostDone) ==> p.contentLength == 0)
    && (p.state == Name(FieldText) ==> NameStates(p.hstate))
    && (p.state == Value(ValueText) ==> ValueStates(p.hstate))
  }

  /** The assertions hold wherever a run stops, and so in every state that a run passes through. */
  lemma AssertionsHold(c: Core, d: string, skip: Skip)
    requires Inv(c.p)
    ensures Feed(c, d, skip).why.Failed? || Asserted(Feed(c, d, skip).c.p)
  {
    hide Feed, NumbersFit, KindFits;
    FeedKeeps(c, d, skip);
  }
}
