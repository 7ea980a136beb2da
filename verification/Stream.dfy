/** The reference machine: what a stream of bytes does to a parser whose callbacks never fail and never
    pause, read strictly one byte at a time. Its history keeps adjacent texts of one hook merged. */
module Stream {
  import opened ParserTypes
  import opened Machine
  import opened Chars

  /** A parser and the merged history of its callbacks. */
  datatype Core = Core(p: Parser, seen: History)

  /** What on_headers_complete answers: true when it returns 1, "this message has no body". */
  type Skip = History -> bool

  datatype Why = Drained | Upgraded | Failed

  /** Where a run ends: the parser, the bytes it did not consume, and why it stopped. */
  datatype Outcome = Outcome(c: Core, rest: string, why: Why)

  /** The order in which `goto reexecute` visits states. */
  function Rank(s: State): nat {
    match s
    case Value(ValueLws) => 3
    case Discard(DiscardLws) => 3
    case Name(FieldStart) => 2
    case End(HeadersAlmostDone) => 1
    case Value(ValueText) => 1
    case Body(Identity) => 1
    case Lead(StartReqOrRes) => 1
    case _ => 0
  }

  function Pushed(t: History, a: Act, ch: char): History {
    var t1 := match a.reading case Bare => t case Field(h) => Push(t, Text(h, [ch]));
    match a.sig
    case Quiet => t1
    case Tell(h) => Push(t1, Note(h, a.p.contentLength))
    case Flush(h) => Push(t1, Text(h, ""))
    case Blank(h) => Push(t1, Text(h, ""))
  }

  /** The parser after a pass that was reported as `t`: on_headers_complete may ask to skip the body. */
  function Answered(a: Act, t: History, skip: Skip): Parser {
    if a.sig == Tell(OnHeadersComplete) && skip(t) then a.p.(flags := a.p.flags.(skipBody := true)) else a.p
  }

  /** The effect of one pass. */
  function Apply(c: Core, ch: char, skip: Skip): Core {
    var a := Dispatch(c.p, ch);
    var seen := Pushed(c.seen, a, ch);
    Core(Answered(a, seen, skip), seen)
  }

  /** Every `goto reexecute` lowers the rank: the inner loop ends. */
  lemma RankFalls(p: Parser, ch: char)
    ensures Dispatch(p, ch).next.Redo? ==> Rank(Dispatch(p, ch).p.state) < Rank(p.state)
  {
    hide LeadByte, ResponseByte, MethodByte, UrlByte, RequestByte, NameByte, DiscardByte, ValueByte, EndByte, ChunkByte,
      BodyByte, Rank;
    if p.state.Lead? || p.state.End? || p.state.Body? { RankOfEnds(p, ch); }
    else if p.state.Name? || p.state.Discard? || p.state.Value? { RankOfHeaders(p, ch); }
    else { NoRedo(p, ch); }
  }

  lemma RankOfEnds(p: Parser, ch: char)
    requires p.state.Lead? || p.state.End? || p.state.Body?
    ensures Dispatch(p, ch).next.Redo? ==> Rank(Dispatch(p, ch).p.state) < Rank(p.state)
  {
    hide ResponseByte, MethodByte, UrlByte, RequestByte, NameByte, DiscardByte, ValueByte, ChunkByte, NewMessage,
      WantsUpgrade, HasBody, NeedsEof, StartsMethod, FirstMethod;
  }

  lemma RankOfHeaders(p: Parser, ch: char)
    requires p.state.Name? || p.state.Discard? || p.state.Value?
    ensures Dispatch(p, ch).next.Redo? ==> Rank(Dispatch(p, ch).p.state) < Rank(p.state)
  {
    hide LeadByte, ResponseByte, MethodByte, UrlByte, RequestByte, EndByte, ChunkByte, BodyByte, NameToken, ValueToken,
      FirstName, FirstValue, Recognised, Token;
  }

  lemma NoRedo(p: Parser, ch: char)
    requires p.state.Response? || p.state.ReqMethod? || p.state.Url? || p.state.Request? || p.state.Chunk?
    ensures !Dispatch(p, ch).next.Redo?
  {
    hide LeadByte, NameByte, DiscardByte, ValueByte, EndByte, BodyByte, MethodString, SwitchMethod, Unhex;
  }

  function Feed(c: Core, d: string, skip: Skip): Outcome
    decreases |d|, Rank(c.p.state)
  {
    if d == [] then Outcome(c, d, Drained)
    else
      var c' := Apply(c, d[0], skip);
      match Dispatch(c.p, d[0]).next
      case Eat => Feed(c', d[1..], skip)
      case Redo =>
        RankFalls(c.p, d[0]);
        Feed(c', d, skip)
      case Bad(e) => Outcome(c'.(p := c'.p.(errno := e)), d, Failed)
      case Exit => Outcome(c', d[1..], Upgraded)
  }

  lemma FeedNothing(c: Core, skip: Skip)
    ensures Feed(c, "", skip) == Outcome(c, "", Drained)
  {
  }

  /** Fragmentation independence: reading `a` and then `b` is reading `a + b`. */
  lemma {:induction false} FeedAppend(c: Core, a: string, b: string, skip: Skip)
    ensures var first := Feed(c, a, skip);
            Feed(c, a + b, skip) ==
            if first.why.Drained? then Feed(first.c, b, skip) else first.(rest := first.rest + b)
    decreases |a|, Rank(c.p.state)
  {
    hide Dispatch, Apply;
    if a == [] {
      assert a + b == b;
    } else {
      assert (a + b)[0] == a[0] && (a + b)[1..] == a[1..] + b;
      match Dispatch(c.p, a[0]).next
      case Eat => FeedAppend(Apply(c, a[0], skip), a[1..], b, skip);
      case Redo =>
        assert Apply(c, a[0], skip).p.state == Dispatch(c.p, a[0]).p.state by { ApplyState(c, a[0], skip); }
        RankFalls(c.p, a[0]);
        FeedAppend(Apply(c, a[0], skip), a, b, skip);
      case _ =>
    }
  }

  lemma ApplyState(c: Core, ch: char, skip: Skip)
    ensures Apply(c, ch, skip).p == Dispatch(c.p, ch).p
         || Apply(c, ch, skip).p ==
            Dispatch(c.p, ch).p.(flags := Dispatch(c.p, ch).p.flags.(skipBody := true))
  {
    hide Dispatch;
  }
}
