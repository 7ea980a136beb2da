/** The local state of one http_parser_execute call: the mark under which field text collects until a
    data callback reports it. The source has one mark per data callback; `MarkOk` is why one suffices. */
module Cursor {
  import opened ParserTypes
  import opened Machine
  import opened Stream
  import opened Invariant

  datatype Mark = NoMark | Mark(hook: Hook, from: nat)

  /** The text that is open in a state, whatever call it began in. */
  function OpenHook(s: State): Reading {
    match s
    case Url(u) => if u.UrlStart? then Bare else Field(OnUrl)
    case Response(ResStatus) => Field(OnStatus)
    case Name(FieldText) => Field(OnHeaderField)
    case Value(ValueText) => Field(OnHeaderValue)
    case _ => Bare
  }

  /** The states in which body text may be under the mark. */
  predicate InBodyText(s: State) {
    match s
    case Chunk(c) => c.ChunkData? || c.ChunkDataAlmostDone?
    case Body(b) => b.Identity? || b.IdentityEof?
    case _ => false
  }

  predicate MarkOk(s: State, m: Mark) {
    match OpenHook(s)
    case Field(h) => m.Mark? && m.hook == h
    case Bare => m.NoMark? || (InBodyText(s) && m.hook == OnBody)
  }

  /** The history once the text under the mark, up to byte `p`, counts as reported. */
  function Pending(t: History, m: Mark, data: string, p: nat): History
    requires p <= |data| && (m.Mark? ==> m.from <= p)
  {
    if m.NoMark? then t else Push(t, Text(m.hook, data[m.from..p]))
  }

  /** The history ends with the text that is open. */
  predicate Opened(c: Core) {
    match OpenHook(c.p.state)
    case Field(h) => Ends(c.seen, h)
    case Bare => c.p.state == Chunk(ChunkDataAlmostDone) ==> Ends(c.seen, OnBody)
  }

  predicate Closed(s: State) {
    OpenHook(s).Bare? && !InBodyText(s)
  }

  /** A pass that reads text goes on with the open text or opens one; only the last byte of an identity
      body also reports it. */
  predicate TidyText(s: State, h: Hook, a: Act) {
    && (OpenHook(s) == Field(h) || (h.OnBody? && InBodyText(s)) || Closed(s))
    && if s == Body(Identity) && a.next.Redo? then h.OnBody? && a.sig == Flush(OnBody) && Closed(a.p.state)
       else
         && a.sig.Quiet? && a.next.Eat?
         && (OpenHook(a.p.state) == Field(h) || (h.OnBody? && OpenHook(a.p.state).Bare? && InBodyText(a.p.state)))
  }

  /** A pass that reads no text reports the open text, or there is none. */
  predicate TidyBare(s: State, a: Act) {
    && OpenHook(a.p.state).Bare? && a.p.state != Chunk(ChunkDataAlmostDone)
    && (a.next.Exit? ==> a.sig.Tell?)
    && match a.sig
       case Flush(h) =>
         && (OpenHook(s) == Field(h) || (h.OnBody? && s == Chunk(ChunkDataAlmostDone)))
         && Closed(a.p.state)
       case Blank(h) => h.OnHeaderValue? && Closed(s)
       case _ => Closed(s)
  }

  /** The errors that bytes can cause. */
  predicate ParseError(e: Errno) {
    !e.HpeOk? && !e.HpePaused? && !e.HpeCallback? && !e.HpeHeaderOverflow? && !e.HpeInvalidEofState?
  }

  predicate Tidy(s: State, a: Act) {
    if a.next.Bad? then a.reading.Bare? && a.sig.Quiet? && ParseError(a.next.why)
    else match a.reading case Field(h) => TidyText(s, h, a) case Bare => TidyBare(s, a)
  }

  lemma LeadTidy(p: Parser, ch: char)
    requires p.state.Lead?
    ensures Tidy(p.state, LeadByte(p, p.state.lead, ch))
  {
  }
  lemma ResponseTidy(p: Parser, ch: char)
    requires p.state.Response?
    ensures Tidy(p.state, ResponseByte(p, p.state.res, ch))
  {
  }
  lemma UrlTidy(p: Parser, ch: char)
    requires p.state.Url? && !p.state.url.UrlDead?
    ensures Tidy(p.state, UrlByte(p, p.state.url, ch))
  {
  }
  lemma NameTidy(p: Parser, ch: char)
    requires p.state.Name?
    ensures Tidy(p.state, NameByte(p, p.state.name, ch))
  {
  }
  lemma ValueTidy(p: Parser, ch: char)
    requires p.state.Value?
    ensures Tidy(p.state, ValueByte(p, p.state.value, ch))
  {
  }
  lemma ChunkTidy(p: Parser, ch: char)
    requires p.state.Chunk?
    ensures Tidy(p.state, ChunkByte(p, p.state.chunk, ch))
  {
  }

  lemma DispatchTidy(p: Parser, ch: char)
    requires NumbersFit(p)
    ensures Tidy(p.state, Dispatch(p, ch))
  {
    hide LeadByte, ResponseByte, UrlByte, NameByte, ValueByte, ChunkByte, Tidy;
    match p.state
    case Lead(_) => LeadTidy(p, ch);
    case Response(_) => ResponseTidy(p, ch);
    case Url(_) => UrlTidy(p, ch);
    case Name(_) => NameTidy(p, ch);
    case Value(_) => ValueTidy(p, ch);
    case Chunk(_) => ChunkTidy(p, ch);
    case _ => RestTidy(p, ch);
  }

  lemma RestTidy(p: Parser, ch: char)
    requires p.state.ReqMethod? || p.state.Request? || p.state.Discard? || p.state.End? || p.state.Body?
    ensures Tidy(p.state, Dispatch(p, ch))
  {
    hide LeadByte, ResponseByte, UrlByte, NameByte, ValueByte, ChunkByte, RequestByte, DiscardByte, EndByte, BodyByte,
      Tidy;
    match p.state
    case Request(_) => RequestTidy(p, ch);
    case Discard(_) => DiscardTidy(p, ch);
    case End(_) => EndTidy(p, ch);
    case Body(_) => BodyTidy(p, ch);
    case _ => MethodTidy(p, ch);
  }

  lemma MethodTidy(p: Parser, ch: char)
    requires p.state.ReqMethod?
    ensures Tidy(p.state, MethodByte(p, ch))
  {
    hide MethodString, SwitchMethod;
  }

  lemma RequestTidy(p: Parser, ch: char)
    requires p.state.Request?
    ensures Tidy(p.state, RequestByte(p, p.state.req, ch))
  {
  }

  lemma DiscardTidy(p: Parser, ch: char)
    requires p.state.Discard?
    ensures Tidy(p.state, DiscardByte(p, p.state.discard, ch))
  {
  }

  lemma EndTidy(p: Parser, ch: char)
    requires p.state.End?
    ensures Tidy(p.state, EndByte(p, p.state.end, ch))
  {
  }

  lemma BodyTidy(p: Parser, ch: char)
    requires p.state.Body?
    ensures Tidy(p.state, BodyByte(p, p.state.body, ch))
  {
  }

  /** The open text stays the last thing reported, in every reachable state. */
  lemma OpenedKeeps(c: Core, ch: char, skip: Skip)
    requires Inv(c.p) && Opened(c) && !Dispatch(c.p, ch).next.Bad?
    ensures Opened(Apply(c, ch, skip))
  {
    hide Dispatch, Inv;
    assert NumbersFit(c.p) by { InvNumbers(c.p); }
    DispatchTidy(c.p, ch);
  }

  lemma InvNumbers(p: Parser)
    requires Inv(p)
    ensures NumbersFit(p)
  {
    hide NumbersFit, LengthFits, FlagsFit, HeaderFits, KindFits;
  }

  // ---- texts under the mark ----

  function MarkAt(m: Mark, h: Hook, p: nat): Mark {
    if m.NoMark? then Mark(h, p) else m
  }

  lemma ReadText(t: History, m: Mark, data: string, p: nat, h: Hook)
    requires p < |data| && (m.Mark? ==> m.from <= p && m.hook == h)
    ensures Push(Pending(t, m, data, p), Text(h, [data[p]])) == Pending(t, MarkAt(m, h, p), data, p + 1)
  {
    if m.Mark? {
      assert data[m.from..p] + [data[p]] == data[m.from..p + 1];
      PushText(t, h, data[m.from..p], [data[p]]);
    } else {
      assert [data[p]] == data[p..p + 1];
    }
  }

  lemma FlushText(t: History, m: Mark, data: string, p: nat)
    requires p <= |data| && m.Mark? && m.from <= p
    ensures Push(Pending(t, m, data, p), Text(m.hook, "")) == Pending(t, m, data, p)
  {
    PushNothing(Pending(t, m, data, p), m.hook);
  }

  // ---- one pass, seen from the call ----

  /** The history after the callback of a pass: a data callback reports the text under the mark. */
  function Reported(t: History, m: Mark, data: string, p: nat, a: Act): History
    requires p <= |data| && (m.Mark? ==> m.from <= p)
  {
    match a.sig
    case Quiet => t
    case Tell(h) => Push(t, Note(h, a.p.contentLength))
    case Flush(h) => Pending(t, m, data, p)
    case Blank(h) => Push(t, Text(h, ""))
  }

  function MarkAfter(m: Mark, p: nat, a: Act): Mark {
    match a.reading
    case Field(h) => MarkAt(m, h, p)
    case Bare => if a.sig.Flush? then NoMark else m
  }

  /** The byte a pass leaves the call at. */
  function After(p: nat, a: Act): nat {
    if a.next.Eat? || a.next.Exit? then p + 1 else p
  }

  /** The call's history, with the text under its mark, is the history of the reference machine. */
  lemma PassSeen(c: Core, t: History, m: Mark, data: string, p: nat, a: Act)
    requires p < |data| && (m.Mark? ==> m.from <= p)
    requires MarkOk(c.p.state, m) && Opened(c) && c.seen == Pending(t, m, data, p)
    requires Tidy(c.p.state, a) && !a.next.Bad? && !(a.reading.Field? && a.next.Redo?)
    ensures var m' := MarkAfter(m, p, a);
            && (m'.Mark? ==> m'.from <= After(p, a))
            && MarkOk(a.p.state, m')
            && Pushed(c.seen, a, data[p]) == Pending(Reported(t, m, data, p, a), m', data, After(p, a))
  {
    if a.reading.Field? {
      ReadText(t, m, data, p, a.reading.hook);
    } else if a.sig.Flush? {
      if m.Mark? { FlushText(t, m, data, p); } else { PushNothing(t, OnBody); }
    }
  }
}
