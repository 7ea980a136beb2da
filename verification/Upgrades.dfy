/** Upgrades: a parser that leaves HTTP does so as a message completes, and so a client can tell that it has. */
module Upgrades {
  import opened Chars
  import opened ParserTypes
  import opened Machine
  import opened Stream

  /** The upgrade flag is set from the end of a header block up to the end of its message. */
  predicate UpgradeFits(p: Parser) {
    p.upgrade ==>
      p.state.Chunk? || p.state.Body? || p.state == End(HeadersDone) || (InFields(p.state) && p.flags.trailing)
  }

  /** The states of header and trailer lines. */
  predicate InFields(s: State) {
    s.Name? || s.Discard? || s.Value? || s == End(HeadersAlmostDone)
  }

  /** The parser has left HTTP. */
  predicate Left(p: Parser) {
    p.upgrade && p.state.Lead?
  }

  predicate PassFits(a: Act) {
    match a.next
    case Bad(_) => true
    case Exit => Left(a.p)
    case _ => UpgradeFits(a.p)
  }

  lemma StartPass(p: Parser, ch: char)
    requires UpgradeFits(p)
    requires p.state.Lead? || p.state.Response? || p.state.ReqMethod? || p.state.Url? || p.state.Request?
    ensures PassFits(Dispatch(p, ch))
  {
    hide MethodString, SwitchMethod, NameByte, DiscardByte, ValueByte, EndByte, ChunkByte, BodyByte, FirstMethod,
      StartsMethod;
    if p.state.Lead? { hide ResponseByte, MethodByte, UrlByte, RequestByte; LeadPass(p, p.state.lead, ch); }
    else { hide LeadByte; LinePass(p, ch); }
  }

  lemma LeadPass(p: Parser, s: LeadState, ch: char)
    requires !p.upgrade
    ensures PassFits(LeadByte(p, s, ch))
  {
    hide FirstMethod, StartsMethod;
  }

  lemma LinePass(p: Parser, ch: char)
    requires !p.upgrade && (p.state.Response? || p.state.ReqMethod? || p.state.Url? || p.state.Request?)
    ensures PassFits(Dispatch(p, ch))
  {
    hide MethodString, SwitchMethod, LeadByte, NameByte, DiscardByte, ValueByte, EndByte, ChunkByte, BodyByte;
    if p.state.Response? { hide MethodByte, UrlByte, RequestByte; }
    else if p.state.Url? { hide MethodByte, ResponseByte, RequestByte; }
  }

  lemma FieldPass(p: Parser, ch: char)
    requires UpgradeFits(p) && (p.state.Name? || p.state.Discard? || p.state.Value?)
    ensures PassFits(Dispatch(p, ch))
  {
    hide Token, LeadByte, ResponseByte, MethodByte, UrlByte, RequestByte, EndByte, ChunkByte, BodyByte, NameToken,
      ValueToken, FirstByte, LengthByte, Recognised, FirstName;
    TokensKeep(p, ch);
    if p.state.Name? { hide DiscardByte, ValueByte; }
    else if p.state.Discard? { hide NameByte, ValueByte; }
    else { hide NameByte, DiscardByte; }
  }

  /** The word matchers touch neither the upgrade flag nor F_TRAILING. */
  lemma TokensKeep(p: Parser, ch: char)
    ensures var q := NameToken(p, ch); q.upgrade == p.upgrade && q.flags == p.flags
    ensures var q := ValueToken(p, ch);
            q.upgrade == p.upgrade && q.flags.trailing == p.flags.trailing && q.state == p.state
    ensures forall h :: Recognised(p.flags, h).trailing == p.flags.trailing
    ensures TextKept(p, FirstByte(p, ch)) && TextKept(p, LengthByte(p, ch))
  {
    hide Token, Lower, NameMatcher, Match, StartToken, FirstByte, LengthByte;
    BytesKeep(p, ch);
  }

  predicate TextKept(p: Parser, a: Act) {
    || a.next.Bad?
    || (&& a.next.Eat? && a.p.state == Value(ValueText)
        && a.p.upgrade == p.upgrade && a.p.flags.trailing == p.flags.trailing)
  }

  lemma BytesKeep(p: Parser, ch: char)
    ensures TextKept(p, FirstByte(p, ch)) && TextKept(p, LengthByte(p, ch))
  {
    hide Lower, FirstValue;
  }

  lemma BodyPass(p: Parser, ch: char)
    requires UpgradeFits(p) && (p.state.End? || p.state.Chunk? || p.state.Body?)
    ensures PassFits(Dispatch(p, ch))
  {
    hide Unhex, NewMessage, LeadByte, ResponseByte, MethodByte, UrlByte, RequestByte, NameByte, DiscardByte, ValueByte;
  }

  lemma DispatchFits(p: Parser, ch: char)
    requires UpgradeFits(p)
    ensures PassFits(Dispatch(p, ch))
  {
    hide Dispatch, PassFits, UpgradeFits;
    if p.state.Name? || p.state.Discard? || p.state.Value? { FieldPass(p, ch); }
    else if p.state.End? || p.state.Chunk? || p.state.Body? { BodyPass(p, ch); }
    else { StartPass(p, ch); }
  }

  /** A run that ends in an upgrade has left HTTP, and one that reads everything has not. */
  lemma {:induction false} FeedFits(c: Core, d: string, skip: Skip)
    requires UpgradeFits(c.p)
    ensures var o := Feed(c, d, skip);
            && (o.why.Upgraded? ==> Left(o.c.p))
            && (o.why.Drained? ==> UpgradeFits(o.c.p) && !Left(o.c.p))
    decreases |d|, Rank(c.p.state)
  {
    hide Dispatch, Apply;
    if d != "" {
      DispatchFits(c.p, d[0]);
      ApplyState(c, d[0], skip);
      match Dispatch(c.p, d[0]).next
      case Eat => FeedFits(Apply(c, d[0], skip), d[1..], skip);
      case Redo =>
        RankFalls(c.p, d[0]);
        FeedFits(Apply(c, d[0], skip), d, skip);
      case _ =>
    }
  }
}
