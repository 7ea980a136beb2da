/** The target of a request line: what on_url delivers is what the URL splitter's first pass accepts. */
module Target {
  import opened Chars
  import opened ParserTypes
  import opened Machine
  import opened Stream
  import opened Bodies
  import opened UrlLayout

  /** Bytes that end neither the target nor the line. */
  predicate Unbroken(t: string) {
    forall k :: 0 <= k < |t| ==> t[k] != ' ' && t[k] != CR && t[k] != LF
  }

  /** A parser that is about to read the target. */
  predicate AtTarget(c: Core) {
    c.p.state == Url(UrlStart)
  }

  /** The state of the URL automaton after `n` bytes of the target. */
  function Reached(p: Parser, t: string, n: nat): UrlState
    requires n <= |t|
  {
    UrlChar.After(Start(p.httpMethod == Connect), t, n)
  }

  function InTarget(c: Core, t: string, n: nat): Core
    requires n <= |t|
  {
    Core(c.p.(state := Url(Reached(c.p, t, n))), Push(c.seen, Text(OnUrl, t[..n])))
  }

  /** One byte of a target. */
  lemma TargetByte(p: Parser, s: UrlState, ch: char)
    requires p.state == Url(s) && ch != ' ' && ch != CR && ch != LF
    ensures var t := UrlChar.Next(if s.UrlStart? then Start(p.httpMethod == Connect) else s, ch);
            if t.UrlDead? then Dispatch(p, ch).next.Bad?
              else Dispatch(p, ch) == Act(p.(state := Url(t)), Field(OnUrl), Quiet, Eat)
  {
    hide UrlChar.Next;
  }

  lemma NeverStart(s: UrlState, ch: char)
    ensures UrlChar.Next(s, ch) != UrlStart
  {
  }

  lemma {:induction false} TargetText(c: Core, t: string, n: nat, skip: Skip)
    requires AtTarget(c) && Unbroken(t) && 0 < n <= |t|
    ensures if Reached(c.p, t, n).UrlDead? then Feed(c, t[..n], skip).why.Failed?
            else Reads(c, t[..n], skip, InTarget(c, t, n)) && Reached(c.p, t, n) != UrlStart
    decreases n
  {
    hide Dispatch, Push, Feed, UrlChar.Next;
    var s := Reached(c.p, t, n - 1);
    NeverStart(s, t[n - 1]);
    assert t[..n] == t[..n - 1] + [t[n - 1]];
    if n == 1 {
      assert t[..1] == [t[0]];
      TargetByte(c.p, UrlStart, t[0]);
      FirstOfTarget(c, t, skip);
    } else {
      TargetText(c, t, n - 1, skip);
      if s.UrlDead? {
        DeadStays(t[n - 1]);
        FeedAppend(c, t[..n - 1], [t[n - 1]], skip);
      } else {
        NextOfTarget(c, t, n, skip);
      }
    }
  }

  lemma FirstOfTarget(c: Core, t: string, skip: Skip)
    requires AtTarget(c) && Unbroken(t) && t != ""
    ensures if Reached(c.p, t, 1).UrlDead? then Feed(c, [t[0]], skip).why.Failed?
            else Reads(c, [t[0]], skip, InTarget(c, t, 1))
  {
    hide Dispatch, Push, UrlChar.Next;
    assert t[..1] == [t[0]];
    TargetByte(c.p, UrlStart, t[0]);
    assert UrlChar.After(Start(c.p.httpMethod == Connect), t, 0) == Start(c.p.httpMethod == Connect);
    assert Reached(c.p, t, 1) == UrlChar.Next(Start(c.p.httpMethod == Connect), t[0]);
    if !Reached(c.p, t, 1).UrlDead? { ReadsByte(c, t[0], skip); }
  }

  lemma NextOfTarget(c: Core, t: string, n: nat, skip: Skip)
    requires AtTarget(c) && Unbroken(t) && 1 < n <= |t|
    requires Reads(c, t[..n - 1], skip, InTarget(c, t, n - 1)) && Reached(c.p, t, n - 1) != UrlStart
    ensures if Reached(c.p, t, n).UrlDead? then Feed(c, t[..n], skip).why.Failed?
            else Reads(c, t[..n], skip, InTarget(c, t, n))
  {
    hide Dispatch, Push, UrlChar.Next;
    var c1, ch := InTarget(c, t, n - 1), t[n - 1];
    assert t[..n] == t[..n - 1] + [ch];
    TargetByte(c1.p, Reached(c.p, t, n - 1), ch);
    ReadsThen(c, t[..n - 1], c1, [ch], skip);
    if !Reached(c.p, t, n).UrlDead? {
      PushText(c.seen, OnUrl, t[..n - 1], [ch]);
      ReadsByte(c1, ch, skip);
    }
  }

  /** The bytes that end a target: a space, or the end of the line of a simple request. */
  predicate EndsTarget(e: char) {
    e == ' ' || e == CR || e == LF
  }

  /** The parser after the target; a simple request has no version, and counts as version 0.9. */
  function AfterTarget(p: Parser, e: char): Parser {
    if e == ' ' then p.(state := Request(ReqHttpStart))
    else p.(httpMajor := 0, httpMinor := 9, state := if e == CR then Request(ReqLineAlmostDone) else Name(FieldStart))
  }

  /** A target may not end inside "schema://": if it starts with a schema, it goes on after the slashes. */
  predicate Whole(t: string, connect: bool) {
    var l := Split(t, connect); l.absolute ==> |t| > l.schema + 3
  }

  /** The states in which a target cannot end are those of one that is not whole. */
  lemma OpenExact(t: string, connect: bool)
    requires t != ""
    ensures var l := Split(t, connect); UrlOpen(Expected(t, connect, l, |t|)) <==> !Whole(t, connect)
  {
    hide Find, SkipHashes;
  }

  /** A target, up to the byte that ends it, is accepted exactly when the first pass of the URL splitter accepts it
      and it does not end inside "schema://"; on_url then delivers the target, whole. */
  lemma TargetExact(c: Core, t: string, e: char, skip: Skip)
    requires AtTarget(c) && Unbroken(t) && t != "" && EndsTarget(e)
    ensures var connect := c.p.httpMethod == Connect;
            var o := Feed(c, t + [e], skip);
            if Legal(t, Split(t, connect)) && Whole(t, connect) then
              o == Outcome(Core(AfterTarget(c.p, e), Push(c.seen, Text(OnUrl, t))), "", Drained)
            else o.why.Failed?
  {
    hide Dispatch, Push, UrlChar.Next, LegalAt, Expected, Split, Feed, UrlOpen, Whole;
    var connect := c.p.httpMethod == Connect;
    ScanExact(t, connect, |t|);
    OpenExact(t, connect);
    NeverExpected(t, connect, Split(t, connect), |t|);
    TargetText(c, t, |t|, skip);
    assert t[..|t|] == t;
    FeedAppend(c, t, [e], skip);
    if Reads(c, t, skip, InTarget(c, t, |t|)) { TargetEnds(InTarget(c, t, |t|), c.seen, t, e, skip); }
  }

  lemma TargetEnds(c: Core, past: History, t: string, e: char, skip: Skip)
    requires c.p.state.Url? && !c.p.state.url.UrlStart? && c.seen == Push(past, Text(OnUrl, t)) && EndsTarget(e)
    ensures var o := Feed(c, [e], skip);
            if UrlOpen(c.p.state.url) then o.why.Failed?
            else o == Outcome(Core(AfterTarget(c.p, e), c.seen), "", Drained)
  {
    hide LeadByte, ResponseByte, MethodByte, RequestByte, NameByte, DiscardByte, ValueByte, EndByte, ChunkByte,
      BodyByte;
    PushNothing(c.seen, OnUrl);
    assert [e][1..] == "";
    if !UrlOpen(c.p.state.url) {
      assert Apply(c, e, skip) == Core(AfterTarget(c.p, e), c.seen);
      ReadsByte(c, e, skip);
    }
  }
}
