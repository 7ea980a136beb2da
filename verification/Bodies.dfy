/** Message framing: what the body states deliver of the stream (sections 3.3.3 and 4.1 of RFC 7230). */
module Bodies {
  import opened Chars
  import opened ParserTypes
  import opened Machine
  import opened Stream
  import opened Invariant
  import opened Bulk

  /** A piece of input that the parser reads to its end. */
  ghost predicate Reads(c: Core, d: string, skip: Skip, c': Core) {
    Feed(c, d, skip) == Outcome(c', "", Drained)
  }

  lemma ReadsThen(c: Core, a: string, c1: Core, b: string, skip: Skip)
    requires Reads(c, a, skip, c1)
    ensures Feed(c, a + b, skip) == Feed(c1, b, skip)
  {
    hide Feed;
    FeedAppend(c, a, b, skip);
  }

  lemma ReadsByte(c: Core, ch: char, skip: Skip)
    requires Dispatch(c.p, ch).next.Eat?
    ensures Reads(c, [ch], skip, Apply(c, ch, skip))
  {
    hide Dispatch, Apply;
    assert Feed(Apply(c, ch, skip), [ch][1..], skip) == Outcome(Apply(c, ch, skip), "", Drained);
  }

  // ---- Content-Length bodies ----

  function MessageEnded(p: Parser): Parser {
    p.(state := Lead(NewMessage(p)))
  }

  /** Where a run goes on once a message is complete: with the next message, unless it was upgraded. */
  ghost function NextMessage(p: Parser, seen: History, rest: string, skip: Skip): Outcome {
    var c := Core(MessageEnded(p), Push(seen, Note(OnMessageComplete, p.contentLength)));
    if p.upgrade then Outcome(c, rest, Upgraded) else Feed(c, rest, skip)
  }

  lemma DoneByte(c: Core, d: string, skip: Skip)
    requires c.p.state == Body(MessageDone) && d != []
    ensures Feed(c, d, skip) == NextMessage(c.p, c.seen, d[1..], skip)
  {
    hide LeadByte, ResponseByte, MethodByte, UrlByte, RequestByte, NameByte, DiscardByte, ValueByte, EndByte, ChunkByte,
      NewMessage;
    hide Push;
  }

  /** An identity body of N bytes delivers exactly the next N bytes, completes the message on the last
      of them, and leaves the byte after it to the next message. */
  lemma IdentityBody(c: Core, d: string, skip: Skip)
    requires c.p.state == Body(Identity) && Inv(c.p) && c.p.contentLength <= |d|
    ensures var n := c.p.contentLength;
            Feed(c, d, skip) ==
            NextMessage(c.p.(contentLength := 0), Push(c.seen, Text(OnBody, d[..n])), d[n..], skip)
  {
    hide Feed, Dispatch, NumbersFit, HeaderFits, KindFits, Push;
    var n := c.p.contentLength;
    CountedRun(c, d, n - 1, skip);
    var c1 := Core(c.p.(contentLength := 1), Appended(c.seen, OnBody, d[..n - 1]));
    LastByte(c1, d[n - 1..], skip);
    assert d[n - 1..][0] == d[n - 1] && d[n - 1..][1..] == d[n..];
    var t := Push(c1.seen, Text(OnBody, [d[n - 1]]));
    assert t == Push(c.seen, Text(OnBody, d[..n])) by { AppendedLast(c.seen, OnBody, d, n); }
    DoneByte(Core(c.p.(contentLength := 0, state := Body(MessageDone)), t), d[n - 1..], skip);
  }

  lemma AppendedLast(t: History, h: Hook, d: string, n: nat)
    requires 0 < n <= |d|
    ensures Push(Appended(t, h, d[..n - 1]), Text(h, [d[n - 1]])) == Push(t, Text(h, d[..n]))
  {
    assert d[..n] == d[..n - 1] + [d[n - 1]];
    if n > 1 { PushText(t, h, d[..n - 1], [d[n - 1]]); } else { assert d[..n - 1] == ""; assert d[..n] == [d[0]]; }
  }

  lemma LastByte(c: Core, d: string, skip: Skip)
    requires c.p.state == Body(Identity) && c.p.contentLength == 1 && d != []
    ensures Feed(c, d, skip) ==
            Feed(Core(c.p.(contentLength := 0, state := Body(MessageDone)), Push(c.seen, Text(OnBody, [d[0]]))), d,
              skip)
  {
    hide LeadByte, ResponseByte, MethodByte, UrlByte, RequestByte, NameByte, DiscardByte, ValueByte, EndByte, ChunkByte;
    PushNothing(Push(c.seen, Text(OnBody, [d[0]])), OnBody);
    assert Apply(c, d[0], skip) ==
      Core(c.p.(contentLength := 0, state := Body(MessageDone)), Push(c.seen, Text(OnBody, [d[0]])));
  }

  /** A shorter piece of the stream is body as a whole. */
  lemma IdentityPart(c: Core, d: string, skip: Skip)
    requires c.p.state == Body(Identity) && |d| < c.p.contentLength
    ensures Reads(c, d, skip, Core(c.p.(contentLength := c.p.contentLength - |d|), Appended(c.seen, OnBody, d)))
  {
    hide Dispatch;
    CountedRun(c, d, |d|, skip);
    assert d[..|d|] == d && d[|d|..] == "";
  }

  /** A message framed by Content-Length N > 0: the N bytes after the header block's last LF are its body. */
  lemma LengthFramed(c: Core, body: string, rest: string, skip: Skip)
    requires c.p.state == End(HeadersDone) && Inv(c.p)
    requires !c.p.flags.chunked && !c.p.flags.skipBody && !c.p.upgrade && 0 < c.p.contentLength < ULLONG_MAX
    requires |body| == c.p.contentLength
    ensures Feed(c, [LF] + body + rest, skip) ==
            NextMessage(c.p.(contentLength := 0), Push(c.seen, Text(OnBody, body)), rest, skip)
  {
    hide LeadByte, ResponseByte, MethodByte, UrlByte, RequestByte, NameByte, DiscardByte, ValueByte, BodyByte,
      ChunkByte, Feed, Inv, NewMessage, Push, NextMessage;
    var c1 := Core(c.p.(state := Body(Identity)), c.seen);
    assert Apply(c, LF, skip) == c1;
    ApplyKeeps(c, LF, skip);
    ReadsByte(c, LF, skip);
    ReadsThen(c, [LF], c1, body + rest, skip);
    assert [LF] + body + rest == [LF] + (body + rest);
    IdentityBody(c1, body + rest, skip);
    assert (body + rest)[..|body|] == body && (body + rest)[|body|..] == rest;
    NextMessageState(c.p.(contentLength := 0), c1.p.(contentLength := 0), Push(c.seen, Text(OnBody, body)), rest, skip);
  }

  lemma NextMessageState(p: Parser, q: Parser, seen: History, rest: string, skip: Skip)
    requires q == p.(state := q.state)
    ensures NextMessage(p, seen, rest, skip) == NextMessage(q, seen, rest, skip)
  {
    hide Feed;
  }

  // ---- numbers ----

  predicate AllHex(s: string) {
    forall i :: 0 <= i < |s| ==> Unhex(s[i]) >= 0
  }

  /** The value of a number that starts with `v` and goes on with the hexadecimal digits `s`. */
  function HexFrom(v: nat, s: string): (r: nat)
    requires AllHex(s)
    ensures r >= v
    decreases |s|
  {
    if s == "" then v else HexFrom(v * 16 + Unhex(s[0]), s[1..])
  }

  /** A chunk size that goes on with `s` is its true value up to 2^64 - 17, and is refused beyond. */
  lemma {:induction false} SizeDigits(c: Core, s: string, skip: Skip)
    requires c.p.state == Chunk(Size) && AllHex(s) && c.p.contentLength <= ULLONG_MAX - 16
    ensures var v := HexFrom(c.p.contentLength, s);
            if v <= ULLONG_MAX - 16 then Reads(c, s, skip, Core(c.p.(contentLength := v), c.seen))
            else Feed(c, s, skip).why.Failed? && Feed(c, s, skip).c.p.errno.HpeInvalidContentLength?
    decreases |s|
  {
    hide LeadByte, ResponseByte, MethodByte, UrlByte, RequestByte, NameByte, DiscardByte, ValueByte, EndByte, BodyByte,
      Unhex, Push;
    if s != "" {
      NoUnhex(s[0]);
      var v := c.p.contentLength * 16 + Unhex(s[0]);
      if c.p.contentLength <= (ULLONG_MAX - 16) / 16 {
        var c1 := Core(c.p.(contentLength := v), c.seen);
        assert Apply(c, s[0], skip) == c1;
        SizeDigits(c1, s[1..], skip);
      }
    }
  }

  lemma NoUnhex(ch: char)
    ensures Unhex(ch) >= 0 ==> ch != CR && Unhex(ch) != -1
  {
  }
}
