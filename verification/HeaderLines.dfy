/** Whole header lines and blocks of them: what is signalled, and what they set, as a function of the name and the
    value that were sent. */
module HeaderLines {
  import opened Chars
  import opened ParserTypes
  import opened Machine
  import opened Stream
  import opened Invariant
  import opened Bodies
  import opened Chunked
  import opened Names
  import opened Values
  import opened ConnectionLists

  // ---- the white space before a value ----

  /** Spaces and tabs, and line ends that a space or tab follows. */
  predicate IsBlanks(s: string)
    decreases |s|
  {
    || s == ""
    || (White(s[0]) && IsBlanks(s[1..]))
    || (|s| > 1 && s[0] == LF && White(s[1]) && IsBlanks(s[2..]))
    || (|s| > 2 && s[0] == CR && s[1] == LF && White(s[2]) && IsBlanks(s[3..]))
  }

  /** Bytes that lead back to where they started. */
  lemma Again(c: Core, a: string, b: string, skip: Skip)
    requires Reads(c, a, skip, c) && Reads(c, b, skip, c)
    ensures Reads(c, a + b, skip, c)
  {
    hide Reads;
    ReadsMore(c, a, c, b, c, skip);
  }

  lemma WhiteStep(c: Core, ch: char, skip: Skip)
    requires c.p.state == Discard(DiscardWs) && White(ch)
    ensures Reads(c, [ch], skip, c)
  {
    hide FirstByte, LeadByte, ResponseByte, MethodByte, UrlByte, RequestByte, NameByte, ValueByte, EndByte, ChunkByte,
      BodyByte;
    assert Apply(c, ch, skip) == c;
    ReadsByte(c, ch, skip);
  }

  /** A line end before the value. */
  lemma EolStep(c: Core, e: string, skip: Skip)
    requires c.p.state == Discard(DiscardWs) && IsEol(e)
    ensures Reads(c, e, skip, Core(c.p.(state := Discard(DiscardLws)), c.seen))
  {
    hide FirstByte, LeadByte, ResponseByte, MethodByte, UrlByte, RequestByte, NameByte, ValueByte, EndByte, ChunkByte,
      BodyByte;
    var c1 := Core(c.p.(state := Discard(DiscardWsAlmostDone)), c.seen);
    var c2 := Core(c.p.(state := Discard(DiscardLws)), c.seen);
    if e == CRLF {
      assert Apply(c, CR, skip) == c1 && Apply(c1, LF, skip) == c2;
      ReadsByte(c, CR, skip);
      ReadsByte(c1, LF, skip);
      ReadsMore(c, [CR], c1, [LF], c2, skip);
      assert CRLF == [CR] + [LF];
    } else {
      assert Apply(c, LF, skip) == c2;
      ReadsByte(c, LF, skip);
    }
  }

  /** A line end and the space or tab that follows it. */
  lemma FoldStep(c: Core, e: string, ch: char, skip: Skip)
    requires c.p.state == Discard(DiscardWs) && IsEol(e) && White(ch)
    ensures Reads(c, e + [ch], skip, c)
  {
    hide IsEol, FirstByte, LeadByte, ResponseByte, MethodByte, UrlByte, RequestByte, NameByte, ValueByte, EndByte,
      ChunkByte, BodyByte;
    var c2 := Core(c.p.(state := Discard(DiscardLws)), c.seen);
    EolStep(c, e, skip);
    assert Apply(c2, ch, skip) == c;
    ReadsByte(c2, ch, skip);
    ReadsMore(c, e, c2, [ch], c, skip);
  }

  lemma {:induction false} ReadsBlanks(c: Core, s: string, skip: Skip)
    requires c.p.state == Discard(DiscardWs) && IsBlanks(s)
    ensures Reads(c, s, skip, c)
    decreases |s|
  {
    hide Feed;
    if s == "" {
      NothingRead(c, skip);
    } else if White(s[0]) && IsBlanks(s[1..]) {
      WhiteStep(c, s[0], skip);
      ReadsBlanks(c, s[1..], skip);
      Again(c, [s[0]], s[1..], skip);
      assert s == [s[0]] + s[1..];
    } else if |s| > 1 && s[0] == LF && White(s[1]) && IsBlanks(s[2..]) {
      FoldStep(c, [LF], s[1], skip);
      ReadsBlanks(c, s[2..], skip);
      Again(c, [LF] + [s[1]], s[2..], skip);
      assert s == [LF] + [s[1]] + s[2..];
    } else {
      FoldStep(c, CRLF, s[2], skip);
      ReadsBlanks(c, s[3..], skip);
      Again(c, CRLF + [s[2]], s[3..], skip);
      assert s == CRLF + [s[2]] + s[3..];
    }
  }

  lemma NothingRead(c: Core, skip: Skip)
    ensures Reads(c, "", skip, c)
  {
  }

  /** A line without a value: an empty value is reported, and nothing is set. */
  lemma EmptyValue(c: Core, e: string, d: string, skip: Skip)
    requires c.p.state == Discard(DiscardWs) && IsEol(e) && NextLine(d)
    ensures Feed(c, e + d, skip) ==
            Feed(Core(c.p.(flags := Recognised(c.p.flags, c.p.hstate), state := Name(FieldStart)),
                      Push(c.seen, Text(OnHeaderValue, ""))), d, skip)
  {
    hide IsEol, Feed, Push;
    var c2 := Core(c.p.(state := Discard(DiscardLws)), c.seen);
    EolStep(c, e, skip);
    ReadsThen(c, e, c2, d, skip);
    EmptyEnds(c2, d, skip);
  }

  lemma EmptyEnds(c: Core, d: string, skip: Skip)
    requires c.p.state == Discard(DiscardLws) && NextLine(d)
    ensures Feed(c, d, skip) ==
            Feed(Core(c.p.(flags := Recognised(c.p.flags, c.p.hstate), state := Name(FieldStart)),
                      Push(c.seen, Text(OnHeaderValue, ""))), d, skip)
  {
    hide FirstByte, Recognised, Push, LeadByte, ResponseByte, MethodByte, UrlByte, RequestByte, NameByte, ValueByte,
      EndByte, ChunkByte, BodyByte;
    assert Dispatch(c.p, d[0]).next.Redo?;
    assert Apply(c, d[0], skip) ==
           Core(c.p.(flags := Recognised(c.p.flags, c.p.hstate), state := Name(FieldStart)),
             Push(c.seen, Text(OnHeaderValue, "")));
  }

  // ---- one line ----

  /** A header line; `blanks` stands between the colon and the value, which may be empty. */
  datatype Line = Line(name: string, blanks: string, value: string, eol: string)

  predicate IsLine(x: Line) {
    x.name != "" && IsToken(x.name) && IsBlanks(x.blanks) && (x.value == "" || IsValue(x.value)) && IsEol(x.eol)
  }

  function Rendered(x: Line): string {
    x.name + ":" + (x.blanks + (x.value + x.eol))
  }

  /** What a line sets. */
  datatype Effect = Refused | Sets(flags: Flags, length: nat)

  /** What a header sets, by its meaning and its value. */
  function EffectOf(f: Flags, n: nat, m: Meaning, v: string): Effect {
    if v == "" then Sets(f, n)
    else match m
      case Plain => Sets(f, n)
      case Means(Upgrade) => Sets(f.(upgrade := true), n)
      case Means(TransferEncoding) => Sets(f.(chunked := f.chunked || Spells("chunked", v)), n)
      case Means(Connection) => Sets(WithOptions(f, Effective(Elements(v))), n)
      case Means(ContentLength) =>
        var r := if IsNum(v[0]) then LengthFrom(0, v) else -1;
        if 0 <= r <= LENGTH_LIMIT then Sets(f, r) else Refused
  }

  function LineEffect(p: Parser, x: Line): Effect {
    EffectOf(p.flags, p.contentLength, MeaningOf(Lowered(x.name)), x.value)
  }

  /** The parser after a line that is not refused. */
  function LineRead(p: Parser, x: Line): Parser
    requires x.name != ""
  {
    var h := Headed(p, x.name);
    if x.value == "" then h.(flags := Recognised(h.flags, h.hstate), state := Name(FieldStart))
    else if h.hstate == Named(ContentLength) then
      var r := LengthFrom(0, x.value);
      h.(state := Name(FieldStart), index := 0, contentLength := if r < 0 then 0 else r)
    else Settled(ValueRead(h, x.value))
  }

  /** Only the flags and content_length, and the two matchers' own fields, can change. */
  predicate SetBy(p: Parser, q: Parser, e: Effect) {
    && e.Sets?
    && q == p.(flags := e.flags, contentLength := e.length, state := Name(FieldStart),
               index := q.index, hstate := q.hstate)
  }

  lemma HeadedFrame(p: Parser, name: string)
    requires name != ""
    ensures var h := Headed(p, name); h == p.(index := h.index, hstate := h.hstate, state := Discard(DiscardWs))
  {
    hide NameFold, FirstName, Token;
    FoldFrame(p.(index := 0, hstate := FirstName(Token(name[0])), state := Name(FieldText)), name[1..]);
  }

  lemma {:induction false} FoldSame(p: Parser, s: string)
    ensures var q := ValueFold(p, s); q == p.(flags := q.flags, index := q.index, hstate := q.hstate)
    decreases |s|
  {
    if s != "" {
      TokenSame(p, s[0]);
      hide ValueToken;
      FoldSame(ValueToken(p, s[0]), s[1..]);
    }
  }

  lemma TokenSame(p: Parser, ch: char)
    ensures var q := ValueToken(p, ch); q == p.(flags := q.flags, index := q.index, hstate := q.hstate)
  {
    hide Match, StartToken, Lower, Recognised;
  }

  lemma ReadSame(p: Parser, v: string)
    requires v != "" && p.hstate != Named(ContentLength)
    ensures var q := ValueRead(p, v);
            q == p.(flags := q.flags, index := q.index, hstate := q.hstate, state := Value(ValueText))
  {
    hide ValueFold, FirstValue, Lower;
    FoldSame(FirstByte(p, v[0]).p, v[1..]);
  }

  /** What the value sets, from the header state that the name has left. */
  lemma ValueEffect(h: Parser, m: Meaning, v: string)
    requires IsValue(v) && h.hstate != Named(ContentLength)
    requires if m.Means? then h.hstate == Named(m.header) else h.hstate.General? || h.hstate.Naming?
    ensures SetBy(h, Settled(ValueRead(h, v)), EffectOf(h.flags, h.contentLength, m, v))
  {
    hide ValueRead, Effective, Elements, WithOptions, Recognised, Spells;
    ReadSame(h, v);
    match m
    case Plain => PlainFlags(h, v);
    case Means(Upgrade) => PlainFlags(h, v);
    case Means(TransferEncoding) => TransferEncodingFlags(h, v);
    case Means(Connection) => ConnectionFlags(h, v);
    case _ =>
  }

  lemma LineSets(p: Parser, x: Line)
    requires IsLine(x) && Classified(Headed(p, x.name).hstate, Lowered(x.name)) && LineEffect(p, x).Sets?
    ensures SetBy(p, LineRead(p, x), LineEffect(p, x))
  {
    hide Headed, ValueRead, Lowered, MeaningOf, Effective, Elements, WithOptions, Spells, IsBlanks, IsToken;
    var h, m := Headed(p, x.name), MeaningOf(Lowered(x.name));
    HeadedFrame(p, x.name);
    if x.value != "" && h.hstate != Named(ContentLength) {
      ValueEffect(h, m, x.value);
    }
  }

  /** A header line, whole: the name and the value are reported, without the white space between them, and the
      flags and content_length are what the name, in any case, and the value mean; or the line is refused, as a
      content length that is none. */
  lemma HeaderLine(c: Core, x: Line, d: string, skip: Skip)
    requires c.p.state == Name(FieldStart) && IsLine(x) && NextLine(d)
    ensures if LineEffect(c.p, x).Refused? then RefusesLength(Feed(c, Rendered(x) + d, skip))
            else
              && Feed(c, Rendered(x) + d, skip) == Feed(Core(LineRead(c.p, x), LineSeen(c.seen, x)), d, skip)
              && SetBy(c.p, LineRead(c.p, x), LineEffect(c.p, x))
  {
    hide Feed, Reads, Push, Headed, IsBlanks, IsToken, IsEol, NoBreak, LineRead, LineEffect, Classified, Lowered;
    var c1 := Core(Headed(c.p, x.name), Push(c.seen, Text(OnHeaderField, x.name)));
    NameLine(c, x.name, skip);
    HeadedFrame(c.p, x.name);
    ReadsBlanks(c1, x.blanks, skip);
    ReadsMore(c, x.name + ":", c1, x.blanks, c1, skip);
    var tail := x.value + x.eol + d;
    ReadsThen(c, x.name + ":" + x.blanks, c1, tail, skip);
    assert Rendered(x) + d == x.name + ":" + x.blanks + tail;
    if LineEffect(c.p, x).Sets? { LineSets(c.p, x); }
    ValuePart(c.p, c1, x, d, skip);
  }

  /** What a line signals. */
  function LineSeen(t: History, x: Line): History {
    Push(Push(t, Text(OnHeaderField, x.name)), Text(OnHeaderValue, x.value))
  }

  /** The line after its colon and white space. */
  lemma ValuePart(p: Parser, c: Core, x: Line, d: string, skip: Skip)
    requires IsLine(x) && NextLine(d) && c.p == Headed(p, x.name) && c.p.state == Discard(DiscardWs)
    requires Classified(c.p.hstate, Lowered(x.name)) && c.p.flags == p.flags && c.p.contentLength == p.contentLength
    ensures if LineEffect(p, x).Refused? then RefusesLength(Feed(c, x.value + x.eol + d, skip))
            else Feed(c, x.value + x.eol + d, skip) ==
                 Feed(Core(LineRead(p, x), Push(c.seen, Text(OnHeaderValue, x.value))), d, skip)
  {
    hide Feed, Push, Headed, IsBlanks, IsToken, IsEol, NoBreak, ValueRead, Settled, Lowered, Effective, Elements,
      WithOptions, Spells, RefusesLength, Recognised;
    if x.value == "" {
      EmptyValue(c, x.eol, d, skip);
      assert x.value + x.eol + d == x.eol + d;
    } else if c.p.hstate == Named(ContentLength) {
      LengthMeaning(x.name, c.p.hstate);
      ContentLengthLine(c, x.value, x.eol, d, skip);
    } else {
      ValueLine(c, x.value, x.eol, d, skip);
      OtherMeaning(x.name, c.p.hstate);
    }
  }

  lemma LengthMeaning(name: string, h: HState)
    requires Classified(h, Lowered(name)) && h == Named(ContentLength)
    ensures MeaningOf(Lowered(name)) == Means(ContentLength)
  {
    hide Lowered;
  }

  lemma OtherMeaning(name: string, h: HState)
    requires Classified(h, Lowered(name)) && h != Named(ContentLength)
    ensures MeaningOf(Lowered(name)) != Means(ContentLength)
  {
    hide Lowered;
  }

  // ---- continuation lines ----

  /** A line that starts with a space or tab continues the value. It is reported as more text of the value, and it
      loses what the value was about to set, unless the value ends in a comma that starts an element. A content
      length cannot be continued. */
  lemma Continuation(c: Core, w: string, e: string, skip: Skip)
    requires c.p.state == Value(ValueLws) && ValueStates(c.p.hstate)
    requires w != "" && White(w[0]) && NoBreak(w) && IsEol(e)
    ensures if c.p.hstate == Named(ContentLength) then RefusesLength(Feed(c, w + e, skip))
            else
              var q := ValueRead(c.p, w);
              && Reads(c, w + e, skip, Core(q.(state := Value(ValueLws)), Push(c.seen, Text(OnHeaderValue, w))))
              && Settled(q).flags ==
                 if c.p.hstate == Valuing(TokenStart) then WithOptions(c.p.flags, Later(StripAll(Items(w[1..]))))
                 else c.p.flags
  {
    hide Feed, Push, ValueRead, Settled, Items, StripAll, Later, WithOptions, IsEol, RefusesLength, NoBreak;
    var c1 := Core(c.p.(state := Value(ValueStart)), c.seen);
    assert w + e != "" && (w + e)[0] == w[0];
    ContinuesAt(c, w + e, skip);
    if c.p.hstate == Named(ContentLength) {
      NoDigit(c1, w + e, skip);
    } else {
      StartByte(c1.p, w[0]);
      ReadsText(c1, w, skip);
      StartSame(c.p, w);
      var c2 := Core(ValueRead(c1.p, w), Push(c.seen, Text(OnHeaderValue, w)));
      PushEnds(c.seen, OnHeaderValue, w);
      LineEnds(c2, e, skip);
      ReadsMore(c1, w, c2, e, Core(c2.p.(state := Value(ValueLws)), c2.seen), skip);
      ContinuationFlags(c.p, w);
    }
  }

  lemma ContinuesAt(c: Core, d: string, skip: Skip)
    requires c.p.state == Value(ValueLws) && d != "" && White(d[0])
    ensures Feed(c, d, skip) == Feed(Core(c.p.(state := Value(ValueStart)), c.seen), d, skip)
  {
    hide FirstByte, LeadByte, ResponseByte, MethodByte, UrlByte, RequestByte, NameByte, DiscardByte, EndByte,
      ChunkByte, BodyByte;
    assert Apply(c, d[0], skip) == Core(c.p.(state := Value(ValueStart)), c.seen);
  }

  lemma StartByte(p: Parser, ch: char)
    requires p.state == Value(ValueStart)
    ensures Dispatch(p, ch) == FirstByte(p, ch)
  {
    hide FirstByte;
  }

  lemma NoDigit(c: Core, d: string, skip: Skip)
    requires c.p.state == Value(ValueStart) && c.p.hstate == Named(ContentLength) && d != "" && White(d[0])
    ensures RefusesLength(Feed(c, d, skip))
  {
    hide LeadByte, ResponseByte, MethodByte, UrlByte, RequestByte, NameByte, DiscardByte, EndByte, ChunkByte, BodyByte;
  }

  /** The state does not matter to the first byte of a value. */
  lemma StartSame(p: Parser, w: string)
    requires w != ""
    ensures ValueRead(p.(state := Value(ValueStart)), w) == ValueRead(p, w)
  {
    hide ValueFold, FirstValue, Lower;
  }

  lemma ContinuationFlags(p: Parser, w: string)
    requires ValueStates(p.hstate) && p.hstate != Named(ContentLength) && w != "" && White(w[0])
    ensures Settled(ValueRead(p, w)).flags ==
            if p.hstate == Valuing(TokenStart) then WithOptions(p.flags, Later(StripAll(Items(w[1..])))) else p.flags
  {
    hide ValueFold, WithOptions, Items, StripAll, Later, Tail, Lower;
    var q := FirstByte(p, w[0]).p;
    if p.hstate == Valuing(TokenStart) {
      ItemsExact(w[1..]);
      TailFlags(q, Items(w[1..]));
      assert [Items(w[1..])[0]] + Items(w[1..])[1..] == Items(w[1..]);
    } else {
      GeneralFold(q, w[1..]);
    }
  }

  // ---- blocks of lines ----

  function LinesText(xs: seq<Line>): string {
    if xs == [] then "" else Rendered(xs[0]) + LinesText(xs[1..])
  }

  /** What the lines set together. */
  function LinesEffect(f: Flags, n: nat, xs: seq<Line>): Effect
    decreases |xs|
  {
    if xs == [] then Sets(f, n)
    else match EffectOf(f, n, MeaningOf(Lowered(xs[0].name)), xs[0].value)
      case Refused => Refused
      case Sets(f', n') => LinesEffect(f', n', xs[1..])
  }

  predicate AreLines(xs: seq<Line>) {
    forall i :: 0 <= i < |xs| ==> IsLine(xs[i])
  }

  function LinesRead(p: Parser, xs: seq<Line>): Parser
    requires AreLines(xs)
    decreases |xs|
  {
    if xs == [] then p else LinesRead(LineRead(p, xs[0]), xs[1..])
  }

  function LinesSeen(t: History, xs: seq<Line>): History
    decreases |xs|
  {
    if xs == [] then t else LinesSeen(LineSeen(t, xs[0]), xs[1..])
  }

  /** The start of a line is a name. */
  lemma LinesNext(xs: seq<Line>, d: string)
    requires AreLines(xs) && NextLine(d)
    ensures NextLine(LinesText(xs) + d)
  {
    if xs != [] {
      assert IsLine(xs[0]);
      assert (LinesText(xs) + d)[0] == xs[0].name[0];
      NameNotWhite(xs[0].name);
    }
  }

  lemma LineNamed(x: Line)
    requires IsLine(x)
    ensures x.name != ""
  {
  }

  lemma NameNotWhite(name: string)
    requires name != "" && IsToken(name)
    ensures !White(name[0])
  {
  }

  /** A block of header lines: every line is reported in order, and the flags and content_length are what the lines
      set one after the other; or one of the content lengths is refused. */
  lemma {:induction false} HeaderBlock(c: Core, xs: seq<Line>, d: string, skip: Skip)
    requires c.p.state == Name(FieldStart) && AreLines(xs) && NextLine(d)
    ensures var effect := LinesEffect(c.p.flags, c.p.contentLength, xs);
            if effect.Refused? then RefusesLength(Feed(c, LinesText(xs) + d, skip))
            else
              && Feed(c, LinesText(xs) + d, skip) == Feed(Core(LinesRead(c.p, xs), LinesSeen(c.seen, xs)), d, skip)
              && SetBy(c.p, LinesRead(c.p, xs), effect)
    decreases |xs|
  {
    hide Feed, IsLine, Rendered, LineRead, LineSeen, EffectOf, RefusesLength, NextLine, Lowered, MeaningOf;
    if xs == [] {
      assert LinesText(xs) + d == d;
    } else {
      var rest := LinesText(xs[1..]) + d;
      LineNamed(xs[0]);
      LinesNext(xs[1..], d);
      HeaderLine(c, xs[0], rest, skip);
      assert LinesText(xs) + d == Rendered(xs[0]) + rest;
      if LineEffect(c.p, xs[0]).Sets? {
        HeaderBlock(Core(LineRead(c.p, xs[0]), LineSeen(c.seen, xs[0])), xs[1..], d, skip);
      }
    }
  }

  /** The parser at the end of a header block, once on_headers_complete has been called. */
  function BlockRead(c: Core, skip: Skip): Core {
    var p := c.p.(upgrade := WantsUpgrade(c.p), state := End(HeadersDone));
    var t := Push(c.seen, Note(OnHeadersComplete, c.p.contentLength));
    Core(if skip(t) then p.(flags := p.flags.(skipBody := true)) else p, t)
  }

  /** The end of a header block, an empty line that may be a LF alone: its flags are what on_headers_complete sees.
      The LF is looked at again. */
  lemma BlockEnds(c: Core, e: string, d: string, skip: Skip)
    requires c.p.state == Name(FieldStart) && !c.p.flags.trailing && IsEol(e)
    ensures Feed(c, e + d, skip) == Feed(BlockRead(c, skip), [LF] + d, skip)
  {
    hide Feed, BlockRead, IsEol;
    BlockEnd(c, e, skip);
    FeedAppend(c, e, d, skip);
    FeedAppend(BlockRead(c, skip), [LF], d, skip);
  }

  lemma BlockEnd(c: Core, e: string, skip: Skip)
    requires c.p.state == Name(FieldStart) && !c.p.flags.trailing && IsEol(e)
    ensures Feed(c, e, skip) == Feed(BlockRead(c, skip), [LF], skip)
  {
    hide Push, LeadByte, ResponseByte, MethodByte, UrlByte, RequestByte, DiscardByte, ValueByte, ChunkByte, BodyByte,
      StartBody;
    var c1 := Core(c.p.(state := End(HeadersAlmostDone)), c.seen);
    assert Dispatch(c1.p, LF).next.Redo? && [LF][0] == LF;
    assert Feed(c1, [LF], skip) == Feed(BlockRead(c, skip), [LF], skip);
    if e == CRLF {
      assert CRLF[0] == CR && CRLF[1..] == [LF];
      assert Apply(c, CR, skip) == c1;
    } else {
      assert Apply(c, LF, skip) == c1 && Dispatch(c.p, LF).next.Redo?;
    }
  }
}
