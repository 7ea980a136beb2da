/** Header values: what a value line does to the flags and to content_length. */
module Values {
  import opened Chars
  import opened Alphabets
  import opened ParserTypes
  import opened Machine
  import opened Stream
  import opened Bodies
  import opened Chunked
  import opened Names

  predicate NoBreak(s: string) {
    forall i :: 0 <= i < |s| ==> s[i] != CR && s[i] != LF
  }

  predicate White(ch: char) {
    ch == ' ' || ch == '\t'
  }

  /** A header value without the white space before it. */
  predicate IsValue(v: string) {
    v != "" && v[0] != ' ' && v[0] != '\t' && NoBreak(v)
  }

  function ValueFold(p: Parser, s: string): Parser
    decreases |s|
  {
    if s == "" then p else ValueFold(ValueToken(p, s[0]), s[1..])
  }

  /** The parser after a value that is no Content-Length. */
  function ValueRead(p: Parser, v: string): Parser
    requires v != ""
  {
    ValueFold(FirstByte(p, v[0]).p, v[1..])
  }

  /** The parser when the next line shows that the value has ended. */
  function Settled(p: Parser): Parser {
    p.(flags := Recognised(p.flags, p.hstate), state := Name(FieldStart))
  }

  predicate NextLine(d: string) {
    d != "" && d[0] != ' ' && d[0] != '\t'
  }

  lemma ValueTokenSteady(p: Parser, ch: char)
    requires p.hstate != Named(ContentLength)
    ensures var q := ValueToken(p, ch); q.state == p.state && q.hstate != Named(ContentLength)
  {
    hide Token, Lower;
  }

  lemma {:induction false} ReadsValue(c: Core, s: string, skip: Skip)
    requires c.p.state == Value(ValueText) && c.p.hstate != Named(ContentLength) && NoBreak(s)
    ensures Reads(c, s, skip, Core(ValueFold(c.p, s), Appended(c.seen, OnHeaderValue, s)))
    ensures ValueFold(c.p, s).state == c.p.state && ValueFold(c.p, s).hstate != Named(ContentLength)
    decreases |s|
  {
    hide ValueToken, LeadByte, ResponseByte, MethodByte, UrlByte, RequestByte, NameByte, DiscardByte, EndByte,
      ChunkByte, BodyByte, Push;
    if s != "" {
      ValueTokenSteady(c.p, s[0]);
      var c1 := Core(ValueToken(c.p, s[0]), Push(c.seen, Text(OnHeaderValue, [s[0]])));
      assert Apply(c, s[0], skip) == c1;
      ReadsValue(c1, s[1..], skip);
      AppendedMore(c.seen, OnHeaderValue, s[1..], s[0]);
      assert s == [s[0]] + s[1..];
    }
  }

  /** A line may end in LF alone. */
  predicate IsEol(e: string) {
    e == CRLF || e == [LF]
  }

  /** The end of a line inside a value. */
  lemma LineEnds(c: Core, e: string, skip: Skip)
    requires c.p.state == Value(ValueText) && Ends(c.seen, OnHeaderValue) && IsEol(e)
    ensures Reads(c, e, skip, Core(c.p.(state := Value(ValueLws)), c.seen))
  {
    hide LeadByte, ResponseByte, MethodByte, UrlByte, RequestByte, NameByte, DiscardByte, EndByte, ChunkByte,
      BodyByte, Push;
    PushNothing(c.seen, OnHeaderValue);
    var c1 := Core(c.p.(state := Value(ValueAlmostDone)), c.seen);
    var c2 := Core(c.p.(state := Value(ValueLws)), c.seen);
    assert Apply(c1, LF, skip) == c2;
    ReadsByte(c1, LF, skip);
    if e == CRLF {
      assert Apply(c, CR, skip) == c1;
      ReadsByte(c, CR, skip);
      ReadsMore(c, [CR], c1, [LF], c2, skip);
      assert CRLF == [CR] + [LF];
    } else {
      assert Apply(c, LF, skip) == c1;
      assert Feed(c, [LF], skip) == Feed(c1, [LF], skip);
    }
  }

  /** The end of a line, and a line that does not continue it. */
  lemma LineBreak(c: Core, e: string, d: string, skip: Skip)
    requires c.p.state == Value(ValueText) && Ends(c.seen, OnHeaderValue) && IsEol(e) && NextLine(d)
    ensures Feed(c, e + d, skip) == Feed(Core(Settled(c.p), c.seen), d, skip)
  {
    hide Feed, Settled, IsEol;
    var c2 := Core(c.p.(state := Value(ValueLws)), c.seen);
    LineEnds(c, e, skip);
    ReadsThen(c, e, c2, d, skip);
    Settles(c2, d, skip);
    assert Settled(c2.p) == Settled(c.p) by { SettledSame(c.p); }
  }

  lemma SettledSame(p: Parser)
    ensures Settled(p.(state := Value(ValueLws))) == Settled(p)
  {
  }

  lemma Settles(c: Core, d: string, skip: Skip)
    requires c.p.state == Value(ValueLws) && NextLine(d)
    ensures Feed(c, d, skip) == Feed(Core(Settled(c.p), c.seen), d, skip)
  {
    hide LeadByte, ResponseByte, MethodByte, UrlByte, RequestByte, NameByte, DiscardByte, EndByte, ChunkByte,
      BodyByte, Recognised;
    assert Apply(c, d[0], skip) == Core(Settled(c.p), c.seen);
    assert Dispatch(c.p, d[0]).next.Redo?;
  }

  /** A value line that is not Content-Length: the value is reported whole, and the flags are those of
      the header machine. */
  lemma ValueLine(c: Core, v: string, e: string, d: string, skip: Skip)
    requires c.p.state == Discard(DiscardWs) && c.p.hstate != Named(ContentLength) && IsValue(v) && IsEol(e)
             && NextLine(d)
    ensures Feed(c, v + e + d, skip) ==
            Feed(Core(Settled(ValueRead(c.p, v)), Push(c.seen, Text(OnHeaderValue, v))), d, skip)
  {
    hide Feed, Reads, Push, ValueToken, Settled, Ends, IsEol, FirstByte;
    var c2 := Core(ValueRead(c.p, v), Push(c.seen, Text(OnHeaderValue, v)));
    FirstByteText(c.p, v[0]);
    FirstInDiscard(c.p, v[0]);
    ReadsText(c, v, skip);
    ReadsThen(c, v, c2, e + d, skip);
    PushEnds(c.seen, OnHeaderValue, v);
    LineBreak(c2, e, d, skip);
    assert v + e + d == v + (e + d);
  }

  /** The text of a value, or of a line that continues it. */
  lemma ReadsText(c: Core, v: string, skip: Skip)
    requires c.p.hstate != Named(ContentLength) && v != "" && NoBreak(v)
    requires Dispatch(c.p, v[0]) == FirstByte(c.p, v[0])
    ensures Reads(c, v, skip, Core(ValueRead(c.p, v), Push(c.seen, Text(OnHeaderValue, v))))
    ensures ValueRead(c.p, v).state == Value(ValueText) && ValueRead(c.p, v).hstate != Named(ContentLength)
  {
    hide Feed, Reads, Push, ValueToken, Dispatch, FirstByte, ValueFold;
    var c1 := Core(FirstByte(c.p, v[0]).p, Push(c.seen, Text(OnHeaderValue, [v[0]])));
    FirstByteText(c.p, v[0]);
    assert Apply(c, v[0], skip) == c1;
    ReadsByte(c, v[0], skip);
    assert NoBreak(v[1..]);
    ReadsValue(c1, v[1..], skip);
    AppendedMore(c.seen, OnHeaderValue, v[1..], v[0]);
    assert [v[0]] + v[1..] == v;
    ReadsMore(c, [v[0]], c1, v[1..], Core(ValueRead(c.p, v), Push(c.seen, Text(OnHeaderValue, v))), skip);
  }

  lemma FirstInDiscard(p: Parser, ch: char)
    requires p.state == Discard(DiscardWs) && ch != ' ' && ch != '\t' && ch != CR && ch != LF
    ensures Dispatch(p, ch) == FirstByte(p, ch)
  {
    hide FirstByte;
  }

  lemma FirstByteText(p: Parser, ch: char)
    requires p.hstate != Named(ContentLength)
    ensures var a := FirstByte(p, ch);
            a == Act(a.p, Field(OnHeaderValue), Quiet, Eat) && a.p.state == Value(ValueText)
            && a.p.hstate != Named(ContentLength)
  {
    hide Lower;
  }

  function LowerAll(s: string): string {
    if s == "" then "" else LowerAll(s[..|s| - 1]) + [Lower(s[|s| - 1])]
  }

  lemma LowerAllMore(s: string, ch: char)
    ensures LowerAll(s + [ch]) == LowerAll(s) + [Lower(ch)]
  {
    var t := s + [ch];
    assert t[..|t| - 1] == s && t[|t| - 1] == ch;
  }

  lemma {:induction false} LowerAllLength(s: string)
    ensures |LowerAll(s)| == |s|
    decreases |s|
  {
    if s != "" { LowerAllLength(s[..|s| - 1]); }
  }

  lemma {:induction false} LowerAllAt(s: string, k: nat)
    requires k < |s|
    ensures |LowerAll(s)| == |s| && LowerAll(s)[k] == Lower(s[k])
    decreases |s|
  {
    LowerAllLength(s);
    LowerAllLength(s[..|s| - 1]);
    if k < |s| - 1 { LowerAllAt(s[..|s| - 1], k); }
  }

  lemma {:induction false} LoweredAt(s: string, k: nat)
    requires k < |s|
    ensures |Lowered(s)| == |s| && Lowered(s)[k] == LowerCase(s[k])
    decreases |s|
  {
    if k > 0 { LoweredAt(s[1..], k - 1); } else { LoweredLength(s); }
  }

  lemma {:induction false} LoweredLength(s: string)
    ensures |Lowered(s)| == |s|
    decreases |s|
  {
    if s != "" { LoweredLength(s[1..]); }
  }

  /** Words of letters and '-', in lower case. */
  predicate IsWord(w: string) {
    forall i :: 0 <= i < |w| ==> 'a' <= w[i] <= 'z' || w[i] == '-'
  }

  /** In a value, LOWER makes a word of exactly the texts that are the word in any case. */
  lemma LowerAllExact(w: string, s: string)
    requires IsWord(w) && NoBreak(s)
    ensures LowerAll(s) == w <==> Lowered(s) == w
  {
    hide Lower, LowerCase;
    LowerAllLength(s);
    LoweredLength(s);
    if |s| == |w| {
      forall k | 0 <= k < |s| ensures LowerAll(s)[k] == w[k] <==> Lowered(s)[k] == w[k] {
        LowerAllAt(s, k);
        LoweredAt(s, k);
        SameLetter(s[k], w[k]);
      }
    }
  }

  lemma SameLetter(c: char, w: char)
    requires c != CR && ('a' <= w <= 'z' || w == '-')
    ensures Lower(c) == w <==> LowerCase(c) == w
  {
    LowerExact(c);
  }

  /** Without trailing spaces. */
  function Trimmed(s: string): string {
    if s != "" && s[|s| - 1] == ' ' then Trimmed(s[..|s| - 1]) else s
  }

  lemma TrimmedMore(s: string, ch: char)
    ensures Trimmed(s + [ch]) == if ch == ' ' then Trimmed(s) else s + [ch]
  {
    var t := s + [ch];
    assert t[..|t| - 1] == s && t[|t| - 1] == ch;
  }

  /** `s`, trailing spaces aside, is the word `w` in any case. */
  predicate Spells(w: string, s: string) {
    LowerAll(Trimmed(s)) == w
  }

  /** A value spells a word exactly when it is that word, trailing spaces aside, in any case. */
  lemma SpellsExact(w: string, s: string)
    requires IsWord(w) && NoBreak(s)
    ensures Spells(w, s) <==> Lowered(Trimmed(s)) == w
  {
    hide Lowered, LowerAll;
    TrimmedPart(s);
    LowerAllExact(w, Trimmed(s));
  }

  lemma {:induction false} TrimmedPart(s: string)
    requires NoBreak(s)
    ensures NoBreak(Trimmed(s))
    decreases |s|
  {
    if s != "" && s[|s| - 1] == ' ' { TrimmedPart(s[..|s| - 1]); }
  }

  /** One more byte: what still starts the word, and what spells it. */
  lemma SpellsMore(w: string, s: string, ch: char)
    requires forall i :: 0 <= i < |w| ==> w[i] != ' '
    ensures var more := Starts(w, LowerAll(s)) && |s| < |w| && w[|s|] == Lower(ch);
            && (Starts(w, LowerAll(s + [ch])) <==> more)
            && (Spells(w, s + [ch]) <==> if ch == ' ' then Spells(w, s) else more && |s| == |w| - 1)
  {
    hide Lower, Starts;
    LowerAllMore(s, ch);
    LowerAllLength(s);
    StartsMore(w, LowerAll(s), Lower(ch));
    TrimmedMore(s, ch);
    StartsWhole(w, LowerAll(s + [ch]));
  }

  // ---- Transfer-Encoding ----

  /** The chunked matcher after `s`. */
  predicate InChunked(h: HState, i: nat, n: nat, starts: bool, spells: bool) {
    match h
    case Valuing(MatchChunked) => 1 <= n < 7 && i == n - 1 && starts && !spells
    case Valued(Chunked) => n >= 7 && spells
    case General => !spells && !(starts && n < 7)
    case _ => false
  }

  lemma ChunkedStep(p: Parser, n: nat, starts: bool, spells: bool, ch: char)
    requires InChunked(p.hstate, p.index, n, starts, spells)
    ensures var q := ValueToken(p, ch);
            var more := starts && n < 7 && CHUNKED[n] == Lower(ch);
            && InChunked(q.hstate, q.index, n + 1, more, if ch == ' ' then spells else more && n == 6)
            && q.flags == p.flags
  {
    assert ch == ' ' ==> Lower(ch) == ' ';
    hide Lower;
  }

  lemma {:induction false} ChunkedFold(p: Parser, pre: string, s: string)
    requires InChunked(p.hstate, p.index, |pre|, Starts(CHUNKED, LowerAll(pre)), Spells(CHUNKED, pre))
    ensures var q := ValueFold(p, s);
            q.flags == p.flags && (q.hstate == Valued(Chunked) <==> Spells(CHUNKED, pre + s))
            && (q.hstate.Valued? ==> q.hstate == Valued(Chunked))
    decreases |s|
  {
    hide ValueToken, Starts, Spells;
    if s == "" {
      assert pre + s == pre;
    } else {
      SpellsMore(CHUNKED, pre, s[0]);
      ChunkedStep(p, |pre|, Starts(CHUNKED, LowerAll(pre)), Spells(CHUNKED, pre), s[0]);
      ChunkedFold(ValueToken(p, s[0]), pre + [s[0]], s[1..]);
      assert pre + [s[0]] + s[1..] == pre + s;
    }
  }

  lemma ChunkedFirst(p: Parser, ch: char)
    requires p.hstate == Named(TransferEncoding)
    ensures var q := FirstByte(p, ch).p;
            q.flags == p.flags
            && InChunked(q.hstate, q.index, 1, Starts(CHUNKED, LowerAll([ch])), Spells(CHUNKED, [ch]))
  {
    assert [ch] == "" + [ch];
    SpellsMore(CHUNKED, "", ch);
    hide Starts, Spells, Lower;
    assert Starts(CHUNKED, LowerAll("")) by { StartsNothing(CHUNKED); }
    assert !Spells(CHUNKED, "") by { SpellsNothing(CHUNKED); }
  }

  lemma StartsNothing(w: string)
    ensures Starts(w, LowerAll(""))
  {
  }

  lemma SpellsNothing(w: string)
    requires w != ""
    ensures !Spells(w, "")
  {
  }

  /** A Transfer-Encoding line makes the body chunked exactly when its value is "chunked", in any case and
      trailing spaces aside. */
  lemma TransferEncodingFlags(p: Parser, v: string)
    requires p.hstate == Named(TransferEncoding) && IsValue(v)
    ensures Settled(ValueRead(p, v)).flags == p.flags.(chunked := p.flags.chunked || Spells("chunked", v))
  {
    hide FirstByte, ValueFold, Starts, Spells;
    ChunkedFirst(p, v[0]);
    ChunkedFold(FirstByte(p, v[0]).p, [v[0]], v[1..]);
    assert [v[0]] + v[1..] == v;
  }

  // ---- values without a matcher ----

  lemma {:induction false} GeneralFold(p: Parser, s: string)
    requires p.hstate.General?
    ensures ValueFold(p, s) == p
    decreases |s|
  {
    if s != "" {
      assert ValueToken(p, s[0]) == p by { GeneralStep(p, s[0]); }
      GeneralFold(p, s[1..]);
    }
  }

  lemma GeneralStep(p: Parser, ch: char)
    requires p.hstate.General?
    ensures ValueToken(p, ch) == p
  {
  }

  /** An Upgrade line sets its flag whatever its value; a line with any other name sets none. */
  lemma PlainFlags(p: Parser, v: string)
    requires p.hstate == Named(Upgrade) || p.hstate.General? || p.hstate.Naming?
    requires IsValue(v)
    ensures Settled(ValueRead(p, v)).flags == p.flags.(upgrade := p.flags.upgrade || p.hstate == Named(Upgrade))
  {
    hide ValueFold;
    GeneralFold(FirstByte(p, v[0]).p, v[1..]);
  }

  // ---- Content-Length ----

  /** The number that starts with `v` and goes on with the digits of `s`, whose spaces are skipped; -1 when
      `s` has any other byte. */
  function LengthFrom(v: nat, s: string): (r: int)
    ensures r == -1 || r >= v
    decreases |s|
  {
    if s == "" then v
    else if s[0] == ' ' then LengthFrom(v, s[1..])
    else if !IsNum(s[0]) then -1
    else LengthFrom(v * 10 + Digit(s[0]), s[1..])
  }

  const LENGTH_LIMIT: nat := ULLONG_MAX - 6

  ghost predicate RefusesLength(o: Outcome) {
    o.why.Failed? && o.c.p.errno.HpeInvalidContentLength?
  }

  lemma LengthPass(c: Core, ch: char, skip: Skip)
    requires c.p.state == Value(ValueText) && c.p.hstate == Named(ContentLength) && ch != CR && ch != LF
    ensures Dispatch(c.p, ch) == LengthByte(c.p, ch)
    ensures var a := LengthByte(c.p, ch);
            a.next.Eat? ==> Apply(c, ch, skip) == Core(a.p, Push(c.seen, Text(OnHeaderValue, [ch])))
                            && a.p == c.p.(contentLength := a.p.contentLength)
  {
    hide LeadByte, ResponseByte, MethodByte, UrlByte, RequestByte, NameByte, DiscardByte, EndByte, ChunkByte, BodyByte,
      Push;
  }

  /** Further bytes of a Content-Length value. */
  lemma {:induction false} LengthText(c: Core, s: string, skip: Skip)
    requires c.p.state == Value(ValueText) && c.p.hstate == Named(ContentLength) && NoBreak(s)
    requires c.p.contentLength <= LENGTH_LIMIT
    ensures var r := LengthFrom(c.p.contentLength, s);
            if 0 <= r <= LENGTH_LIMIT then
              Reads(c, s, skip, Core(c.p.(contentLength := r), Appended(c.seen, OnHeaderValue, s)))
            else RefusesLength(Feed(c, s, skip))
    decreases |s|
  {
    hide Dispatch, Apply, Push;
    if s != "" {
      LengthPass(c, s[0], skip);
      if LengthByte(c.p, s[0]).next.Eat? {
        LengthText(Apply(c, s[0], skip), s[1..], skip);
        AppendedMore(c.seen, OnHeaderValue, s[1..], s[0]);
        assert s == [s[0]] + s[1..];
      }
    }
  }

  /** A Content-Length line sets content_length to the true value of its digits, and is accepted exactly
      when it starts with a digit, has digits and spaces only, and stays within 2^64 - 7. */
  lemma ContentLengthLine(c: Core, v: string, e: string, d: string, skip: Skip)
    requires c.p.state == Discard(DiscardWs) && c.p.hstate == Named(ContentLength) && IsValue(v) && IsEol(e)
             && NextLine(d)
    ensures var r := if IsNum(v[0]) then LengthFrom(0, v) else -1;
            if 0 <= r <= LENGTH_LIMIT then
              Feed(c, v + e + d, skip) ==
              Feed(Core(c.p.(state := Name(FieldStart), index := 0, contentLength := r),
                        Push(c.seen, Text(OnHeaderValue, v))), d, skip)
            else RefusesLength(Feed(c, v + e + d, skip))
  {
    hide Feed, Reads, Push, Ends, IsEol;
    LengthRead(c, v, skip);
    assert v + e + d == v + (e + d);
    var r := if IsNum(v[0]) then LengthFrom(0, v) else -1;
    if 0 <= r <= LENGTH_LIMIT {
      var c2 := Core(c.p.(state := Value(ValueText), index := 0, contentLength := r),
        Push(c.seen, Text(OnHeaderValue, v)));
      ReadsThen(c, v, c2, e + d, skip);
      PushEnds(c.seen, OnHeaderValue, v);
      LineBreak(c2, e, d, skip);
    } else {
      FeedAppend(c, v, e + d, skip);
    }
  }

  /** The value of such a line, by itself. */
  lemma LengthRead(c: Core, v: string, skip: Skip)
    requires c.p.state == Discard(DiscardWs) && c.p.hstate == Named(ContentLength) && IsValue(v)
    ensures var r := if IsNum(v[0]) then LengthFrom(0, v) else -1;
            if 0 <= r <= LENGTH_LIMIT then
              Reads(c, v, skip, Core(c.p.(state := Value(ValueText), index := 0, contentLength := r),
                                     Push(c.seen, Text(OnHeaderValue, v))))
            else RefusesLength(Feed(c, v, skip))
  {
    hide Feed, Reads, Push;
    assert v == [v[0]] + v[1..];
    if IsNum(v[0]) {
      var c1 := Core(c.p.(state := Value(ValueText), index := 0, contentLength := Digit(v[0])),
                     Push(c.seen, Text(OnHeaderValue, [v[0]])));
      LengthFirst(c, v, skip);
      LengthTail(c1, v, c.seen, skip);
      var r := LengthFrom(0, v);
      if 0 <= r <= LENGTH_LIMIT {
        ReadsMore(c, [v[0]], c1, v[1..], Core(c1.p.(contentLength := r), Push(c.seen, Text(OnHeaderValue, v))), skip);
      } else {
        ReadsThen(c, [v[0]], c1, v[1..], skip);
      }
    } else {
      LengthRefused(c, v, skip);
    }
  }

  lemma LengthFirst(c: Core, v: string, skip: Skip)
    requires c.p.state == Discard(DiscardWs) && c.p.hstate == Named(ContentLength) && IsValue(v) && IsNum(v[0])
    ensures Reads(c, [v[0]], skip, Core(c.p.(state := Value(ValueText), index := 0, contentLength := Digit(v[0])),
                                        Push(c.seen, Text(OnHeaderValue, [v[0]]))))
    ensures LengthFrom(0, v) == LengthFrom(Digit(v[0]), v[1..])
  {
    hide Feed, Push, LeadByte, ResponseByte, MethodByte, UrlByte, RequestByte, NameByte, EndByte, ChunkByte, BodyByte,
      ValueByte, NoBreak, Lower;
    ReadsByte(c, v[0], skip);
  }

  lemma LengthRefused(c: Core, d: string, skip: Skip)
    requires c.p.state == Discard(DiscardWs) && c.p.hstate == Named(ContentLength)
    requires d != "" && !White(d[0]) && d[0] != CR && d[0] != LF && !IsNum(d[0])
    ensures RefusesLength(Feed(c, d, skip))
  {
    hide LeadByte, ResponseByte, MethodByte, UrlByte, RequestByte, NameByte, EndByte, ChunkByte, BodyByte, ValueByte;
  }

  /** The value after its first digit. */
  lemma LengthTail(c: Core, v: string, t: History, skip: Skip)
    requires c.p.state == Value(ValueText) && c.p.hstate == Named(ContentLength) && c.p.contentLength < 10
    requires IsValue(v) && c.seen == Push(t, Text(OnHeaderValue, [v[0]]))
    ensures var r := LengthFrom(c.p.contentLength, v[1..]);
            if 0 <= r <= LENGTH_LIMIT then
              Reads(c, v[1..], skip, Core(c.p.(contentLength := r), Push(t, Text(OnHeaderValue, v))))
            else RefusesLength(Feed(c, v[1..], skip))
  {
    hide Feed, Push;
    LengthText(c, v[1..], skip);
    AppendedMore(t, OnHeaderValue, v[1..], v[0]);
    assert [v[0]] + v[1..] == v;
  }
}
