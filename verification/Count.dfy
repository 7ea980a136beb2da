/** The header size limit: how `nread` grows over one http_parser_execute call without interruption. */
module Count {
  import opened Chars
  import opened ParserTypes
  import opened Machine
  import opened Stream

  /** The count at the end of a call, or that it passed HTTP_MAX_HEADER_SIZE on the way. */
  datatype Tally = Over | Within(n: nat)

  /** The states that set nread back to 0 on their LF. */
  predicate ResetsCount(s: State) {
    s == End(HeadersDone) || s == Chunk(SizeAlmostDone) || s == Chunk(ChunkDataDone)
  }

  function CountAfter(s: State, ch: char, n: nat): nat {
    if ResetsCount(s) && ch == '\n' then 0 else n
  }

  /** The states whose text is read by an inner loop. */
  predicate LoopsOverText(s: State) {
    s == Name(FieldText) || s == Value(ValueText)
  }

  /** Bytes still to be counted. `text`: the last byte was read by an inner loop, which counts it once
      more when it runs into the end of the data. */
  function Counts(n: nat, text: bool, c: Core, d: string, skip: Skip): Tally
    decreases |d|, Rank(c.p.state), 1
  {
    if n > HTTP_MAX_HEADER_SIZE then Over
    else if d == [] then
      if text && n == HTTP_MAX_HEADER_SIZE then Over else Within(if text then n + 1 else n)
    else if !ParsingHeader(c.p.state) then CountsByte(n, c, d, skip)
    else if n == HTTP_MAX_HEADER_SIZE then Over
    else CountsByte(n + 1, c, d, skip)
  }

  /** Bytes of which the first is counted. */
  function CountsByte(n: nat, c: Core, d: string, skip: Skip): Tally
    requires d != []
    decreases |d|, Rank(c.p.state), 0
  {
    var a := Dispatch(c.p, d[0]);
    var c' := Apply(c, d[0], skip);
    var n' := CountAfter(c.p.state, d[0], n);
    match a.next
    case Eat => Counts(n', LoopsOverText(c.p.state) && a.reading.Field?, c', d[1..], skip)
    case Redo =>
      RankFalls(c.p, d[0]);
      CountsByte(n', c', d, skip)
    case _ => Within(n')
  }

  // ---- where the count passes the limit ----

  /** Where header overflow ends a call: the parser, with the callbacks that it has run or is about to run, and the
      unread data. */
  datatype Overflow = Never | Where(c: Core, rest: string)

  /** A general value whose line break, if any, lies beyond the window in which the skip looks for it. */
  predicate Lost(p: Parser, d: string) {
    && p.state == Value(ValueText) && p.hstate.General? && |d| > HTTP_MAX_HEADER_SIZE
    && forall i :: 0 <= i < HTTP_MAX_HEADER_SIZE ==> d[i] != CR && d[i] != LF
  }

  /** Before a byte is counted. */
  function OverAt(n: nat, c: Core, d: string, skip: Skip): Overflow
    decreases |d|, Rank(c.p.state), 3
  {
    if d == [] then Never
    else if !ParsingHeader(c.p.state) then OverByte(n, c, d, skip)
    else if n >= HTTP_MAX_HEADER_SIZE then Where(c, d)
    else OverByte(n + 1, c, d, skip)
  }

  /** Once a byte is counted. */
  function OverByte(n: nat, c: Core, d: string, skip: Skip): Overflow
    requires d != []
    decreases |d|, Rank(c.p.state), 2
  {
    if LoopsOverText(c.p.state) then OverLoop(n, 0, c, d, skip) else OverPass(n, c, d, skip)
  }

  /** In an inner loop that has read `k` bytes, which are counted when it ends; a CR is read before that. */
  function OverLoop(n: nat, k: nat, c: Core, d: string, skip: Skip): Overflow
    decreases |d|, Rank(c.p.state), 1
  {
    var over := n + k > HTTP_MAX_HEADER_SIZE;
    if d == [] then if over then Where(c, d) else Never
    else if Lost(c.p, d) then Where(c, "")
    else
      var a := Dispatch(c.p, d[0]);
      if a.next.Bad? && c.p.state == Value(ValueText) then Never
      else if a.next.Eat? && a.reading.Field? then OverLoop(n, k + 1, Apply(c, d[0], skip), d[1..], skip)
      else if !over then OverPass(n + k, c, d, skip)
      else Where(if c.p.state == Value(ValueText) && d[0] == CR then Apply(c, d[0], skip) else c, d)
  }

  /** One pass. */
  function OverPass(n: nat, c: Core, d: string, skip: Skip): Overflow
    requires d != []
    decreases |d|, Rank(c.p.state), 0
  {
    var c' := Apply(c, d[0], skip);
    var n' := CountAfter(c.p.state, d[0], n);
    match Dispatch(c.p, d[0]).next
    case Eat => OverAt(n', c', d[1..], skip)
    case Redo =>
      RankFalls(c.p, d[0]);
      OverByte(n', c', d, skip)
    case _ => Never
  }

  // ---- what the count means ----

  function Max(a: nat, b: nat): nat {
    if a < b then b else a
  }

  /** The bytes read in header states since the count was last set back, each counted once. */
  function Plain(k: nat, c: Core, d: string, skip: Skip): nat
    decreases |d|, Rank(c.p.state), 1
  {
    if d == [] then k else PlainByte(if ParsingHeader(c.p.state) then k + 1 else k, c, d, skip)
  }

  function PlainByte(k: nat, c: Core, d: string, skip: Skip): nat
    requires d != []
    decreases |d|, Rank(c.p.state), 0
  {
    var k' := CountAfter(c.p.state, d[0], k);
    match Dispatch(c.p, d[0]).next
    case Eat => Plain(k', Apply(c, d[0], skip), d[1..], skip)
    case Redo =>
      RankFalls(c.p, d[0]);
      PlainByte(k', Apply(c, d[0], skip), d, skip)
    case _ => k'
  }

  /** The largest number of bytes in header states between two places where the count is set back: the
      length of the longest header block, or part of one, in the data. */
  function Peak(k: nat, c: Core, d: string, skip: Skip): nat
    decreases |d|, Rank(c.p.state), 1
  {
    if d == [] then k
    else
      var k1 := if ParsingHeader(c.p.state) then k + 1 else k;
      Max(k1, PeakByte(k1, c, d, skip))
  }

  function PeakByte(k: nat, c: Core, d: string, skip: Skip): nat
    requires d != []
    decreases |d|, Rank(c.p.state), 0
  {
    var k' := CountAfter(c.p.state, d[0], k);
    match Dispatch(c.p, d[0]).next
    case Eat => Peak(k', Apply(c, d[0], skip), d[1..], skip)
    case Redo =>
      RankFalls(c.p, d[0]);
      PeakByte(k', Apply(c, d[0], skip), d, skip)
    case _ => k'
  }

  /** How often the count is set back in the data. */
  function Laps(c: Core, d: string, skip: Skip): nat
    decreases |d|, Rank(c.p.state)
  {
    if d == [] then 0
    else
      (if ResetsCount(c.p.state) && d[0] == '\n' then 1 else 0)
      + match Dispatch(c.p, d[0]).next
        case Eat => Laps(Apply(c, d[0], skip), d[1..], skip)
        case Redo => RankFalls(c.p, d[0]); Laps(Apply(c, d[0], skip), d, skip)
        case _ => 0
  }

  /** The length of the longest header block after the first place where the count is set back. */
  function LaterPeak(c: Core, d: string, skip: Skip): nat
    decreases |d|, Rank(c.p.state)
  {
    if d == [] then 0
    else
      var c' := Apply(c, d[0], skip);
      var resets := ResetsCount(c.p.state) && d[0] == '\n';
      match Dispatch(c.p, d[0]).next
      case Eat => if resets then Peak(0, c', d[1..], skip) else LaterPeak(c', d[1..], skip)
      case Redo =>
        RankFalls(c.p, d[0]);
        if resets then PeakByte(0, c', d, skip) else LaterPeak(c', d, skip)
      case _ => 0
  }

  lemma {:induction false} LaterBelow(n: nat, c: Core, d: string, skip: Skip)
    ensures LaterPeak(c, d, skip) <= Peak(n, c, d, skip)
    ensures d != [] ==> LaterPeak(c, d, skip) <= PeakByte(n, c, d, skip)
    decreases |d|, Rank(c.p.state)
  {
    hide Dispatch, Apply;
    if d != [] {
      var k := if ParsingHeader(c.p.state) then n + 1 else n;
      match Dispatch(c.p, d[0]).next
      case Eat =>
        LaterBelow(CountAfter(c.p.state, d[0], n), Apply(c, d[0], skip), d[1..], skip);
        LaterBelow(CountAfter(c.p.state, d[0], k), Apply(c, d[0], skip), d[1..], skip);
      case Redo =>
        RankFalls(c.p, d[0]);
        ApplyState(c, d[0], skip);
        LaterBelow(CountAfter(c.p.state, d[0], n), Apply(c, d[0], skip), d, skip);
        LaterBelow(CountAfter(c.p.state, d[0], k), Apply(c, d[0], skip), d, skip);
      case _ =>
    }
  }

  /** The data ends inside a header name or value: its last byte was read by an inner loop. `text` says so of
      the byte before the data. */
  predicate EndsInText(text: bool, c: Core, d: string, skip: Skip)
    decreases |d|, Rank(c.p.state), 1
  {
    if d == [] then text else EndsByte(c, d, skip)
  }

  predicate EndsByte(c: Core, d: string, skip: Skip)
    requires d != []
    decreases |d|, Rank(c.p.state), 0
  {
    var a := Dispatch(c.p, d[0]);
    match a.next
    case Eat => EndsInText(LoopsOverText(c.p.state) && a.reading.Field?, Apply(c, d[0], skip), d[1..], skip)
    case Redo =>
      RankFalls(c.p, d[0]);
      EndsByte(Apply(c, d[0], skip), d, skip)
    case _ => false
  }

  function Extra(b: bool): nat {
    if b then 1 else 0
  }

  /** What the count is exactly: the true number of header bytes, and one more when the data ends inside a name
      or value. It is refused exactly when a header block, or that number, is over the limit. */
  lemma {:induction false} CountsExact(n: nat, text: bool, c: Core, d: string, skip: Skip)
    ensures var end := Plain(n, c, d, skip) + Extra(EndsInText(text, c, d, skip));
            Counts(n, text, c, d, skip) ==
            if Peak(n, c, d, skip) > HTTP_MAX_HEADER_SIZE || end > HTTP_MAX_HEADER_SIZE then Over else Within(end)
    decreases |d|, Rank(c.p.state), 1
  {
    hide Dispatch, Apply, CountsByte, PlainByte, PeakByte, EndsByte, Feed;
    if d != [] {
      AtLeast(n, c, d, skip);
      if n < HTTP_MAX_HEADER_SIZE && ParsingHeader(c.p.state) { ByteExact(n + 1, c, d, skip); }
      if n <= HTTP_MAX_HEADER_SIZE && !ParsingHeader(c.p.state) { ByteExact(n, c, d, skip); }
    }
  }

  lemma {:induction false} ByteExact(n: nat, c: Core, d: string, skip: Skip)
    requires d != [] && n <= HTTP_MAX_HEADER_SIZE
    ensures var end := PlainByte(n, c, d, skip) + Extra(EndsByte(c, d, skip));
            CountsByte(n, c, d, skip) ==
            if PeakByte(n, c, d, skip) > HTTP_MAX_HEADER_SIZE || end > HTTP_MAX_HEADER_SIZE then Over else Within(end)
    decreases |d|, Rank(c.p.state), 0
  {
    hide Dispatch, Apply, Counts, Plain, Peak, EndsInText, Feed;
    var n' := CountAfter(c.p.state, d[0], n);
    var a := Dispatch(c.p, d[0]);
    match a.next
    case Eat => CountsExact(n', LoopsOverText(c.p.state) && a.reading.Field?, Apply(c, d[0], skip), d[1..], skip);
    case Redo =>
      RankFalls(c.p, d[0]);
      ApplyState(c, d[0], skip);
      ByteExact(n', Apply(c, d[0], skip), d, skip);
    case _ =>
  }

  /** Five bytes inside a header name, read in one call, leave the count at six. */
  lemma OvercountExample(c: Core, skip: Skip)
    requires c.p.state == Name(FieldText) && c.p.hstate.General?
    ensures Counts(0, false, c, "ccept", skip) == Within(6) && Plain(0, c, "ccept", skip) == 5
  {
    TextRun(0, false, c, "ccept", skip);
    CountsExact(0, false, c, "ccept", skip);
  }

  /** Each byte is counted once at most. */
  lemma {:induction false} PeakShort(k: nat, c: Core, d: string, skip: Skip)
    ensures Peak(k, c, d, skip) <= k + |d|
    decreases |d|, Rank(c.p.state), 1
  {
    hide Dispatch, Apply, PeakByte, Feed;
    if d != [] { PeakByteShort(if ParsingHeader(c.p.state) then k + 1 else k, c, d, skip); }
  }

  lemma {:induction false} PeakByteShort(k: nat, c: Core, d: string, skip: Skip)
    requires d != []
    ensures PeakByte(k, c, d, skip) <= k + |d| - 1
    decreases |d|, Rank(c.p.state), 0
  {
    hide Dispatch, Apply, Peak, Feed;
    var k' := CountAfter(c.p.state, d[0], k);
    match Dispatch(c.p, d[0]).next
    case Eat => PeakShort(k', Apply(c, d[0], skip), d[1..], skip);
    case Redo =>
      RankFalls(c.p, d[0]);
      ApplyState(c, d[0], skip);
      PeakByteShort(k', Apply(c, d[0], skip), d, skip);
    case _ =>
  }

  /** The count at the end is at most the peak. */
  lemma {:induction false} PlainBelowPeak(n: nat, c: Core, d: string, skip: Skip)
    ensures Plain(n, c, d, skip) <= Peak(n, c, d, skip)
    decreases |d|, Rank(c.p.state), 1
  {
    hide Dispatch, Apply, PlainByte, PeakByte, Feed;
    if d != [] { ByteBelowPeak(if ParsingHeader(c.p.state) then n + 1 else n, c, d, skip); }
  }

  lemma {:induction false} ByteBelowPeak(n: nat, c: Core, d: string, skip: Skip)
    requires d != []
    ensures PlainByte(n, c, d, skip) <= PeakByte(n, c, d, skip)
    decreases |d|, Rank(c.p.state), 0
  {
    hide Dispatch, Apply, Plain, Peak, Feed;
    var n' := CountAfter(c.p.state, d[0], n);
    match Dispatch(c.p, d[0]).next
    case Eat => PlainBelowPeak(n', Apply(c, d[0], skip), d[1..], skip);
    case Redo =>
      RankFalls(c.p, d[0]);
      ApplyState(c, d[0], skip);
      ByteBelowPeak(n', Apply(c, d[0], skip), d, skip);
    case _ =>
  }

  /** Bytes inside a name of no known meaning. */
  lemma {:induction false} TextRun(k: nat, text: bool, c: Core, d: string, skip: Skip)
    requires c.p.state == Name(FieldText) && c.p.hstate.General? && forall i :: 0 <= i < |d| ==> Token(d[i]) != '\0'
    ensures Plain(k, c, d, skip) == k + |d| == Peak(k, c, d, skip)
    ensures EndsInText(text, c, d, skip) <==> text || d != []
    ensures Feed(c, d, skip).why.Drained? && Feed(c, d, skip).c.p == c.p
    decreases |d|
  {
    hide Token, LeadByte, ResponseByte, MethodByte, UrlByte, RequestByte, DiscardByte, ValueByte, EndByte, ChunkByte,
      BodyByte, Push;
    if d != [] { TextRun(k + 1, true, Apply(c, d[0], skip), d[1..], skip); }
  }

  /** A larger start makes for a larger peak, by no more. */
  lemma {:induction false} PeakShift(k: nat, j: nat, c: Core, d: string, skip: Skip)
    ensures Peak(k, c, d, skip) <= Peak(k + j, c, d, skip) <= Peak(k, c, d, skip) + j
    decreases |d|, Rank(c.p.state), 1
  {
    hide Dispatch, Apply, PeakByte, Feed;
    if d != [] { PeakByteShift(if ParsingHeader(c.p.state) then k + 1 else k, j, c, d, skip); }
  }

  lemma {:induction false} PeakByteShift(k: nat, j: nat, c: Core, d: string, skip: Skip)
    requires d != []
    ensures PeakByte(k, c, d, skip) <= PeakByte(k + j, c, d, skip) <= PeakByte(k, c, d, skip) + j
    decreases |d|, Rank(c.p.state), 0
  {
    hide Dispatch, Apply, Peak, Feed;
    var j' := if ResetsCount(c.p.state) && d[0] == '\n' then 0 else j;
    var k' := CountAfter(c.p.state, d[0], k);
    match Dispatch(c.p, d[0]).next
    case Eat => PeakShift(k', j', Apply(c, d[0], skip), d[1..], skip);
    case Redo =>
      RankFalls(c.p, d[0]);
      ApplyState(c, d[0], skip);
      PeakByteShift(k', j', Apply(c, d[0], skip), d, skip);
    case _ =>
  }

  /** The bytes of two pieces. */
  lemma {:induction false} PlainAppend(k: nat, c: Core, a: string, b: string, skip: Skip)
    requires Feed(c, a, skip).why.Drained?
    ensures Plain(k, c, a + b, skip) == Plain(Plain(k, c, a, skip), Feed(c, a, skip).c, b, skip)
    decreases |a|, Rank(c.p.state), 1
  {
    hide Dispatch, Apply, PlainByte;
    if a == [] {
      assert a + b == b;
    } else {
      assert (a + b)[0] == a[0] && (a + b)[1..] == a[1..] + b;
      ByteAppend(if ParsingHeader(c.p.state) then k + 1 else k, c, a, b, skip);
    }
  }

  lemma {:induction false} ByteAppend(k: nat, c: Core, a: string, b: string, skip: Skip)
    requires a != [] && Feed(c, a, skip).why.Drained?
    ensures PlainByte(k, c, a + b, skip) == Plain(PlainByte(k, c, a, skip), Feed(c, a, skip).c, b, skip)
    decreases |a|, Rank(c.p.state), 0
  {
    hide Dispatch, Apply, Plain;
    assert (a + b)[0] == a[0] && (a + b)[1..] == a[1..] + b;
    var k' := CountAfter(c.p.state, a[0], k);
    match Dispatch(c.p, a[0]).next
    case Eat => PlainAppend(k', Apply(c, a[0], skip), a[1..], b, skip);
    case Redo =>
      RankFalls(c.p, a[0]);
      ApplyState(c, a[0], skip);
      ByteAppend(k', Apply(c, a[0], skip), a, b, skip);
    case _ =>
  }

  lemma {:induction false} PeakAppend(k: nat, c: Core, a: string, b: string, skip: Skip)
    requires Feed(c, a, skip).why.Drained?
    ensures Peak(k, c, a + b, skip) == Max(Peak(k, c, a, skip), Peak(Plain(k, c, a, skip), Feed(c, a, skip).c, b, skip))
    decreases |a|, Rank(c.p.state), 1
  {
    hide Dispatch, Apply, PeakByte, PlainByte;
    if a == [] {
      assert a + b == b;
      AtLeast(k, c, b, skip);
    } else {
      assert (a + b)[0] == a[0] && (a + b)[1..] == a[1..] + b;
      PeakByteAppend(if ParsingHeader(c.p.state) then k + 1 else k, c, a, b, skip);
    }
  }

  lemma AtLeast(k: nat, c: Core, d: string, skip: Skip)
    ensures Peak(k, c, d, skip) >= k
  {
    hide Dispatch, Apply, PeakByte;
  }

  lemma {:induction false} PeakByteAppend(k: nat, c: Core, a: string, b: string, skip: Skip)
    requires a != [] && Feed(c, a, skip).why.Drained?
    ensures PeakByte(k, c, a + b, skip) ==
            Max(PeakByte(k, c, a, skip), Peak(PlainByte(k, c, a, skip), Feed(c, a, skip).c, b, skip))
    decreases |a|, Rank(c.p.state), 0
  {
    hide Dispatch, Apply, Peak, Plain;
    assert (a + b)[0] == a[0] && (a + b)[1..] == a[1..] + b;
    var k' := CountAfter(c.p.state, a[0], k);
    match Dispatch(c.p, a[0]).next
    case Eat => PeakAppend(k', Apply(c, a[0], skip), a[1..], b, skip);
    case Redo =>
      RankFalls(c.p, a[0]);
      ApplyState(c, a[0], skip);
      PeakByteAppend(k', Apply(c, a[0], skip), a, b, skip);
    case _ =>
  }
}
