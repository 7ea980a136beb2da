/** Passes and runs of passes in the terms of one http_parser_execute call: what has been signalled, the
    mark, and the two things a call must agree with: the reference run and the header count. */
module Passes {
  import opened Chars
  import opened ParserTypes
  import opened Machine
  import opened Stream
  import opened Invariant
  import opened Cursor
  import opened Grammar
  import opened Bulk
  import opened Count

  /** The header blocks of a call's input: the length of the longest one, of the longest one after the count was first
      set back, and how often it is set back. */
  datatype Blocks = Blocks(peak: nat, later: nat, laps: nat)

  function BlocksOf(n: nat, c: Core, d: string, skip: Skip): Blocks {
    Blocks(Peak(n, c, d, skip), LaterPeak(c, d, skip), Laps(c, d, skip))
  }

  /** What a call must agree with: the reference run of its input, its header count, and its header blocks.
      `stop`: where the count passes the limit; `ordered`: the callbacks before the call came in order. */
  datatype Goal = Goal(run: Outcome, tally: Tally, stop: Overflow, blocks: Blocks, ordered: bool)

  /** What is left of the header blocks, up to `e` bytes that were counted too often: once the count was set back, only
      the later blocks matter. */
  ghost predicate Bounded(b: Blocks, e: nat, n: nat, c: Core, d: string, skip: Skip) {
    && LaterPeak(c, d, skip) <= b.later && Laps(c, d, skip) <= b.laps
    && (d != [] ==> Peak(n, c, d, skip) <= e + if Laps(c, d, skip) < b.laps then b.later else b.peak)
  }

  /** The same in the middle of a byte. */
  ghost predicate ByteBounded(b: Blocks, n: nat, c: Core, d: string, skip: Skip)
    requires d != []
  {
    && LaterPeak(c, d, skip) <= b.later && Laps(c, d, skip) <= b.laps
    && var top := if Laps(c, d, skip) < b.laps then b.later else b.peak;
       n <= top && PeakByte(n, c, d, skip) <= top
  }

  /** Everything that holds between two passes: the parser's invariant, the open text is the last thing
      reported, and the callbacks are in order, if they were so before the call. */
  predicate Ready(c: Core, ordered: bool) {
    Inv(c.p) && Opened(c) && (ordered ==> Spoken(c))
  }

  /** Between two bytes: what is left to read and count leads to the goal. */
  ghost predicate Ahead(goal: Goal, n: nat, c: Core, d: string, skip: Skip) {
    && n <= HTTP_MAX_HEADER_SIZE && Feed(c, d, skip) == goal.run && Counts(n, false, c, d, skip) == goal.tally
    && Bounded(goal.blocks, 0, n, c, d, skip)
  }

  /** In the middle of a byte, which is already counted. */
  ghost predicate Amid(goal: Goal, n: nat, c: Core, d: string, skip: Skip) {
    && d != [] && n <= HTTP_MAX_HEADER_SIZE && Feed(c, d, skip) == goal.run && CountsByte(n, c, d, skip) == goal.tally
    && ByteBounded(goal.blocks, n, c, d, skip)
  }

  /** In an inner loop that has read `k` bytes of text since the byte that `n` counts. */
  ghost predicate Looping(goal: Goal, n: nat, k: nat, c: Core, d: string, skip: Skip) {
    if k == 0 then Amid(goal, n, c, d, skip)
    else
      && n <= HTTP_MAX_HEADER_SIZE && Feed(c, d, skip) == goal.run && Counts(n + k - 1, true, c, d, skip) == goal.tally
      && Bounded(goal.blocks, 0, n + k - 1, c, d, skip)
  }

  /** The core in the middle of a call. */
  function Now(p: Parser, t: History, m: Mark, data: string, i: nat): Core
    requires i <= |data| && (m.Mark? ==> m.from <= i)
  {
    Core(p, Pending(t, m, data, i))
  }

  predicate MarkIn(s: State, m: Mark, i: nat) {
    (m.Mark? ==> m.from <= i) && MarkOk(s, m)
  }

  // ---- one pass ----

  /** A data callback reports the marked text, and no callback leaves a mark behind. */
  predicate Orderly(m: Mark, p: nat, a: Act) {
    && (a.sig.Flush? && m.Mark? ==> m.hook == a.sig.hook)
    && (a.sig.Flush? || a.sig.Blank? ==> !a.sig.hook.OnHeadersComplete?)
    && (!a.sig.Quiet? ==> MarkAfter(m, p, a).NoMark?)
    && (a.next.Exit? ==> a.sig.Tell?)
  }

  lemma TidyFacts(s: State, m: Mark, p: nat, a: Act)
    requires Tidy(s, a) && s != Body(Identity) && !a.next.Bad? && MarkOk(s, m)
    ensures !(a.reading.Field? && a.next.Redo?)
    ensures a.next.Redo? ==> OpenHook(a.p.state).Bare?
    ensures Orderly(m, p, a)
  {
  }

  lemma TidyError(s: State, a: Act)
    requires Tidy(s, a) && a.next.Bad?
    ensures a.sig.Quiet? && a.reading.Bare? && ParseError(a.next.why)
  {
  }

  lemma InvErrno(p: Parser)
    requires Inv(p)
    ensures p.errno.HpeOk?
  {
    hide NumbersFit, LengthFits, FlagsFit, HeaderFits, KindFits;
  }

  lemma TellsBare(c: Core, t: History, m: Mark, data: string, p: nat, a: Act, skip: Skip)
    requires p < |data| && (m.Mark? ==> m.from <= p) && c.seen == Pending(t, m, data, p)
    requires MarkOk(c.p.state, m) && Tidy(c.p.state, a) && !a.next.Bad? && c.p.state != Body(Identity)
    ensures Answered(a, Pushed(c.seen, a, data[p]), skip) == Answered(a, Reported(t, m, data, p, a), skip)
  {
  }

  /** What a pass reports and where it leaves the parser. */
  lemma PassEffect(c: Core, t: History, m: Mark, data: string, p: nat, skip: Skip, ordered: bool)
    requires p < |data| && MarkIn(c.p.state, m, p) && c == Now(c.p, t, m, data, p)
    requires Ready(c, ordered) && c.p.state != Body(Identity)
    ensures var a := Dispatch(c.p, data[p]);
            var c' := Apply(c, data[p], skip);
            var m' := MarkAfter(m, p, a);
            if a.next.Bad? then ParseError(a.next.why) && a.sig.Quiet? && a.reading.Bare?
            else
              && MarkIn(a.p.state, m', After(p, a)) && Orderly(m, p, a)
              && Ready(c', ordered) && c'.p.errno.HpeOk? && a.p.errno.HpeOk?
              && c' == Now(Answered(a, Reported(t, m, data, p, a), skip), Reported(t, m, data, p, a), m', data,
                After(p, a))
              && (a.next.Redo? ==> Rank(a.p.state) < Rank(c.p.state) && OpenHook(a.p.state).Bare?)
  {
    hide Dispatch, Inv, Opened, Spoken, MarkOk, Push, Tidy, Pending;
    var a := Dispatch(c.p, data[p]);
    InvNumbers(c.p);
    DispatchTidy(c.p, data[p]);
    RankFalls(c.p, data[p]);
    if !a.next.Bad? {
      ApplyKeeps(c, data[p], skip);
      InvErrno(Apply(c, data[p], skip).p);
      OpenedKeeps(c, data[p], skip);
      if ordered { SpokenKeeps(c, data[p], skip); }
      TidyFacts(c.p.state, m, p, a);
      PassSeen(c, t, m, data, p, a);
      TellsBare(c, t, m, data, p, a, skip);
    } else {
      TidyError(c.p.state, a);
    }
  }

  /** A pass that fails signals nothing. */
  lemma BadEffect(c: Core, ch: char, skip: Skip)
    requires var a := Dispatch(c.p, ch); a.sig.Quiet? && a.reading.Bare?
    ensures Apply(c, ch, skip) == Core(Dispatch(c.p, ch).p, c.seen)
  {
    hide Dispatch;
  }

  /** How a pass moves on through the header blocks. */
  lemma BoundStep(b: Blocks, n: nat, c: Core, d: string, skip: Skip)
    requires d != [] && ByteBounded(b, n, c, d, skip)
    ensures var c' := Apply(c, d[0], skip);
            var n' := CountAfter(c.p.state, d[0], n);
            match Dispatch(c.p, d[0]).next
            case Eat => Bounded(b, 0, n', c', d[1..], skip)
            case Redo => ByteBounded(b, n', c', d, skip)
            case _ => true
  {
    hide Dispatch, Apply, Peak;
    var c' := Apply(c, d[0], skip);
    if ResetsCount(c.p.state) && d[0] == '\n' {
      LaterBelow(0, c', d[1..], skip);
      LaterBelow(0, c', d, skip);
    }
  }

  /** How a pass moves on towards the goal. */
  lemma PassGoal(goal: Goal, n: nat, c: Core, data: string, p: nat, skip: Skip)
    requires p < |data| && Amid(goal, n, c, data[p..], skip)
    ensures var a := Dispatch(c.p, data[p]);
            var c' := Apply(c, data[p], skip);
            var n' := CountAfter(c.p.state, data[p], n);
            match a.next
            case Eat =>
              && Feed(c', data[p + 1..], skip) == goal.run
              && Counts(n', LoopsOverText(c.p.state) && a.reading.Field?, c', data[p + 1..], skip) == goal.tally
              && Bounded(goal.blocks, 0, n', c', data[p + 1..], skip)
            case Redo => Amid(goal, n', c', data[p..], skip)
            case Bad(e) => goal.run == Outcome(c'.(p := c'.p.(errno := e)), data[p..], Failed)
            case Exit => goal.run == Outcome(c', data[p + 1..], Upgraded) && goal.tally == Within(n')
  {
    hide Dispatch, Apply, Bounded, ByteBounded;
    assert data[p..][0] == data[p] && data[p..][1..] == data[p + 1..];
    BoundStep(goal.blocks, n, c, data[p..], skip);
  }

  // ---- the inner loops ----

  /** The first byte of what is left is counted. */
  lemma BoundByte(b: Blocks, n: nat, c: Core, d: string, skip: Skip)
    requires d != [] && Bounded(b, 0, n, c, d, skip)
    ensures ByteBounded(b, if ParsingHeader(c.p.state) then n + 1 else n, c, d, skip)
  {
    hide PeakByte, Laps, LaterPeak;
  }

  /** One more byte of text in an inner loop. */
  lemma LoopMore(goal: Goal, n: nat, k: nat, c: Core, t: History, m: Mark, data: string, p: nat, skip: Skip,
                 q: Parser, h: Hook)
    requires p < |data| && MarkIn(c.p.state, m, p) && c == Now(c.p, t, m, data, p)
    requires Ready(c, goal.ordered) && LoopsOverText(c.p.state) && Looping(goal, n, k, c, data[p..], skip)
    requires Dispatch(c.p, data[p]) == Act(q, Field(h), Quiet, Eat) && m.Mark? && m.hook == h
    ensures var c' := Now(q, t, m, data, p + 1);
            && MarkIn(q.state, m, p + 1) && Ready(c', goal.ordered) && q.errno.HpeOk?
            && Looping(goal, n, k + 1, c', data[p + 1..], skip)
            && (!Lost(c.p, data[p..]) ==>
                  OverLoop(n, k, c, data[p..], skip) == OverLoop(n, k + 1, c', data[p + 1..], skip))
  {
    hide OverLoop, Lost, Dispatch, Inv, Opened, Spoken, MarkOk, Push, Pending;
    PassEffect(c, t, m, data, p, skip, goal.ordered);
    LoopCounts(goal, n, k, c, data, p, skip, q, h);
    assert data[p..][0] == data[p] && data[p..][1..] == data[p + 1..];
    if !Lost(c.p, data[p..]) { StopMore(n, k, c, data[p..], skip, q, h); }
  }

  lemma LoopCounts(goal: Goal, n: nat, k: nat, c: Core, data: string, p: nat, skip: Skip, q: Parser, h: Hook)
    requires p < |data| && LoopsOverText(c.p.state) && Looping(goal, n, k, c, data[p..], skip)
    requires Dispatch(c.p, data[p]) == Act(q, Field(h), Quiet, Eat)
    ensures Looping(goal, n, k + 1, Apply(c, data[p], skip), data[p + 1..], skip)
  {
    hide Dispatch, Apply;
    var d := data[p..];
    assert d[0] == data[p] && d[1..] == data[p + 1..];
    var c' := Apply(c, data[p], skip);
    assert Feed(c, d, skip) == Feed(c', d[1..], skip);
    assert CountsByte(n + k, c, d, skip) == Counts(n + k, true, c', d[1..], skip);
    if k > 0 { BoundByte(goal.blocks, n + k - 1, c, d, skip); }
    BoundStep(goal.blocks, n + k, c, d, skip);
    if k > 0 && n + k <= HTTP_MAX_HEADER_SIZE {
      assert Counts(n + k - 1, true, c, d, skip) == CountsByte(n + k, c, d, skip);
    }
  }

  /** An invalid byte in an inner loop. */
  lemma LoopBad(goal: Goal, n: nat, k: nat, c: Core, t: History, m: Mark, data: string, p: nat, skip: Skip)
    requires p < |data| && MarkIn(c.p.state, m, p) && c == Now(c.p, t, m, data, p)
    requires Ready(c, goal.ordered) && LoopsOverText(c.p.state) && Looping(goal, n, k, c, data[p..], skip)
    requires Dispatch(c.p, data[p]).next.Bad?
    ensures var a := Dispatch(c.p, data[p]);
            ParseError(a.next.why) && goal.run == Outcome(Core(a.p.(errno := a.next.why), c.seen), data[p..], Failed)
  {
    hide Dispatch, Inv, Opened, Spoken, MarkOk, Push, Pending, Counts, CountsByte;
    assert data[p..][0] == data[p];
    PassEffect(c, t, m, data, p, skip, goal.ordered);
  }

  /** The goal with the header count left open. */
  ghost function Loosely(goal: Goal, n: nat, c: Core, d: string, skip: Skip): Goal
    requires d != []
  {
    goal.(tally := CountsByte(n, c, d, skip), stop := OverByte(n, c, d, skip))
  }

  lemma LoopLoose(goal: Goal, n: nat, k: nat, c: Core, d: string, skip: Skip)
    requires d != [] && LoopsOverText(c.p.state) && Looping(goal, n, k, c, d, skip)
    ensures Amid(Loosely(goal, n, c, d, skip), n, c, d, skip)
  {
    hide Feed, Counts, CountsByte, PeakByte;
    PeakByteShift(n, k, c, d, skip);
  }

  /** The end of an inner loop: its bytes are counted at once. */
  lemma LoopEnd(goal: Goal, n: nat, k: nat, c: Core, d: string, skip: Skip)
    requires LoopsOverText(c.p.state) && Looping(goal, n, k, c, d, skip)
    ensures if n + k > HTTP_MAX_HEADER_SIZE then goal.tally.Over?
            else if d == [] then Ahead(goal, n + k, c, d, skip)
            else Amid(goal, n + k, c, d, skip)
  {
    hide Dispatch, Apply, Feed, CountsByte;
  }

  lemma NamePass(p: Parser, m: Mark, ch: char)
    requires p.state == Name(FieldText) && Token(ch) != '\0' && MarkOk(p.state, m)
    ensures Dispatch(p, ch) == Act(NameToken(p, ch), Field(OnHeaderField), Quiet, Eat)
    ensures NameToken(p, ch).state == p.state && m.Mark? && m.hook == OnHeaderField
  {
  }

  lemma NameEnd(p: Parser, ch: char)
    requires p.state == Name(FieldText) && Token(ch) == '\0'
    ensures var a := Dispatch(p, ch); a.reading.Bare? && (a.next.Bad? || a.p.state == Discard(DiscardWs))
  {
  }

  lemma ValueEnd(p: Parser, ch: char)
    requires p.state == Value(ValueText) && (ch == CR || ch == LF)
    ensures var a := Dispatch(p, ch);
            && a.reading.Bare? && a.p.state == Value(ValueAlmostDone)
            && a.next == if ch == CR then Eat else Redo
  {
  }

  lemma ValuePass(p: Parser, m: Mark, ch: char)
    requires p.state == Value(ValueText) && ch != CR && ch != LF && MarkOk(p.state, m)
    ensures m.Mark? && m.hook == OnHeaderValue
    ensures if p.hstate == Named(ContentLength) then
              Dispatch(p, ch) == LengthByte(p, ch)
              && (LengthByte(p, ch).next.Bad? ||
                  (LengthByte(p, ch) == Act(LengthByte(p, ch).p, Field(OnHeaderValue), Quiet, Eat)
                   && LengthByte(p, ch).p.state == p.state))
            else Dispatch(p, ch) == Act(ValueToken(p, ch), Field(OnHeaderValue), Quiet, Eat)
                 && ValueToken(p, ch).state == p.state
    ensures p.hstate.General? ==> ValueToken(p, ch) == p
  {
    hide StartToken, Match;
  }

  /** A line break in data[p..q]. */
  predicate HasBreak(data: string, p: nat, q: nat)
    requires p <= q <= |data|
  {
    exists i :: p <= i < q && (data[i] == CR || data[i] == LF)
  }

  /** A stretch of a general value. */
  lemma GeneralRun(goal: Goal, n: nat, k: nat, c: Core, t: History, m: Mark, data: string, p: nat, q: nat, skip: Skip)
    requires p < q <= |data| && MarkIn(c.p.state, m, p) && c == Now(c.p, t, m, data, p)
    requires c.p.state == Value(ValueText) && c.p.hstate.General? && Ready(c, goal.ordered)
    requires !HasBreak(data, p, q) && Looping(goal, n, k, c, data[p..], skip)
    ensures var c' := Now(c.p, t, m, data, q);
            && Ready(c', goal.ordered)
            && Looping(goal, n, k + (q - p), c', data[q..], skip)
    decreases q - p
  {
    hide Dispatch, Inv, Opened, Spoken, MarkOk, Push, Pending, Looping, ValueToken, LengthByte;
    ValuePass(c.p, m, data[p]);
    LoopMore(goal, n, k, c, t, m, data, p, skip, c.p, OnHeaderValue);
    if p + 1 < q { GeneralRun(goal, n, k + 1, Now(c.p, t, m, data, p + 1), t, m, data, p + 1, q, skip); }
  }

  /** A window of HTTP_MAX_HEADER_SIZE bytes without a line break makes the header too long. */
  lemma WindowOver(goal: Goal, n: nat, k: nat, c: Core, t: History, m: Mark, data: string, p: nat, skip: Skip)
    requires p + HTTP_MAX_HEADER_SIZE < |data| && MarkIn(c.p.state, m, p) && c == Now(c.p, t, m, data, p)
    requires c.p.state == Value(ValueText) && c.p.hstate.General? && Ready(c, goal.ordered) && (k == 0 ==> n > 0)
    requires !HasBreak(data, p, p + HTTP_MAX_HEADER_SIZE) && Looping(goal, n, k, c, data[p..], skip)
    ensures goal.tally.Over?
  {
    hide Inv, Opened, Spoken, MarkOk, Push, Looping, Ready, HasBreak;
    var q := p + HTTP_MAX_HEADER_SIZE;
    GeneralRun(goal, n, k, c, t, m, data, p, q, skip);
    LoopEnd(goal, n, k + HTTP_MAX_HEADER_SIZE, Now(c.p, t, m, data, q), data[q..], skip);
  }

  lemma InvNames(p: Parser)
    requires Inv(p) && p.state == Name(FieldText)
    ensures NameStates(p.hstate)
  {
    hide NumbersFit, LengthFits, FlagsFit, KindFits;
  }

  lemma InvValues(p: Parser)
    requires Inv(p) && p.state == Value(ValueText)
    ensures ValueStates(p.hstate)
  {
    hide NumbersFit, LengthFits, FlagsFit, KindFits;
  }

  // ---- where the count passes the limit ----

  /** A pass before which the count has not passed the limit. */
  lemma StopPass(n: nat, c: Core, d: string, skip: Skip)
    requires d != [] && n <= HTTP_MAX_HEADER_SIZE && (!LoopsOverText(c.p.state) || Dispatch(c.p, d[0]).reading.Bare?)
    requires c.p.state == Value(ValueText) && c.p.hstate.General? ==> d[0] == CR || d[0] == LF
    ensures var c' := Apply(c, d[0], skip);
            var n' := CountAfter(c.p.state, d[0], n);
            OverByte(n, c, d, skip) ==
            match Dispatch(c.p, d[0]).next
            case Eat => OverAt(n', c', d[1..], skip)
            case Redo => OverByte(n', c', d, skip)
            case _ => Never
  {
    hide Dispatch, Apply, OverAt;
    assert !Lost(c.p, d);
    if LoopsOverText(c.p.state) { StopBare(n, c, d, skip); }
  }

  lemma StopBare(n: nat, c: Core, d: string, skip: Skip)
    requires d != [] && n <= HTTP_MAX_HEADER_SIZE && LoopsOverText(c.p.state) && Dispatch(c.p, d[0]).reading.Bare?
    requires !Lost(c.p, d)
    ensures OverLoop(n, 0, c, d, skip) == OverPass(n, c, d, skip)
  {
    hide Dispatch, Apply, Lost;
  }

  /** An inner loop starts. */
  lemma StopStart(n: nat, c: Core, d: string, skip: Skip)
    requires d != [] && LoopsOverText(c.p.state)
    ensures OverByte(n, c, d, skip) == OverLoop(n, 0, c, d, skip)
  {
    hide OverLoop;
  }

  /** A general value is left at a line break only. */
  lemma BareValue(p: Parser, ch: char)
    requires p.state == Value(ValueText) && p.hstate.General? && Dispatch(p, ch).reading.Bare?
    ensures ch == CR || ch == LF
  {
    hide ValueToken;
  }

  /** One more byte in an inner loop. */
  lemma StopMore(n: nat, k: nat, c: Core, d: string, skip: Skip, q: Parser, h: Hook)
    requires d != [] && !Lost(c.p, d) && Dispatch(c.p, d[0]) == Act(q, Field(h), Quiet, Eat)
    ensures OverLoop(n, k, c, d, skip) == OverLoop(n, k + 1, Apply(c, d[0], skip), d[1..], skip)
  {
    hide Dispatch, Apply, Lost;
  }

  /** An invalid byte of a value is an error at once. */
  lemma StopBad(n: nat, k: nat, c: Core, d: string, skip: Skip)
    requires d != [] && c.p.state == Value(ValueText) && !c.p.hstate.General? && Dispatch(c.p, d[0]).next.Bad?
    ensures OverLoop(n, k, c, d, skip) == Never
  {
    hide Dispatch, Apply;
  }

  lemma NameNotLost(p: Parser, d: string)
    requires p.state == Name(FieldText)
    ensures !Lost(p, d)
  {
  }

  lemma OnlyGeneralLost(p: Parser, d: string)
    ensures Lost(p, d) ==> p.hstate.General?
  {
  }

  /** The end of an inner loop. */
  lemma StopEnd(n: nat, k: nat, c: Core, d: string, skip: Skip)
    requires LoopsOverText(c.p.state)
    requires d != [] ==> Dispatch(c.p, d[0]).reading.Bare?
    requires d != [] && c.p.state == Value(ValueText) ==> d[0] == CR || d[0] == LF
    ensures var stop := OverLoop(n, k, c, d, skip);
            if n + k <= HTTP_MAX_HEADER_SIZE then
              if d == [] then stop == Never == OverAt(n + k, c, d, skip) else stop == OverByte(n + k, c, d, skip)
            else
              var read := d != [] && c.p.state == Value(ValueText) && d[0] == CR;
              stop == Where(if read then Apply(c, d[0], skip) else c, d)
  {
    hide Apply;
    if d != [] && c.p.state == Value(ValueText) { ValueEnd(c.p, d[0]); }
    hide Dispatch;
  }

  /** The skip over a stretch of a general value. */
  lemma GeneralStop(goal: Goal, n: nat, k: nat, c: Core, t: History, m: Mark, data: string, p: nat, q: nat, skip: Skip)
    requires p < q <= |data| && MarkIn(c.p.state, m, p) && c == Now(c.p, t, m, data, p)
    requires c.p.state == Value(ValueText) && c.p.hstate.General? && Ready(c, goal.ordered)
    requires !HasBreak(data, p, q) && Looping(goal, n, k, c, data[p..], skip)
    requires q - p <= HTTP_MAX_HEADER_SIZE
             && (q < |data| ==> q - p < HTTP_MAX_HEADER_SIZE && (data[q] == CR || data[q] == LF))
    ensures OverLoop(n, k, c, data[p..], skip) == OverLoop(n, k + (q - p), Now(c.p, t, m, data, q), data[q..], skip)
    decreases q - p
  {
    hide Dispatch, Inv, Opened, Spoken, MarkOk, Push, Pending, Looping, ValueToken, LengthByte, OverLoop, Apply, Lost;
    ValuePass(c.p, m, data[p]);
    LoopMore(goal, n, k, c, t, m, data, p, skip, c.p, OnHeaderValue);
    NotLost(c.p, data, p, q);
    if p + 1 < q { GeneralStop(goal, n, k + 1, Now(c.p, t, m, data, p + 1), t, m, data, p + 1, q, skip); }
  }

  lemma NotLost(p: Parser, data: string, i: nat, q: nat)
    requires i < q <= |data|
    requires q - i <= HTTP_MAX_HEADER_SIZE
             && (q < |data| ==> q - i < HTTP_MAX_HEADER_SIZE && (data[q] == CR || data[q] == LF))
    ensures !Lost(p, data[i..])
  {
    if q < |data| { assert data[i..][q - i] == data[q]; }
  }

  /** A break beyond the window. */
  lemma StopLost(n: nat, k: nat, c: Core, data: string, p: nat, skip: Skip)
    requires p + HTTP_MAX_HEADER_SIZE < |data| && !HasBreak(data, p, p + HTTP_MAX_HEADER_SIZE)
    requires c.p.state == Value(ValueText) && c.p.hstate.General?
    ensures OverLoop(n, k, c, data[p..], skip) == Where(c, "")
  {
    forall i | 0 <= i < HTTP_MAX_HEADER_SIZE ensures data[p..][i] != CR && data[p..][i] != LF {
      assert data[p..][i] == data[p + i];
    }
  }

  /** Body bytes are not counted. */
  lemma {:induction false} StopCounted(n: nat, c: Core, d: string, k: nat, skip: Skip)
    requires CountsBody(c.p) && k <= |d| && k < c.p.contentLength
    ensures OverAt(n, c, d, skip) ==
            OverAt(n, Core(c.p.(contentLength := c.p.contentLength - k), Appended(c.seen, OnBody, d[..k])), d[k..],
              skip)
    decreases k
  {
    hide Dispatch, Apply;
    if k > 0 {
      var c' := Core(c.p.(contentLength := c.p.contentLength - 1), Push(c.seen, Text(OnBody, [d[0]])));
      CountedStep(c, d[0], skip);
      assert OverAt(n, c, d, skip) == OverPass(n, c, d, skip) == OverAt(n, c', d[1..], skip);
      StopCounted(n, c', d[1..], k - 1, skip);
      CutFirst(d, k);
      AppendedMore(c.seen, OnBody, d[1..][..k - 1], d[0]);
    } else {
      assert d[0..] == d;
    }
  }

  lemma {:induction false} StopEof(n: nat, c: Core, d: string, skip: Skip)
    requires c.p.state == Body(IdentityEof)
    ensures OverAt(n, c, d, skip) == Never
    decreases |d|
  {
    hide LeadByte, ResponseByte, MethodByte, UrlByte, RequestByte, NameByte, DiscardByte, ValueByte, EndByte, ChunkByte;
    if d != [] {
      var c' := Core(c.p, Push(c.seen, Text(OnBody, [d[0]])));
      assert Apply(c, d[0], skip) == c';
      assert OverAt(n, c, d, skip) == OverPass(n, c, d, skip) == OverAt(n, c', d[1..], skip);
      StopEof(n, c', d[1..], skip);
    }
  }

  // ---- bodies ----

  lemma InvCounts(p: Parser)
    requires Inv(p) && CountsBody(p)
    ensures 0 < p.contentLength < ULLONG_MAX && !ParsingHeader(p.state)
    ensures p.state.Chunk? ==> p.flags.chunked
  {
    hide NumbersFit, HeaderFits, KindFits;
  }

  lemma NumbersOnly(p: Parser, k: nat)
    requires k <= p.contentLength
    ensures NumbersFit(p) == NumbersFit(p.(contentLength := p.contentLength - k))
  {
    hide MethodString;
  }

  lemma ShorterBody(c: Core, k: nat, seen: History, ordered: bool)
    requires Ready(c, ordered) && CountsBody(c.p) && k < c.p.contentLength
             && PhaseOf(seen) == OnText(PhaseOf(c.seen), OnBody)
    ensures Ready(Core(c.p.(contentLength := c.p.contentLength - k), seen), ordered)
  {
    hide NumbersFit, PhaseOf;
    NumbersOnly(c.p, k);
  }

  lemma PhaseAppended(t: History, h: Hook, s: string)
    requires s != ""
    ensures PhaseOf(Appended(t, h, s)) == OnText(PhaseOf(t), h)
  {
    PhasePush(t, Text(h, s));
  }

  /** In a body, which is not counted, the middle of a byte is no different from its start. */
  lemma Uncounted(goal: Goal, n: nat, c: Core, d: string, skip: Skip)
    requires d != [] && !ParsingHeader(c.p.state)
    ensures Amid(goal, n, c, d, skip) <==> Ahead(goal, n, c, d, skip)
  {
    hide Dispatch, Apply, Feed, CountsByte;
  }

  lemma UncountedStop(n: nat, c: Core, d: string, skip: Skip)
    requires d != [] && !ParsingHeader(c.p.state)
    ensures OverAt(n, c, d, skip) == OverByte(n, c, d, skip)
  {
    hide OverByte;
  }

  /** Body bytes short of the announced length. */
  lemma CountedGoal(goal: Goal, n: nat, c: Core, t: History, m: Mark, data: string, p: nat, k: nat, skip: Skip)
    requires p + k <= |data| && (m.Mark? ==> m.from <= p && m.hook == OnBody) && c == Now(c.p, t, m, data, p)
    requires CountsBody(c.p) && Ready(c, goal.ordered) && 0 < k < c.p.contentLength
    requires Ahead(goal, n, c, data[p..], skip)
    ensures var c' := Now(c.p.(contentLength := c.p.contentLength - k), t, MarkAt(m, OnBody, p), data, p + k);
            && Ready(c', goal.ordered) && Ahead(goal, n, c', data[p + k..], skip)
            && OverAt(n, c', data[p + k..], skip) == OverAt(n, c, data[p..], skip)
  {
    hide Feed, Dispatch, Inv, Push, Opened, Spoken, Counts, OnText, OverAt;
    StopCounted(n, c, data[p..], k, skip);
    CountedRun(c, data[p..], k, skip);
    CountedCounts(n, c, data[p..], k, skip);
    CountedPeak(n, c, data[p..], k, skip);
    CountedLaps(c, data[p..], k, skip);
    PendingMore(t, m, data, p, p + k, OnBody);
    PhaseAppended(c.seen, OnBody, data[p..][..k]);
    assert data[p..][k..] == data[p + k..];
    ShorterBody(c, k, Pending(t, MarkAt(m, OnBody, p), data, p + k), goal.ordered);
  }

  /** The last byte of an identity body: read, reported, and looked at again in s_message_done. */
  lemma LastByteGoal(goal: Goal, n: nat, c: Core, t: History, m: Mark, data: string, q: nat, skip: Skip)
    requires q < |data| && (m.Mark? ==> m.from <= q && m.hook == OnBody) && c == Now(c.p, t, m, data, q)
    requires c.p.state == Body(Identity) && c.p.contentLength == 1 && Ready(c, goal.ordered)
    requires Ahead(goal, n, c, data[q..], skip)
    ensures var m' := MarkAt(m, OnBody, q);
            var c' := Now(c.p.(contentLength := 0, state := Body(MessageDone)), t, m', data, q + 1);
            && Ready(c', goal.ordered) && Amid(goal, n, c', data[q..], skip)
            && OverByte(n, c', data[q..], skip) == OverAt(n, c, data[q..], skip)
  {
    hide Inv, Spoken, Push, Feed, Counts, CountsByte, OverByte, LeadByte, ResponseByte, MethodByte, UrlByte,
      RequestByte, NameByte, DiscardByte, ValueByte, EndByte, ChunkByte;
    var m' := MarkAt(m, OnBody, q);
    ReadText(t, m, data, q, OnBody);
    FlushText(t, m', data, q + 1);
    var c' := Now(c.p.(contentLength := 0, state := Body(MessageDone)), t, m', data, q + 1);
    assert Apply(c, data[q], skip) == c';
    ApplyKeeps(c, data[q], skip);
    if goal.ordered { SpokenKeeps(c, data[q], skip); }
    Uncounted(goal, n, c, data[q..], skip);
    UncountedStop(n, c, data[q..], skip);
    PassGoal(goal, n, c, data, q, skip);
    StopPass(n, c, data[q..], skip);
  }

  /** The last byte of a chunk. */
  lemma LastChunkByte(goal: Goal, n: nat, c: Core, t: History, m: Mark, data: string, q: nat, skip: Skip)
    requires q < |data| && (m.Mark? ==> m.from <= q && m.hook == OnBody) && c == Now(c.p, t, m, data, q)
    requires c.p.state == Chunk(ChunkData) && c.p.contentLength == 1 && Ready(c, goal.ordered)
    requires Ahead(goal, n, c, data[q..], skip)
    ensures var m' := MarkAt(m, OnBody, q);
            var c' := Now(c.p.(contentLength := 0, state := Chunk(ChunkDataAlmostDone)), t, m', data, q + 1);
            && Ready(c', goal.ordered) && Ahead(goal, n, c', data[q + 1..], skip)
            && OverAt(n, c', data[q + 1..], skip) == OverAt(n, c, data[q..], skip)
  {
    hide Inv, Spoken, Push, Feed, Counts, CountsByte, OverAt, OverByte, LeadByte, ResponseByte, MethodByte, UrlByte,
      RequestByte, NameByte, DiscardByte, ValueByte, EndByte, BodyByte, Opened;
    var m' := MarkAt(m, OnBody, q);
    ReadText(t, m, data, q, OnBody);
    var c' := Now(c.p.(contentLength := 0, state := Chunk(ChunkDataAlmostDone)), t, m', data, q + 1);
    assert Apply(c, data[q], skip) == c';
    ApplyKeeps(c, data[q], skip);
    OpenedKeeps(c, data[q], skip);
    if goal.ordered { SpokenKeeps(c, data[q], skip); }
    Uncounted(goal, n, c, data[q..], skip);
    UncountedStop(n, c, data[q..], skip);
    PassGoal(goal, n, c, data, q, skip);
    StopPass(n, c, data[q..], skip);
    assert data[q..][1..] == data[q + 1..];
  }

  /** Body bytes up to the end of the data, read until EOF. */
  lemma EofGoal(goal: Goal, n: nat, c: Core, t: History, m: Mark, data: string, p: nat, skip: Skip)
    requires p < |data| && (m.Mark? ==> m.from <= p && m.hook == OnBody) && c == Now(c.p, t, m, data, p)
    requires c.p.state == Body(IdentityEof) && Ready(c, goal.ordered) && Ahead(goal, n, c, data[p..], skip)
    ensures var c' := Now(c.p, t, MarkAt(m, OnBody, p), data, |data|);
            && Ready(c', goal.ordered) && Ahead(goal, n, c', data[|data|..], skip)
            && OverAt(n, c', data[|data|..], skip) == OverAt(n, c, data[p..], skip)
  {
    hide Feed, Dispatch, Inv, Push, Counts;
    StopEof(n, c, data[p..], skip);
    var k := |data| - p;
    PhaseAppended(c.seen, OnBody, data[p..][..k]);
    forall i | 0 <= i < k
      ensures Dispatch(c.p, data[p..][i]) == Act(c.p, Field(OnBody), Quiet, Eat)
    {
      EofStep(c, data[p..][i], skip);
    }
    SteadyRun(c, data[p..], k, OnBody, skip);
    EofCounts(n, c, data[p..], k, skip);
    EofPeak(n, c, data[p..], k, skip);
    PendingMore(t, m, data, p, |data|, OnBody);
    assert data[p..][k..] == data[|data|..];
  }

  /** Only the end of the headers and the chunk states lead to a chunk state. */
  lemma StartLineNoChunk(p: Parser, ch: char)
    requires p.state.Response? || p.state.ReqMethod? || p.state.Url? || p.state.Request?
    ensures Dispatch(p, ch).next.Bad? || !Dispatch(p, ch).p.state.Chunk?
  {
    hide MethodString, SwitchMethod, LeadByte, NameByte, DiscardByte, ValueByte, EndByte, ChunkByte, BodyByte;
    if p.state.Response? { hide UrlByte, RequestByte, MethodByte; }
    else if p.state.Url? { hide ResponseByte, RequestByte, MethodByte; }
  }

  lemma HeaderNoChunk(p: Parser, ch: char)
    requires p.state.Lead? || p.state.Name? || p.state.Discard? || p.state.Value? || p.state.Body?
    ensures Dispatch(p, ch).next.Bad? || !Dispatch(p, ch).p.state.Chunk?
  {
    hide Token, Lower, NameMatcher, Match, StartToken, ResponseByte, MethodByte, UrlByte, RequestByte, EndByte,
      ChunkByte;
  }

  /** s_chunk_size_start is entered on the LF that sets nread back to 0, and left on the next byte. */
  lemma SizeStartEntry(p: Parser, ch: char)
    requires !Dispatch(p, ch).next.Bad? && Dispatch(p, ch).p.state == Chunk(SizeStart)
    ensures ResetsCount(p.state) && ch == LF
  {
    if p.state.End? || p.state.Chunk? {
      hide LeadByte, ResponseByte, MethodByte, UrlByte, RequestByte, NameByte, DiscardByte, ValueByte, BodyByte;
    } else if p.state.Response? || p.state.ReqMethod? || p.state.Url? || p.state.Request? {
      hide Dispatch;
      StartLineNoChunk(p, ch);
    } else {
      hide Dispatch;
      HeaderNoChunk(p, ch);
    }
  }

  /** The states that reset nread fail only on a byte that is no LF. */
  lemma ResetBad(p: Parser, ch: char)
    requires ResetsCount(p.state) && Dispatch(p, ch).next.Bad?
    ensures ch != LF
  {
    hide LeadByte, ResponseByte, MethodByte, UrlByte, RequestByte, NameByte, DiscardByte, ValueByte, BodyByte;
  }

  /** The bounds hold at the start of a call, and when nothing is left. */
  lemma BoundsHold(b: Blocks, e: nat, n: nat, c: Core, d: string, skip: Skip)
    requires b == BlocksOf(n, c, d, skip) || d == []
    ensures Bounded(b, e, n, c, d, skip)
  {
    hide Peak;
  }

  lemma StopFirst(n: nat, c: Core, d: string, skip: Skip)
    requires d != [] && n <= HTTP_MAX_HEADER_SIZE
    ensures OverAt(n, c, d, skip) ==
            if !ParsingHeader(c.p.state) then OverByte(n, c, d, skip)
            else if n < HTTP_MAX_HEADER_SIZE then OverByte(n + 1, c, d, skip)
            else Where(c, d)
    ensures OverAt(n, c, "", skip) == Never
  {
    hide OverByte;
  }

  /** The count of a byte before the switch. */
  lemma CountFirst(goal: Goal, n: nat, c: Core, d: string, skip: Skip)
    requires d != [] && Ahead(goal, n, c, d, skip)
    ensures if !ParsingHeader(c.p.state) then Amid(goal, n, c, d, skip)
            else if n < HTTP_MAX_HEADER_SIZE then Amid(goal, n + 1, c, d, skip)
            else goal.tally.Over?
  {
    hide Dispatch, Apply, Feed, CountsByte;
  }

  /** A call starts with the open text, none of it read yet. */
  lemma StartPending(c: Core, m: Mark, data: string)
    requires Opened(c)
    requires m == match OpenHook(c.p.state) case Field(h) => Mark(h, 0) case Bare => NoMark
    ensures MarkIn(c.p.state, m, 0) && Pending(c.seen, m, data, 0) == c.seen
  {
    if m.Mark? { PushNothing(c.seen, m.hook); }
  }

  /** Nothing left to read. */
  lemma EndGoal(goal: Goal, n: nat, c: Core, d: string, skip: Skip)
    requires Ahead(goal, n, c, d, skip) && d == []
    ensures goal.run == Outcome(c, [], Drained) && goal.tally == Within(n) && OverAt(n, c, d, skip) == Never
  {
  }
}
