/** The mutable parser object: http_parser_init, http_parser_pause and http_parser_execute. */
module HttpParserObject {
  import opened Chars
  import opened ParserTypes
  import opened Machine
  import opened Stream
  import opened Invariant
  import opened Cursor
  import opened Grammar
  import opened Count
  import opened Passes

  /** What a callback does: return 0, pause the parser, or return an error. */
  datatype Verdict = Proceed | Pause | Fail

  const NEVER: Skip := (h: History) => false

  /** The user of the parser: the callbacks it installs and what they answer. A callback decides from the
      history of signals up to its own; whether on_headers_complete returns 1 depends on the merged
      history only, not on how the input was cut up. A missing callback is one that returns 0. */
  class Application {
    const hooks: set<Hook>
    const skip: Skip
    const stop: History -> Verdict
    var signals: History

    constructor (hooks: set<Hook>, skip: Skip, stop: History -> Verdict)
      ensures this.hooks == hooks && this.skip == skip && this.stop == stop && signals == Nothing
    {
      this.hooks, this.skip, this.stop, this.signals := hooks, skip, stop, Nothing;
    }

    function Skips(): Skip {
      if OnHeadersComplete in hooks then skip else NEVER
    }

    /** No callback pauses the parser or fails. */
    ghost predicate Willing() {
      forall t :: stop(t) == Proceed
    }

    method Call(e: Event) returns (v: Verdict)
      modifies this
      ensures signals == Then(old(signals), e)
      ensures v == if e.hook in hooks then stop(signals) else Proceed
    {
      signals := Then(signals, e);
      v := if e.hook in hooks then stop(signals) else Proceed;
    }
  }

  /** Signals are only ever added. */
  predicate Grown(was: History, now: History) {
    now == was || (now.Then? && Grown(was, now.past))
  }

  lemma {:induction false} GrownMore(a: History, b: History, c: History)
    requires Grown(a, b) && Grown(b, c)
    ensures Grown(a, c)
    decreases c
  {
    if c != b { GrownMore(a, b, c.past); }
  }

  /** How a pass of the switch ends: `break`, `goto reexecute`, or a return from the call. */
  datatype Control = Break | Reexecute | Return(n: nat)

  /** Only the open text at the end of `full` can be missing from `seen`. */
  predicate LacksOpenText(seen: History, full: History) {
    || seen == full
    || (full.Then? && full.last.Text?
        && (seen == full.past
            || (Ends(seen, full.last.hook) && seen.past == full.past && seen.last.text <= full.last.text)))
  }

  lemma PendingLacks(t: History, m: Mark, data: string, p: nat)
    requires p <= |data| && (m.Mark? ==> m.from <= p)
    ensures LacksOpenText(t, Pending(t, m, data, p))
  {
  }

  lemma LacksInOrder(seen: History, full: History)
    requires LacksOpenText(seen, full) && InOrder(full)
    ensures InOrder(seen)
  {
  }

  function Resumed(p: Parser): Parser {
    p.(errno := HpeOk)
  }

  predicate Stopped(e: Errno) {
    e.HpePaused? || e.HpeCallback?
  }

  /** What the parser, the unread bytes and the header count `n` say about the goal when a call returns. */
  ghost predicate Explains(goal: Goal, p: Parser, seen: History, rest: string, n: nat, skip: Skip) {
    if p.errno.HpeOk? then
      && Ready(Core(p, seen), goal.ordered) && n <= HTTP_MAX_HEADER_SIZE && goal.tally == Within(n)
        && goal.stop == Never
      && (goal.run == Outcome(Core(p, seen), rest, Upgraded)
          || (rest == "" && goal.run == Outcome(Core(p, seen), "", Drained)))
    else if Stopped(p.errno) then
      var c := Core(Resumed(p), seen);
      && Ready(c, goal.ordered) && n <= HTTP_MAX_HEADER_SIZE
      && (|| (Feed(c, rest, skip) == goal.run && Bounded(goal.blocks, 1, n, c, rest, skip))
          || goal.run == Outcome(c, rest, Upgraded))
    else if p.errno.HpeHeaderOverflow? then
      && goal.tally.Over? && (goal.ordered ==> InOrder(seen))
      && goal.stop.Where? && Resumed(p) == goal.stop.c.p && rest == goal.stop.rest
        && LacksOpenText(seen, goal.stop.c.seen)
    else
      && goal.run.why.Failed? && goal.run.c.p == p && goal.run.rest == rest && LacksOpenText(seen, goal.run.c.seen)
      && goal.stop == Never
  }

  lemma ExplainsInOrder(goal: Goal, p: Parser, seen: History, rest: string, n: nat, skip: Skip)
    requires Explains(goal, p, seen, rest, n, skip) && goal.ordered && InOrder(goal.run.c.seen)
    ensures InOrder(seen)
  {
    hide Feed, Inv, Opened, InOrder, LacksOpenText, Peak;
    if p.errno.HpeOk? || Stopped(p.errno) { SpokenInOrder(Core(Resumed(p), seen)); }
    else if !p.errno.HpeHeaderOverflow? { LacksInOrder(seen, goal.run.c.seen); }
  }

  lemma ReadyInOrder(p: Parser, t: History, m: Mark, data: string, i: nat, ordered: bool)
    requires i <= |data| && (m.Mark? ==> m.from <= i) && Ready(Now(p, t, m, data, i), ordered)
    ensures ordered ==> InOrder(t)
  {
    hide Inv, Opened, InOrder;
    if ordered {
      SpokenInOrder(Now(p, t, m, data, i));
      PendingInOrder(t, m, data, i);
    }
  }

  /** From where a callback stopped the call, the header blocks are those that are left, but for the byte that the call
      looked at. */
  lemma StopBounded(goal: Goal, n: nat, c: Core, d: string, skip: Skip)
    requires d == [] || Ahead(goal, n, c, d, skip) || Amid(goal, n, c, d, skip)
    ensures Bounded(goal.blocks, 1, n, c, d, skip)
  {
    hide Dispatch, Apply, Feed, Counts, CountsByte, PeakByte;
    if d != [] { PeakByteShift(n, 1, c, d, skip); }
  }

  /** A single pass on the way to the goal: all that the switch needs to know of it. */
  lemma PassFacts(goal: Goal, n: nat, c: Core, t: History, m: Mark, data: string, p: nat, skip: Skip)
    requires p < |data| && MarkIn(c.p.state, m, p) && c == Now(c.p, t, m, data, p) && n <= HTTP_MAX_HEADER_SIZE
    requires Ready(c, goal.ordered) && c.p.state != Body(Identity)
    requires Amid(goal, n, c, data[p..], skip) && OverByte(n, c, data[p..], skip) == goal.stop
    requires !LoopsOverText(c.p.state) || Dispatch(c.p, data[p]).reading.Bare?
    ensures var a := Dispatch(c.p, data[p]);
            var c', n' := Apply(c, data[p], skip), CountAfter(c.p.state, data[p], n);
            match a.next
            case Bad(e) =>
              && ParseError(e) && a.sig.Quiet? && a.reading.Bare? && goal.stop == Never
              && goal.run == Outcome(Core(a.p.(errno := e), c.seen), data[p..], Failed)
              && (ResetsCount(c.p.state) ==> data[p] != LF)
            case Eat =>
              && Ahead(goal, n', c', data[p + 1..], skip) && OverAt(n', c', data[p + 1..], skip) == goal.stop
              && Bounded(goal.blocks, 1, n', c', data[p + 1..], skip)
            case Redo =>
              && Amid(goal, n', c', data[p..], skip) && OverByte(n', c', data[p..], skip) == goal.stop
              && Bounded(goal.blocks, 1, n', c', data[p..], skip)
            case Exit =>
              && goal.run == Outcome(c', data[p + 1..], Upgraded) && goal.tally == Within(n') && goal.stop == Never
  {
    hide Apply, Dispatch, Inv, Opened, Spoken, MarkOk, Feed, CountsByte, OverAt, OverByte, Bounded, ByteBounded, Push,
      Pending;
    var a := Dispatch(c.p, data[p]);
    var c', n' := Apply(c, data[p], skip), CountAfter(c.p.state, data[p], n);
    PassEffect(c, t, m, data, p, skip, goal.ordered);
    PassGoal(goal, n, c, data, p, skip);
    assert data[p..][0] == data[p] && data[p..][1..] == data[p + 1..];
    if c.p.state == Value(ValueText) && c.p.hstate.General? { BareValue(c.p, data[p]); }
    StopPass(n, c, data[p..], skip);
    match a.next
    case Bad(_) =>
      BadEffect(c, data[p], skip);
      if ResetsCount(c.p.state) { ResetBad(c.p, data[p]); }
    case Eat => StopBounded(goal, n', c', data[p + 1..], skip);
    case Redo => StopBounded(goal, n', c', data[p..], skip);
    case Exit =>
  }

  /** A stop is explained as well by a smaller count, whatever the exact count should have been. */
  lemma StopsLess(goal: Goal, goal': Goal, p: Parser, seen: History, rest: string, n: nat, n': nat, skip: Skip)
    requires Explains(goal, p, seen, rest, n, skip) && Stopped(p.errno) && n' <= n
             && goal' == goal.(tally := goal'.tally, stop := goal'.stop)
    ensures Explains(goal', p, seen, rest, n', skip)
  {
    hide Feed, Peak, Inv, Opened, Spoken, Laps, LaterPeak;
    PeakShift(n', n - n', Core(Resumed(p), seen), rest, skip);
  }

  lemma EofReady(c: Core, c': Core)
    requires Ready(c, false) && c.p.state == Body(IdentityEof) && c'.p == c.p
    ensures Ready(c', false)
  {
    hide Inv;
  }

  /** What a call on `data` must agree with. */
  ghost function Aim(p: Parser, seen: History, n: nat, data: string, skip: Skip): Goal {
    var c := Core(p, seen);
    Goal(Feed(c, data, skip), Counts(n, false, c, data, skip), OverAt(n, c, data, skip), BlocksOf(n, c, data, skip),
      Spoken(c))
  }

  /** The fields of a cleared parser of the given type. */
  function Initial(kind: Kind): Parser {
    var start := if kind.HttpRequest? then StartReq else if kind.HttpResponse? then StartRes else StartReqOrRes;
    Parser(kind, Flags(false, false, false, false, false, false, false), Lead(start), General, 0, 0, 0, 0, 0, Delete,
           HpeOk, false)
  }

  /** memchr */
  method Memchr(data: string, from: nat, limit: nat, c: char) returns (found: bool, i: nat)
    requires from + limit <= |data|
    ensures found ==> from <= i < from + limit && data[i] == c
    ensures from <= i <= from + limit && (!found ==> i == from + limit)
    ensures forall j :: from <= j < i ==> data[j] != c
  {
    i := from;
    while i < from + limit
      invariant from <= i <= from + limit
      invariant forall j :: from <= j < i ==> data[j] != c
    {
      if data[i] == c { return true, i; }
      i := i + 1;
    }
    found := false;
  }

  /** The skip over a general header value: to the first line break, looked for in a window of
      HTTP_MAX_HEADER_SIZE bytes only, or else to the end of the data. */
  method SkipValue(data: string, p: nat) returns (q: nat, ghost lost: bool)
    requires p < |data| && data[p] != CR && data[p] != LF
    ensures p < q <= |data|
    ensures if lost then q == |data| && q - p > HTTP_MAX_HEADER_SIZE && !HasBreak(data, p, p + HTTP_MAX_HEADER_SIZE)
            else
              && !HasBreak(data, p, q) && q - p <= HTTP_MAX_HEADER_SIZE
              && (q < |data| ==> q - p < HTTP_MAX_HEADER_SIZE && (data[q] == CR || data[q] == LF))
  {
    var limit := if |data| - p < HTTP_MAX_HEADER_SIZE then |data| - p else HTTP_MAX_HEADER_SIZE;
    var crFound, cr := Memchr(data, p, limit, CR);
    var lfFound, lf := Memchr(data, p, limit, LF);
    if crFound {
      q := if lfFound && cr >= lf then lf else cr;
    } else if lfFound {
      q := lf;
    } else {
      q := |data|;
    }
    lost := q > p + limit;
  }

  class HttpParser {
    /** The struct's fields, as one record. */
    var fields: Parser
    var nread: nat

    /** http_parser_init */
    constructor (kind: Kind)
      ensures fields == Initial(kind) && nread == 0
      ensures Ready(Core(fields, Nothing), true)
    {
      var s := match kind case HttpRequest => StartReq case HttpResponse => StartRes case HttpBoth => StartReqOrRes;
      fields := Parser(kind, NO_FLAGS, Lead(s), General, 0, 0, 0, 0, 0, Delete, HpeOk, false);
      nread := 0;
    }

    /** Between two bytes, nread is 0 where a chunk size is about to start. */
    predicate ChunkStartsFresh()
      reads this
    {
      fields.state == Chunk(SizeStart) && (fields.errno.HpeOk? || Stopped(fields.errno)) ==> nread == 0
    }

    ghost predicate MidByte(app: Application, data: string, p: nat, m: Mark, goal: Goal, n: nat)
      reads this, app
    {
      && p < |data| && MarkIn(fields.state, m, p) && fields.errno.HpeOk? && n <= HTTP_MAX_HEADER_SIZE
      && var c := Now(fields, Merged(app.signals), m, data, p);
         && Ready(c, goal.ordered) && Amid(goal, n, c, data[p..], app.Skips())
         && OverByte(n, c, data[p..], app.Skips()) == goal.stop
    }

    ghost predicate NextByte(app: Application, data: string, p: nat, m: Mark, goal: Goal, n: nat)
      reads this, app
    {
      && p <= |data| && MarkIn(fields.state, m, p) && fields.errno.HpeOk?
      && var c := Now(fields, Merged(app.signals), m, data, p);
         && Ready(c, goal.ordered) && Ahead(goal, n, c, data[p..], app.Skips())
         && OverAt(n, c, data[p..], app.Skips()) == goal.stop
    }

    /** In an inner loop, from byte `p` to byte `q`. */
    ghost predicate InLoop(app: Application, data: string, p: nat, q: nat, m: Mark, goal: Goal, n: nat)
      reads this, app
    {
      && p <= q <= |data| && MarkIn(fields.state, m, q) && fields.errno.HpeOk?
      && var c := Now(fields, Merged(app.signals), m, data, q);
         && Ready(c, goal.ordered) && Looping(goal, n, q - p, c, data[q..], app.Skips())
         && OverLoop(n, q - p, c, data[q..], app.Skips()) == goal.stop
    }

    ghost predicate Returns(app: Application, data: string, p: nat, goal: Goal, n: nat)
      reads this, app
    {
      p <= |data| && Explains(goal, fields, Merged(app.signals), data[p..], n, app.Skips())
    }

    /** The count is about to pass the limit, where the goal says. */
    ghost predicate Overflows(app: Application, rest: string, goal: Goal)
      reads this, app
    {
      && goal.tally.Over? && goal.stop.Where? && fields == goal.stop.c.p && rest == goal.stop.rest
      && LacksOpenText(Merged(app.signals), goal.stop.c.seen)
    }

    /** What a pass, or a run of passes from byte `p` to byte `q`, promises the main loop. */
    ghost predicate Continues(app: Application, data: string, p: nat, q: nat, m: Mark, ctl: Control, goal: Goal,
                              n: nat, was: State)
      reads this, app
    {
      match ctl
      case Break => p <= q < |data| && NextByte(app, data, q + 1, m, goal, n)
      case Reexecute =>
        && p <= q < |data| && MidByte(app, data, q, m, goal, n)
        && Rank(fields.state) < Rank(was) && OpenHook(fields.state).Bare?
      case Return(r) => Returns(app, data, r, goal, n)
    }

    /** A callback that stops the call has consumed a byte or moved on to a state of lower rank. */
    predicate Progress(p: nat, ctl: Control, was: State)
      reads this
    {
      ctl.Return? && Stopped(fields.errno) ==> ctl.n > p || (ctl.n == p && Rank(fields.state) < Rank(was))
    }

    /** A parser is paused, or has failed on a callback, because the last callback it ran paused it, or failed. */
    predicate Blamed(app: Application)
      reads this, app
    {
      match fields.errno
      case HpePaused =>
        app.signals.Then? && app.signals.last.hook in app.hooks && app.stop(app.signals) == Pause
      case HpeCallback(h) =>
        app.signals.Then? && app.signals.last.hook == h && h in app.hooks && app.stop(app.signals) == Fail
      case _ => true
    }

    /** CALLBACK_NOTIFY_ and CALLBACK_DATA_ */
    method Callback(app: Application, e: Event)
      requires fields.errno.HpeOk?
      modifies this`fields, app
      ensures app.signals == Then(old(app.signals), e)
      ensures Blamed(app)
      ensures var skipping := e.hook.OnHeadersComplete? && e.hook in app.hooks && app.skip(Merged(app.signals));
              && Resumed(fields) == (if skipping then old(fields).(flags := old(fields).flags.(skipBody := true))
                                     else old(fields))
              && fields.errno == if e.hook !in app.hooks then HpeOk
                                 else match app.stop(app.signals)
                                      case Proceed => HpeOk
                                      case Pause => HpePaused
                                      case Fail => if skipping then HpeOk else HpeCallback(e.hook)
    {
      assert fields.errno.HpeOk?;
      var v := app.Call(e);
      if e.hook.OnHeadersComplete? && app.Skips()(Merged(app.signals)) {
        fields := fields.(flags := fields.flags.(skipBody := true));
        if v == Fail { v := Proceed; }
      }
      match v
      case Proceed =>
      case Pause => fields := fields.(errno := HpePaused);
      case Fail => fields := fields.(errno := HpeCallback(e.hook));
    }

    /** The callback of a pass. */
    method Report(app: Application, data: string, p: nat, m: Mark, a: Act, ghost t: History)
      requires p <= |data| && (m.Mark? ==> m.from <= p)
      requires fields == a.p && a.p.errno.HpeOk? && t == Merged(app.signals)
      requires Orderly(m, p, a)
      modifies this`fields, app
      ensures Merged(app.signals) == Reported(t, m, data, p, a) && Grown(old(app.signals), app.signals)
      ensures Resumed(fields) == Answered(a, Merged(app.signals), app.Skips())
      ensures fields.errno.HpeOk? || (Stopped(fields.errno) && !a.sig.Quiet?)
      ensures Blamed(app)
    {
      hide Push;
      match a.sig
      case Quiet =>
      case Tell(h) => Callback(app, Note(h, fields.contentLength));
      case Flush(h) => if m.Mark? { Callback(app, Text(h, data[m.from..p])); }
      case Blank(h) => Callback(app, Text(h, ""));
    }

    /** COUNT_HEADER_SIZE */
    method CountHeader(n: nat) returns (ok: bool)
      requires fields.errno.HpeOk?
      modifies this`fields, this`nread
      ensures nread == old(nread) + n && ok == (nread <= HTTP_MAX_HEADER_SIZE)
      ensures fields == if ok then old(fields) else old(fields).(errno := HpeHeaderOverflow)
    {
      nread := nread + n;
      ok := nread <= HTTP_MAX_HEADER_SIZE;
      if !ok { fields := fields.(errno := HpeHeaderOverflow); }
    }

    /** One pass of the switch on byte `p`: the new fields, MARK, the callback, and where to go next.
        `n` is the header count once the bytes up to this one are counted. */
    method Step(app: Application, data: string, p: nat, m: Mark, ghost goal: Goal, ghost n: nat)
      returns (m': Mark, ctl: Control)
      requires MidByte(app, data, p, m, goal, n) && fields.state != Body(Identity)
      requires !LoopsOverText(fields.state) || Dispatch(fields, data[p]).reading.Bare?
      modifies this`fields, this`nread, app
      ensures Continues(app, data, p, p, m', ctl, goal, CountAfter(old(fields.state), data[p], n), old(fields.state))
      ensures nread == CountAfter(old(fields.state), data[p], old(nread))
      ensures ctl.Break? ==>
                p + 1 <= |data| && (m'.Mark? ==> m'.from <= p + 1)
                && Now(fields, Merged(app.signals), m', data, p + 1) ==
                   old(Apply(Now(fields, Merged(app.signals), m, data, p), data[p], app.Skips()))
      ensures Grown(old(app.signals), app.signals)
      ensures ChunkStartsFresh()
      ensures Blamed(app)
      ensures Progress(p, ctl, old(fields.state))
      ensures var next := Dispatch(old(fields), data[p]).next;
              && (ctl.Reexecute? ==> next.Redo?)
              && (ctl.Return? ==> Stopped(fields.errno) || (ParseError(fields.errno) && next.Bad?)
                                  || (fields.errno.HpeOk? && next.Exit?))
    {
      hide Apply, Dispatch, Inv, Opened, Spoken, MarkOk, Feed, Counts, CountsByte, OverAt, OverByte, OverLoop, Lost,
        Bounded, ByteBounded, Rank;
      var ch := data[p];
      var a := Dispatch(fields, ch);
      ghost var t := Merged(app.signals);
      ghost var c := Now(fields, t, m, data, p);
      PassEffect(c, t, m, data, p, app.Skips(), goal.ordered);
      PassFacts(goal, n, c, t, m, data, p, app.Skips());
      if a.next.Bad? {
        fields := a.p.(errno := a.next.why);
        PendingLacks(t, m, data, p);
        return m, Return(p);
      }
      if a.p.state == Chunk(SizeStart) { SizeStartEntry(fields, ch); }
      nread := CountAfter(fields.state, ch, nread);
      fields := a.p;
      m' := MarkAfter(m, p, a);
      Report(app, data, p, m, a, t);
      if !fields.errno.HpeOk? || a.next.Exit? {
        ctl := Return(After(p, a));
      } else {
        ctl := if a.next.Eat? then Break else Reexecute;
      }
    }

    /** s_header_field: the inner loop over a name, then the byte that ends it. */
    method NameLoop(app: Application, data: string, p: nat, m: Mark, ghost goal: Goal)
      returns (q: nat, m': Mark, ctl: Control)
      requires MidByte(app, data, p, m, goal, nread) && fields.state == Name(FieldText)
      modifies this`fields, this`nread, app
      ensures Continues(app, data, p, q, m', ctl, goal, nread, old(fields.state))
      ensures ChunkStartsFresh() && Progress(p, ctl, old(fields.state))
      ensures Blamed(app)
      ensures Grown(old(app.signals), app.signals)
    {
      hide Dispatch, Inv, Opened, Spoken, MarkOk, Feed, Counts, CountsByte, OverAt, OverByte, OverLoop, Lost, Bounded,
        ByteBounded, Rank, Token, NameToken, Amid;
      q, m' := p, m;
      StopStart(nread, Now(fields, Merged(app.signals), m, data, p), data[p..], app.Skips());
      while q < |data| && Token(data[q]) != '\0'
        invariant InLoop(app, data, p, q, m, goal, nread) && fields.state == Name(FieldText)
        invariant app.signals == old(app.signals)
      {
        ghost var t := Merged(app.signals);
        NamePass(fields, m, data[q]);
        NameNotLost(fields, data[q..]);
        LoopMore(goal, nread, q - p, Now(fields, t, m, data, q), t, m, data, q, app.Skips(),
                 NameToken(fields, data[q]), OnHeaderField);
        assert NameStates(fields.hstate) by { InvNames(fields); }
        fields := NameToken(fields, data[q]);
        q := q + 1;
      }
      LoopEnd(goal, nread, q - p, Now(fields, Merged(app.signals), m, data, q), data[q..], app.Skips());
      if q < |data| { NameEnd(fields, data[q]); }
      StopEnd(nread, q - p, Now(fields, Merged(app.signals), m, data, q), data[q..], app.Skips());
      PendingLacks(Merged(app.signals), m, data, q);
      ReadyInOrder(fields, Merged(app.signals), m, data, q, goal.ordered);
      var ok := CountHeader(q - p);
      if !ok { return q, m', Return(q); }
      if q == |data| {
        q, ctl := q - 1, Break;
      } else {
        m', ctl := Step(app, data, q, m, goal, nread);
      }
    }

    /** The skip over the rest of a general value. */
    method GeneralSkip(app: Application, data: string, p: nat, q: nat, m: Mark, ghost goal: Goal)
      returns (r: nat, ghost lost: bool)
      requires InLoop(app, data, p, q, m, goal, nread) && fields.state == Value(ValueText) && fields.hstate.General?
      requires nread > 0 && q < |data| && data[q] != CR && data[q] != LF
      ensures q < r <= |data|
      ensures if lost then r == |data| && r - p > HTTP_MAX_HEADER_SIZE && Overflows(app, "", goal)
              else InLoop(app, data, p, r, m, goal, nread)
    {
      hide Dispatch, Inv, Opened, Spoken, MarkOk, Feed, Counts, CountsByte, OverAt, OverByte, OverLoop, Lost, Bounded,
        ByteBounded, Rank, ValueToken, LengthByte, HasBreak, Amid;
      ghost var t := Merged(app.signals);
      ghost var c := Now(fields, t, m, data, q);
      r, lost := SkipValue(data, q);
      if lost {
        WindowOver(goal, nread, q - p, c, t, m, data, q, app.Skips());
        StopLost(nread, q - p, c, data, q, app.Skips());
        PendingLacks(t, m, data, q);
      } else {
        GeneralRun(goal, nread, q - p, c, t, m, data, q, r, app.Skips());
        GeneralStop(goal, nread, q - p, c, t, m, data, q, r, app.Skips());
      }
    }

    /** The loop over the bytes of a value. `lost`: the window of SkipValue was too short, so the header
        is too long in any case. */
    method ValueScan(app: Application, data: string, p: nat, m: Mark, ghost goal: Goal)
      returns (q: nat, ghost lost: bool, ctl: Control)
      requires MidByte(app, data, p, m, goal, nread) && fields.state == Value(ValueText) && nread > 0
      modifies this`fields
      ensures ctl.Break? || (ctl.Return? && ParseError(fields.errno) && Returns(app, data, ctl.n, goal, nread))
      ensures ctl.Break? ==> p <= q <= |data| && fields.state == Value(ValueText) && fields.errno.HpeOk?
      ensures ctl.Break? ==> if lost then q == |data| && q - p > HTTP_MAX_HEADER_SIZE && Overflows(app, "", goal)
                             else InLoop(app, data, p, q, m, goal, nread)
      ensures ctl.Break? && q < |data| ==> data[q] == CR || data[q] == LF
    {
      hide Dispatch, Inv, Opened, Spoken, MarkOk, Feed, Counts, CountsByte, OverAt, OverByte, OverLoop, Lost, Bounded,
        ByteBounded, Rank, ValueToken, LengthByte, HasBreak, Amid;
      q, lost, ctl := p, false, Break;
      StopStart(nread, Now(fields, Merged(app.signals), m, data, p), data[p..], app.Skips());
      while q < |data| && data[q] != CR && data[q] != LF
        invariant p <= q <= |data| && fields.state == Value(ValueText) && fields.errno.HpeOk?
        invariant if lost then q == |data| && q - p > HTTP_MAX_HEADER_SIZE && Overflows(app, "", goal)
                  else InLoop(app, data, p, q, m, goal, nread)
      {
        ghost var t := Merged(app.signals);
        ghost var c := Now(fields, t, m, data, q);
        ValuePass(fields, m, data[q]);
        assert ValueStates(fields.hstate) by { InvValues(fields); }
        PendingLacks(t, m, data, q);
        OnlyGeneralLost(fields, data[q..]);
        if fields.hstate.General? {
          q, lost := GeneralSkip(app, data, p, q, m, goal);
        } else if fields.hstate == Named(ContentLength) {
          var a := LengthByte(fields, data[q]);
          if a.next.Bad? {
            LoopBad(goal, nread, q - p, c, t, m, data, q, app.Skips());
            StopBad(nread, q - p, c, data[q..], app.Skips());
            fields := a.p.(errno := a.next.why);
            ctl := Return(q);
            return;
          }
          LoopMore(goal, nread, q - p, c, t, m, data, q, app.Skips(), a.p, OnHeaderValue);
          fields := a.p;
          q := q + 1;
        } else {
          LoopMore(goal, nread, q - p, c, t, m, data, q, app.Skips(), ValueToken(fields, data[q]), OnHeaderValue);
          fields := ValueToken(fields, data[q]);
          q := q + 1;
        }
      }
    }

    /** The CR that ends a value: it is reported before the bytes of the loop are counted. */
    method ValueReturn(app: Application, data: string, p: nat, q: nat, m: Mark, ghost goal: Goal)
      returns (m': Mark, ctl: Control)
      requires InLoop(app, data, p, q, m, goal, nread) && fields.state == Value(ValueText) && nread > 0
      requires q < |data| && data[q] == CR && nread <= HTTP_MAX_HEADER_SIZE
      modifies this`fields, this`nread, app
      ensures Continues(app, data, q, q, m', ctl, goal, nread, old(fields.state)) && !ctl.Reexecute?
      ensures ChunkStartsFresh() && Progress(q, ctl, old(fields.state))
      ensures Blamed(app)
      ensures Grown(old(app.signals), app.signals)
    {
      hide Dispatch, Inv, Opened, Spoken, MarkOk, Feed, Counts, CountsByte, OverAt, OverByte, OverLoop, Lost, Bounded,
        ByteBounded, Rank, ValueToken, LengthByte, Amid;
      ghost var c := Now(fields, Merged(app.signals), m, data, q);
      ghost var n := nread + (q - p);
      LoopEnd(goal, nread, q - p, c, data[q..], app.Skips());
      ValueEnd(fields, data[q]);
      StopEnd(nread, q - p, c, data[q..], app.Skips());
      LoopLoose(goal, nread, q - p, c, data[q..], app.Skips());
      ghost var n' := if n <= HTTP_MAX_HEADER_SIZE then n else nread;
      ghost var goal' := if n <= HTTP_MAX_HEADER_SIZE then goal else Loosely(goal, nread, c, data[q..], app.Skips());
      m', ctl := Step(app, data, q, m, goal', n');
      if !ctl.Break? {
        StopsLess(goal', goal, fields, Merged(app.signals), data[ctl.n..], n', nread, app.Skips());
        return;
      }
      ReadyInOrder(fields, Merged(app.signals), m', data, q + 1, goal.ordered);
      PendingLacks(Merged(app.signals), m', data, q + 1);
      var ok := CountHeader(q - p);
      if !ok { ctl := Return(q); }
    }

    /** s_header_value: the inner loop over a value, then the line break that ends it. A CR is reported
        before the loop's bytes are counted, a LF after. */
    method ValueLoop(app: Application, data: string, p: nat, m: Mark, ghost goal: Goal)
      returns (q: nat, m': Mark, ctl: Control)
      requires MidByte(app, data, p, m, goal, nread) && fields.state == Value(ValueText) && nread > 0
      modifies this`fields, this`nread, app
      ensures Continues(app, data, p, q, m', ctl, goal, nread, old(fields.state))
      ensures ChunkStartsFresh() && Progress(p, ctl, old(fields.state))
      ensures Blamed(app)
      ensures Grown(old(app.signals), app.signals)
    {
      hide Dispatch, Inv, Opened, Spoken, MarkOk, Feed, Counts, CountsByte, OverAt, OverByte, OverLoop, Lost, Bounded,
        ByteBounded, Rank, ValueToken, LengthByte, Amid;
      m' := m;
      ghost var lost: bool;
      ReadyInOrder(fields, Merged(app.signals), m, data, p, goal.ordered);
      q, lost, ctl := ValueScan(app, data, p, m, goal);
      if ctl.Return? { return; }
      if q < |data| && data[q] == CR {
        m', ctl := ValueReturn(app, data, p, q, m, goal);
        return;
      }
      ghost var c := Now(fields, Merged(app.signals), m, data, q);
      PendingLacks(Merged(app.signals), m, data, q);
      if !lost {
        LoopEnd(goal, nread, q - p, c, data[q..], app.Skips());
        if q < |data| { ValueEnd(fields, data[q]); }
        StopEnd(nread, q - p, c, data[q..], app.Skips());
      }
      var ok := CountHeader(q - p);
      if !ok { return q, m', Return(q); }
      if q == |data| {
        q, ctl := q - 1, Break;
      } else {
        m', ctl := Step(app, data, q, m, goal, nread);
      }
    }

    /** s_body_identity */
    method IdentityBody(app: Application, data: string, p: nat, m: Mark, ghost goal: Goal)
      returns (q: nat, m': Mark, ctl: Control)
      requires MidByte(app, data, p, m, goal, nread) && fields.state == Body(Identity)
      modifies this`fields, app
      ensures Continues(app, data, p, q, m', ctl, goal, nread, old(fields.state))
      ensures !fields.state.Chunk? && Blamed(app) && Grown(old(app.signals), app.signals)
      ensures Progress(p, ctl, old(fields.state))
    {
      hide Dispatch, Inv, Opened, Spoken, Feed, Counts, CountsByte, OverAt, OverByte, OverLoop, Lost, Bounded,
        ByteBounded, Push;
      ghost var t := Merged(app.signals);
      ghost var c := Now(fields, t, m, data, p);
      InvCounts(fields);
      assert fields.contentLength != 0 && fields.contentLength != ULLONG_MAX;
      Uncounted(goal, nread, c, data[p..], app.Skips());
      UncountedStop(nread, c, data[p..], app.Skips());
      var toRead := if fields.contentLength < |data| - p then fields.contentLength else |data| - p;
      var left := fields.contentLength - toRead;
      m' := MarkAt(m, OnBody, p);
      q := p + toRead - 1;
      if left > 0 {
        CountedGoal(goal, nread, c, t, m, data, p, toRead, app.Skips());
        fields := fields.(contentLength := left);
        ctl := Break;
      } else {
        ghost var m1 := if toRead > 1 then m' else m;
        if toRead > 1 { CountedGoal(goal, nread, c, t, m, data, p, toRead - 1, app.Skips()); }
        LastByteGoal(goal, nread, Now(fields.(contentLength := 1), t, m1, data, q), t, m1, data, q, app.Skips());
        fields := fields.(contentLength := 0, state := Body(MessageDone));
        InvErrno(fields);
        Callback(app, Text(OnBody, data[m'.from..q + 1]));
        m' := NoMark;
        StopBounded(goal, nread, Core(Resumed(fields), Merged(app.signals)), data[q..], app.Skips());
        ctl := if fields.errno.HpeOk? then Reexecute else Return(q);
      }
    }

    /** s_chunk_data */
    method ChunkBody(app: Application, data: string, p: nat, m: Mark, ghost goal: Goal)
      returns (q: nat, m': Mark, ctl: Control)
      requires MidByte(app, data, p, m, goal, nread) && fields.state == Chunk(ChunkData)
      modifies this`fields
      ensures Continues(app, data, p, q, m', ctl, goal, nread, old(fields.state)) && ctl.Break?
      ensures fields.state != Chunk(SizeStart) && fields.errno.HpeOk?
    {
      hide Dispatch, Inv, Opened, Spoken, Feed, Counts, CountsByte, OverAt, OverByte, OverLoop, Lost, Bounded,
        ByteBounded, Push;
      ghost var t := Merged(app.signals);
      ghost var c := Now(fields, t, m, data, p);
      InvCounts(fields);
      assert fields.flags.chunked && fields.contentLength != 0 && fields.contentLength != ULLONG_MAX;
      Uncounted(goal, nread, c, data[p..], app.Skips());
      UncountedStop(nread, c, data[p..], app.Skips());
      var toRead := if fields.contentLength < |data| - p then fields.contentLength else |data| - p;
      var left := fields.contentLength - toRead;
      m' := MarkAt(m, OnBody, p);
      q, ctl := p + toRead - 1, Break;
      if left > 0 {
        CountedGoal(goal, nread, c, t, m, data, p, toRead, app.Skips());
        fields := fields.(contentLength := left);
      } else {
        ghost var m1 := if toRead > 1 then m' else m;
        if toRead > 1 { CountedGoal(goal, nread, c, t, m, data, p, toRead - 1, app.Skips()); }
        LastChunkByte(goal, nread, Now(fields.(contentLength := 1), t, m1, data, q), t, m1, data, q, app.Skips());
        fields := fields.(contentLength := 0, state := Chunk(ChunkDataAlmostDone));
        InvErrno(fields);
      }
    }

    /** s_body_identity_eof */
    method EofBody(app: Application, data: string, p: nat, m: Mark, ghost goal: Goal)
      returns (q: nat, m': Mark, ctl: Control)
      requires MidByte(app, data, p, m, goal, nread) && fields.state == Body(IdentityEof)
      ensures Continues(app, data, p, q, m', ctl, goal, nread, fields.state) && ctl.Break?
      ensures fields.errno.HpeOk? && q == |data| - 1 && m' == MarkAt(m, OnBody, p)
    {
      hide Dispatch, Inv, Opened, Spoken, Feed, Counts, CountsByte, OverAt, OverByte, OverLoop, Lost, Bounded,
        ByteBounded, Push;
      ghost var t := Merged(app.signals);
      ghost var c := Now(fields, t, m, data, p);
      Uncounted(goal, nread, c, data[p..], app.Skips());
      UncountedStop(nread, c, data[p..], app.Skips());
      EofGoal(goal, nread, c, t, m, data, p, app.Skips());
      q, m', ctl := |data| - 1, MarkAt(m, OnBody, p), Break;
    }

    /** The switch: an inner loop, a body jump, or a single pass. */
    method Pass(app: Application, data: string, p: nat, m: Mark, ghost goal: Goal)
      returns (q: nat, m': Mark, ctl: Control)
      requires MidByte(app, data, p, m, goal, nread)
      requires fields.state == Value(ValueText) ==> nread > 0
      modifies this`fields, this`nread, app
      ensures Continues(app, data, p, q, m', ctl, goal, nread, old(fields.state))
      ensures ChunkStartsFresh() && Blamed(app)
      ensures Progress(p, ctl, old(fields.state)) && Grown(old(app.signals), app.signals)
      ensures old(fields.state) == Body(IdentityEof) ==>
                fields == old(fields) && app.signals == old(app.signals) && ctl.Break? && q == |data| - 1
                && m' == MarkAt(m, OnBody, p)
    {
      hide Dispatch, MidByte, Continues;
      match fields.state
      case Name(FieldText) => q, m', ctl := NameLoop(app, data, p, m, goal);
      case Value(ValueText) => q, m', ctl := ValueLoop(app, data, p, m, goal);
      case Body(Identity) => q, m', ctl := IdentityBody(app, data, p, m, goal);
      case Body(IdentityEof) => q, m', ctl := EofBody(app, data, p, m, goal);
      case Chunk(ChunkData) => q, m', ctl := ChunkBody(app, data, p, m, goal);
      case _ =>
        q := p;
        m', ctl := Step(app, data, p, m, goal, nread);
    }

    /** http_parser_pause. Pausing a parser in an error state is a caller's mistake and changes nothing. */
    method SetPaused(paused: bool)
      modifies this`fields
      ensures var e := old(fields.errno);
              fields == if e.HpeOk? || e.HpePaused? then old(fields).(errno := if paused then HpePaused else HpeOk)
                        else old(fields)
    {
      if fields.errno.HpeOk? || fields.errno.HpePaused? {
        fields := fields.(errno := if paused then HpePaused else HpeOk);
      }
    }

    /** Between two calls, unless the parser has failed. */
    ghost predicate Valid(app: Application)
      reads this, app
    {
      fields.errno.HpeOk? || Stopped(fields.errno) ==>
        && Ready(Core(Resumed(fields), Merged(app.signals)), false)
        && nread <= HTTP_MAX_HEADER_SIZE && ChunkStartsFresh()
    }

    /** The callbacks so far are in order, and unless the parser has failed, in step with its state. */
    ghost predicate Ordered(app: Application)
      reads this, app
    {
      && InOrder(Merged(app.signals))
      && (fields.errno.HpeOk? || Stopped(fields.errno) ==> Spoken(Core(Resumed(fields), Merged(app.signals))))
    }

    /** The mark a call starts with: text that is open goes on at the first byte. */
    function FirstMark(): Mark
      reads this
    {
      match OpenHook(fields.state) case Field(h) => Mark(h, 0) case Bare => NoMark
    }

    /** One turn of the main loop: counts byte `p`, then runs the switch until it breaks or returns. */
    method Turn(app: Application, data: string, p: nat, m: Mark, ghost goal: Goal)
      returns (q: nat, m': Mark, ctl: Control)
      requires NextByte(app, data, p, m, goal, nread) && ChunkStartsFresh() && p < |data|
      modifies this`fields, this`nread, app
      ensures !ctl.Reexecute?
      ensures ctl.Break? ==> p <= q < |data| && NextByte(app, data, q + 1, m', goal, nread)
      ensures ctl.Return? ==> Returns(app, data, ctl.n, goal, nread)
      ensures ChunkStartsFresh() && Blamed(app)
      ensures Progress(p, ctl, old(fields.state)) && Grown(old(app.signals), app.signals)
      ensures old(fields.state) == Body(IdentityEof) ==>
                fields == old(fields) && app.signals == old(app.signals) && ctl.Break? && q == |data| - 1
                && m' == MarkAt(m, OnBody, p)
    {
      hide Dispatch, Inv, Opened, Spoken, Feed, Counts, CountsByte, OverAt, OverByte, OverLoop, Lost, Bounded,
        ByteBounded, Rank;
      CountFirst(goal, nread, Now(fields, Merged(app.signals), m, data, p), data[p..], app.Skips());
      StopFirst(nread, Now(fields, Merged(app.signals), m, data, p), data[p..], app.Skips());
      PendingLacks(Merged(app.signals), m, data, p);
      if ParsingHeader(fields.state) {
        ReadyInOrder(fields, Merged(app.signals), m, data, p, goal.ordered);
        var ok := CountHeader(1);
        if !ok { return p, m, Return(p); }
      }
      assert fields.state == Chunk(SizeStart) ==> nread == 1;
      q, m', ctl := p, m, Reexecute;
      while ctl.Reexecute?
        invariant ctl.Reexecute? ==> MidByte(app, data, q, m', goal, nread)
        invariant ctl.Reexecute? && fields.state == Value(ValueText) ==> nread > 0
        invariant !ctl.Return? ==> p <= q < |data|
        invariant ctl.Reexecute? ==> Rank(fields.state) <= Rank(old(fields.state))
        invariant Progress(p, ctl, old(fields.state))
        invariant ctl.Break? ==> NextByte(app, data, q + 1, m', goal, nread)
        invariant ctl.Return? ==> Returns(app, data, ctl.n, goal, nread)
        invariant !ctl.Reexecute? ==> ChunkStartsFresh() && Blamed(app)
        invariant Grown(old(app.signals), app.signals)
        invariant old(fields.state) == Body(IdentityEof) ==> fields == old(fields) && app.signals == old(app.signals)
        invariant old(fields.state) == Body(IdentityEof) ==>
                    if ctl.Reexecute? then q == p && m' == m
                    else ctl.Break? && q == |data| - 1 && m' == MarkAt(m, OnBody, p)
        decreases ctl.Reexecute?, Rank(fields.state)
      {
        hide MidByte, NextByte, Returns;
        ghost var was := app.signals;
        q, m', ctl := Pass(app, data, q, m', goal);
        GrownMore(old(app.signals), was, app.signals);
      }
    }

    /** The end of the data: text that is still marked is reported, and stays open. */
    method Finish(app: Application, data: string, m: Mark, ghost goal: Goal)
      requires NextByte(app, data, |data|, m, goal, nread) && ChunkStartsFresh()
      modifies this`fields, app
      ensures Returns(app, data, |data|, goal, nread) && ChunkStartsFresh()
      ensures app.signals == if m.Mark? then Then(old(app.signals), Text(m.hook, data[m.from..])) else old(app.signals)
      ensures Resumed(fields) == old(fields) && Blamed(app)
    {
      hide Dispatch, Inv, Opened, Spoken, InOrder, Feed, Counts, CountsByte, OverAt, OverByte, OverLoop, Lost,
        Bounded, ByteBounded, Rank;
      EndGoal(goal, nread, Now(fields, Merged(app.signals), m, data, |data|), data[|data|..], app.Skips());
      assert data[..|data|] == data;
      if m.Mark? { Callback(app, Text(m.hook, data[m.from..])); }
      BoundsHold(goal.blocks, 1, nread, Core(Resumed(fields), Merged(app.signals)), data[|data|..], app.Skips());
    }

    /** http_parser_execute on a non-empty piece of input. */
    method ExecuteData(app: Application, data: string) returns (n: nat)
      requires Valid(app) && fields.errno.HpeOk? && data != []
      modifies this, app
      ensures Returns(app, data, n, Aim(old(fields), old(Merged(app.signals)), old(nread), data, app.Skips()), nread)
      ensures Valid(app) && Progress(0, Return(n), old(fields.state))
      ensures old(Ordered(app)) ==> Ordered(app)
      ensures Grown(old(app.signals), app.signals)
      ensures old(fields.state) == Body(IdentityEof) ==>
                n == |data| && Resumed(fields) == old(fields)
                  && app.signals == Then(old(app.signals), Text(OnBody, data))
      ensures Blamed(app)
    {
      hide Dispatch, Inv, Opened, Spoken, InOrder, Feed, Counts, CountsByte, OverAt, OverByte, OverLoop, Lost,
        Bounded, ByteBounded, Rank, BlocksOf;
      ghost var goal := Aim(fields, Merged(app.signals), nread, data, app.Skips());
      var mark := FirstMark();
      if goal.ordered { FeedInOrder(Core(fields, Merged(app.signals)), data, app.Skips()); }
      StartPending(Core(fields, Merged(app.signals)), mark, data);
      assert data[0..] == data;
      BoundsHold(goal.blocks, 0, nread, Core(fields, Merged(app.signals)), data, app.Skips());
      var p: nat := 0;
      while p < |data|
        invariant NextByte(app, data, p, mark, goal, nread) && ChunkStartsFresh()
        invariant p == 0 ==> fields.state == old(fields.state)
        invariant Grown(old(app.signals), app.signals)
        invariant old(fields.state) == Body(IdentityEof) ==>
                    && fields == old(fields) && app.signals == old(app.signals)
                    && (if p == 0 then mark == NoMark else p == |data| && mark == Mark(OnBody, 0))
      {
        ghost var was := app.signals;
        var q, mark', ctl := Turn(app, data, p, mark, goal);
        GrownMore(old(app.signals), was, app.signals);
        mark := mark';
        if ctl.Return? {
          if goal.ordered { ExplainsInOrder(goal, fields, Merged(app.signals), data[ctl.n..], nread, app.Skips()); }
          return ctl.n;
        }
        p := q + 1;
      }
      n := p;
      Finish(app, data, mark, goal);
      assert data[0..] == data;
      if goal.ordered { ExplainsInOrder(goal, fields, Merged(app.signals), data[n..], nread, app.Skips()); }
    }

    /** http_parser_execute. A call on no data signals the end of the connection. */
    method Execute(app: Application, data: string) returns (n: nat)
      requires Valid(app)
      modifies this, app
      ensures Valid(app)
      ensures old(Ordered(app)) && !old(AtEof(data)) ==> Ordered(app)
      ensures !old(fields.errno).HpeOk? ==>
                n == 0 && fields == old(fields) && nread == old(nread) && app.signals == old(app.signals)
      ensures old(fields.errno).HpeOk? && data != [] ==>
                Returns(app, data, n, Aim(old(fields), old(Merged(app.signals)), old(nread), data, app.Skips()), nread)
      ensures old(fields.errno).HpeOk? && data == [] ==>
                && nread == old(nread)
                && (if fields.state == Body(IdentityEof) then
                      && n == 0 && Resumed(fields) == old(fields)
                      && (fields.errno.HpeOk? || Stopped(fields.errno))
                      && app.signals == Then(old(app.signals), Note(OnMessageComplete, fields.contentLength))
                    else
                      && app.signals == old(app.signals)
                      && (if fields.state.Lead? && !fields.state.lead.ResOrRespH? then n == 0 && fields == old(fields)
                          else n == 1 && fields == old(fields).(errno := HpeInvalidEofState)))
      ensures old(fields.errno).HpeOk? ==> Blamed(app)
      ensures app.Willing() && old(fields.errno).HpeOk? ==> !Stopped(fields.errno)
      ensures data != [] && old(fields.errno).HpeOk? ==> Progress(0, Return(n), old(fields.state))
      ensures Grown(old(app.signals), app.signals)
      ensures data != [] && old(fields.errno).HpeOk? && old(fields.state) == Body(IdentityEof) ==>
                n == |data| && Resumed(fields) == old(fields)
                  && app.signals == Then(old(app.signals), Text(OnBody, data))
    {
      hide Inv, Opened, Feed, Counts, Rank, Peak, Spoken;
      if !fields.errno.HpeOk? { return 0; }
      if data != [] {
        n := ExecuteData(app, data);
        return;
      }
      match fields.state
      case Body(IdentityEof) =>
        ghost var c := Core(fields, Merged(app.signals));
        Callback(app, Note(OnMessageComplete, fields.contentLength));
        EofReady(c, Core(Resumed(fields), Merged(app.signals)));
        n := 0;
      case Lead(s) =>
        if s.ResOrRespH? {
          fields := fields.(errno := HpeInvalidEofState);
          n := 1;
        } else {
          n := 0;
        }
      case _ =>
        fields := fields.(errno := HpeInvalidEofState);
        n := 1;
    }

    /** The end of the connection, signalled to a parser that reads a body until then. */
    predicate AtEof(data: string)
      reads this
    {
      data == [] && fields.errno.HpeOk? && fields.state == Body(IdentityEof)
    }
  }
}
