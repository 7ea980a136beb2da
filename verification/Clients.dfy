/** Users of the parser object: input cut into pieces, and callbacks that pause. Whatever the cuts and the
    pauses, the parser and its merged callbacks end where the reference machine does. */
module Clients {
  import opened ParserTypes
  import opened Stream
  import opened Count
  import opened Pieces
  import opened Passes
  import opened Upgrades
  import opened HttpParserObject

  /** The parser as the reference machine sees it. */
  function At(parser: HttpParser, app: Application): Core
    reads parser, app
  {
    Core(parser.fields, Merged(app.signals))
  }

  /** The reference run of `data` from the parser's present state. */
  ghost function Reference(parser: HttpParser, app: Application, data: string): Outcome
    reads parser, app
  {
    Feed(At(parser, app), data, app.Skips())
  }

  /** The header count of one call on `data` from the parser's present state. */
  ghost function Counted(parser: HttpParser, app: Application, data: string): Tally
    reads parser, app
  {
    Counts(parser.nread, false, At(parser, app), data, app.Skips())
  }

  /** The length of the longest header block in `data`, with the bytes of it that were read before. */
  ghost function HeaderPeak(parser: HttpParser, app: Application, data: string): nat
    reads parser, app
  {
    Peak(parser.nread, At(parser, app), data, app.Skips())
  }

  ghost function HeaderBlocks(parser: HttpParser, app: Application, data: string): Blocks
    reads parser, app
  {
    BlocksOf(parser.nread, At(parser, app), data, app.Skips())
  }

  /** A parser between two calls that has not failed and is not paused. */
  ghost predicate Idle(parser: HttpParser, app: Application)
    reads parser, app
  {
    parser.Valid(app) && parser.fields.errno.HpeOk?
  }

  /** A call on the first part of the input, when the whole input runs through. */
  method Begin(parser: HttpParser, app: Application, piece: string, ghost rest: string) returns (n: nat)
    requires Idle(parser, app) && piece != [] && Reference(parser, app, piece + rest).why.Drained?
    modifies parser, app
    ensures parser.Valid(app) && n <= |piece| && parser.Progress(0, Return(n), old(parser.fields.state))
    ensures app.Willing() ==> !Stopped(parser.fields.errno)
    ensures var whole := old(Reference(parser, app, piece + rest));
            match parser.fields.errno
            case HpeOk =>
              && n == |piece| && Reference(parser, app, rest) == whole
              && old(Reference(parser, app, piece)) == Outcome(At(parser, app), "", Drained)
              && old(Counted(parser, app, piece)) == Within(parser.nread)
            case HpeHeaderOverflow => old(Counted(parser, app, piece)).Over?
            case e =>
              var c := Core(Resumed(parser.fields), Merged(app.signals));
              && Stopped(e) && Feed(c, piece[n..] + rest, app.Skips()) == whole
              && Bounded(old(HeaderBlocks(parser, app, piece)), 1, parser.nread, c, piece[n..], app.Skips())
  {
    hide Feed, Ready, Bounded, BlocksOf, Counts;
    ghost var c := At(parser, app);
    FeedAppend(c, piece, rest, app.Skips());
    n := parser.Execute(app, piece);
    if Stopped(parser.fields.errno) {
      FeedAppend(Core(Resumed(parser.fields), Merged(app.signals)), piece[n..], rest, app.Skips());
    }
  }

  /** Feeds the pieces one call each. Header overflow comes exactly when the count of some call passes the limit.
      Otherwise the parser and its callbacks end where the reference run ends, and the count is the true number of
      header bytes, and one more for each call since the last reset that ended inside a name or value. */
  method ExecutePieces(parser: HttpParser, app: Application, pieces: seq<string>) returns (ok: bool)
    requires Idle(parser, app) && app.Willing()
    requires forall i :: 0 <= i < |pieces| ==> pieces[i] != []
    requires Reference(parser, app, Join(pieces)).why.Drained?
    modifies parser, app
    ensures ok <==> old(PiecesPeak(parser.nread, At(parser, app), pieces, app.Skips())) <= HTTP_MAX_HEADER_SIZE
    ensures if ok then At(parser, app) == old(Reference(parser, app, Join(pieces)).c) && Idle(parser, app)
            else parser.fields.errno.HpeHeaderOverflow?
    ensures ok ==> parser.nread == old(Plain(parser.nread, At(parser, app), Join(pieces), app.Skips()))
                                   + old(Overcount(0, At(parser, app), pieces, app.Skips()))
  {
    hide Feed, Ready, Counts, Plain, Peak, EndsInText, Overcount;
    ghost var whole, c0, n0 := Reference(parser, app, Join(pieces)), At(parser, app), parser.nread;
    ghost var past: nat := 0;
    var i: nat := 0;
    while i < |pieces|
      invariant i <= |pieces| && Idle(parser, app)
      invariant Reference(parser, app, Join(pieces[i..])) == whole
      invariant PiecesEnd(parser.nread, At(parser, app), pieces[i..], app.Skips()) ==
                PiecesEnd(n0, c0, pieces, app.Skips())
      invariant past <= HTTP_MAX_HEADER_SIZE
      invariant Max(past, PiecesPeak(parser.nread, At(parser, app), pieces[i..], app.Skips())) ==
                PiecesPeak(n0, c0, pieces, app.Skips())
    {
      assert pieces[i..][1..] == pieces[i + 1..];
      ghost var c, n := At(parser, app), parser.nread;
      var _ := Begin(parser, app, pieces[i], Join(pieces[i + 1..]));
      CountsExact(n, false, c, pieces[i], app.Skips());
      if !parser.fields.errno.HpeOk? { return false; }
      past := Max(past, CallPeak(n, c, pieces[i], app.Skips()));
      i := i + 1;
    }
    FeedNothing(At(parser, app), app.Skips());
    PiecesEndExact(n0, 0, c0, pieces, app.Skips());
    ok := true;
  }

  /** Where a call began: the parser and the callbacks, and the data it was given. */
  datatype Start = Start(c: Core, data: string)

  /** The calls since the count was last set back: those that began with it to be set back as often as the last one. */
  function Stretch(calls: seq<Start>, skip: Skip): nat
    decreases |calls|
  {
    if calls == [] then 0
    else
      var front, last := calls[..|calls| - 1], calls[|calls| - 1];
      if front != [] && LapsOf(front[|front| - 1], skip) == LapsOf(last, skip) then Stretch(front, skip) + 1 else 1
  }

  function LapsOf(s: Start, skip: Skip): nat {
    Laps(s.c, s.data, skip)
  }

  /** The calls of one run: each began where the one before it had stopped, on the same run. */
  predicate OneRun(calls: seq<Start>, first: Start, skip: Skip) {
    && (calls != [] ==> calls[0] == first)
    && forall i :: 0 <= i < |calls| ==>
         && Feed(calls[i].c, calls[i].data, skip) == Feed(first.c, first.data, skip)
         && (i > 0 ==> |calls[i].data| <= |calls[i - 1].data|)
  }

  /** One call, and the unpausing if a callback has paused it; `late` calls have been made since the count was last set
      back. */
  method Resume(parser: HttpParser, app: Application, rest: string, ghost peak: nat, ghost late: nat)
    returns (failed: bool, left: string)
    requires Idle(parser, app) && rest != [] && Reference(parser, app, rest).why.Drained?
    requires LaterPeak(At(parser, app), rest, app.Skips()) <= peak && HeaderPeak(parser, app, rest) <= peak + late
    modifies parser, app
    ensures failed ==> parser.fields.errno.HpeCallback?
                       || (parser.fields.errno.HpeHeaderOverflow? && peak + late + 1 > HTTP_MAX_HEADER_SIZE)
    ensures !failed ==>
              && Idle(parser, app) && Reference(parser, app, left) == old(Reference(parser, app, rest))
              && (|left| < |rest| || (|left| == |rest| && Rank(parser.fields.state) < Rank(old(parser.fields.state))))
              && LaterPeak(At(parser, app), left, app.Skips()) <= peak
              && (left != [] ==>
                    HeaderPeak(parser, app, left) <=
                    peak + if Laps(At(parser, app), left, app.Skips()) == old(Laps(At(parser, app), rest, app.Skips()))
                           then late + 1 else 1)
  {
    hide Feed, Ready, Rank, Peak, Counts, Plain, Laps, LaterPeak;
    assert rest + "" == rest;
    ghost var c, k := At(parser, app), parser.nread;
    var n := Begin(parser, app, rest, "");
    CountsExact(k, false, c, rest, app.Skips());
    PlainBelowPeak(k, c, rest, app.Skips());
    left := rest[n..];
    assert left + "" == left;
    failed := !parser.fields.errno.HpeOk? && !parser.fields.errno.HpePaused?;
    if !failed {
      parser.SetPaused(false);
      NothingLeft(At(parser, app), app.Skips());
    }
  }

  lemma NothingLeft(c: Core, skip: Skip)
    ensures LaterPeak(c, "", skip) == 0
  {
  }

  /** Feeds the input, unpauses the parser whenever a callback has paused it, and goes on from the byte
      the call returned. Each call can count one byte too many: the byte it looked at and did not consume, or one
      for a name or value that it ended in. So header overflow needs a header block that is closer to the limit
      than the number of calls since the count was last set back. */
  method ExecuteThroughPauses(parser: HttpParser, app: Application, data: string) returns (ok: bool, calls: seq<Start>)
    requires Idle(parser, app) && Reference(parser, app, data).why.Drained?
    modifies parser, app
    ensures OneRun(calls, old(Start(At(parser, app), data)), app.Skips())
    ensures if ok then At(parser, app) == old(Reference(parser, app, data).c)
            else if parser.fields.errno.HpeHeaderOverflow? then
              old(HeaderPeak(parser, app, data)) + Stretch(calls, app.Skips()) + 1 > HTTP_MAX_HEADER_SIZE
            else parser.fields.errno.HpeCallback?
  {
    hide Feed, Ready, Rank, Peak, Counts, Plain, Laps, LaterPeak, OneRun, Stretch;
    ghost var whole, peak := Reference(parser, app, data), HeaderPeak(parser, app, data);
    ghost var first := Start(At(parser, app), data);
    var rest := data;
    calls := [];
    LaterBelow(parser.nread, At(parser, app), data, app.Skips());
    FirstCall(first, app.Skips());
    while rest != []
      invariant Idle(parser, app) && Reference(parser, app, rest) == whole
      invariant OneRun(calls + [Start(At(parser, app), rest)], first, app.Skips())
      invariant LaterPeak(At(parser, app), rest, app.Skips()) <= peak
      invariant rest != [] ==>
                  HeaderPeak(parser, app, rest) <= peak + Stretch(calls + [Start(At(parser, app), rest)], app.Skips())
      decreases |rest|, Rank(parser.fields.state)
    {
      calls := calls + [Start(At(parser, app), rest)];
      var failed, left := Resume(parser, app, rest, peak, Stretch(calls, app.Skips()));
      if failed { return false, calls; }
      rest := left;
      StretchMore(calls, Start(At(parser, app), rest), app.Skips());
      RunMore(calls, Start(At(parser, app), rest), first, app.Skips());
    }
    FeedNothing(At(parser, app), app.Skips());
    RunLess(calls, Start(At(parser, app), rest), first, app.Skips());
    ok := true;
  }

  lemma FirstCall(s: Start, skip: Skip)
    ensures OneRun([] + [s], s, skip)
  {
  }

  lemma StretchMore(calls: seq<Start>, s: Start, skip: Skip)
    requires calls != []
    ensures Stretch(calls + [s], skip) ==
            if LapsOf(calls[|calls| - 1], skip) == LapsOf(s, skip) then Stretch(calls, skip) + 1 else 1
  {
    hide LapsOf;
    var more := calls + [s];
    assert more[..|more| - 1] == calls;
  }

  lemma RunMore(calls: seq<Start>, s: Start, first: Start, skip: Skip)
    requires OneRun(calls, first, skip) && calls != []
    requires Feed(s.c, s.data, skip) == Feed(first.c, first.data, skip) && |s.data| <= |calls[|calls| - 1].data|
    ensures OneRun(calls + [s], first, skip)
  {
    hide Feed;
  }

  lemma RunLess(calls: seq<Start>, s: Start, first: Start, skip: Skip)
    requires OneRun(calls + [s], first, skip)
    ensures OneRun(calls, first, skip)
  {
    hide Feed;
    var more := calls + [s];
    assert forall i :: 0 <= i < |calls| ==> calls[i] == more[i];
  }

  /** A call on the next piece of any input. */
  method Next(parser: HttpParser, app: Application, piece: string, ghost rest: string) returns (n: nat)
    requires Idle(parser, app) && app.Willing() && UpgradeFits(parser.fields) && piece != []
    modifies parser, app
    ensures parser.Valid(app) && n <= |piece|
    ensures var whole := old(Reference(parser, app, piece + rest));
            match parser.fields.errno
            case HpeOk =>
              if Left(parser.fields) then whole == Outcome(At(parser, app), piece[n..] + rest, Upgraded)
              else
                && n == |piece| && Reference(parser, app, rest) == whole && UpgradeFits(parser.fields)
                && old(Reference(parser, app, piece)) == Outcome(At(parser, app), "", Drained)
                && old(Counted(parser, app, piece)) == Within(parser.nread)
            case HpeHeaderOverflow => old(Counted(parser, app, piece)).Over?
            case _ =>
              && whole.why.Failed? && whole.c.p == parser.fields && whole.rest == piece[n..] + rest
              && LacksOpenText(Merged(app.signals), whole.c.seen)
  {
    hide Feed, Ready, Bounded, BlocksOf, Counts, UpgradeFits;
    ghost var c := At(parser, app);
    FeedAppend(c, piece, rest, app.Skips());
    FeedFits(c, piece, app.Skips());
    n := parser.Execute(app, piece);
  }

  /** Feeds any input in any pieces, until the parser fails or leaves HTTP. It ends like the reference run of the whole
      input: with the same fields, at the same byte, whether that is an error, an upgrade or the end of the input;
      and with the same callbacks, but for text that is open at an error. Or some call has counted too many header
      bytes. */
  method ExecuteAll(parser: HttpParser, app: Application, pieces: seq<string>) returns (n: nat)
    requires Idle(parser, app) && app.Willing() && UpgradeFits(parser.fields)
    requires forall i :: 0 <= i < |pieces| ==> pieces[i] != []
    modifies parser, app
    ensures n <= |Join(pieces)|
    ensures var whole := old(Reference(parser, app, Join(pieces)));
            var peak := old(PiecesPeak(parser.nread, At(parser, app), pieces, app.Skips()));
            match parser.fields.errno
            case HpeOk =>
              && whole == Outcome(At(parser, app), Join(pieces)[n..], if Left(parser.fields) then Upgraded else Drained)
              && (!Left(parser.fields) ==> peak <= HTTP_MAX_HEADER_SIZE)
            case HpeHeaderOverflow => peak > HTTP_MAX_HEADER_SIZE
            case _ =>
              && whole.why.Failed? && whole.c.p == parser.fields && whole.rest == Join(pieces)[n..]
              && LacksOpenText(Merged(app.signals), whole.c.seen)
  {
    hide Feed, Ready, Counts, Plain, Peak, EndsInText, UpgradeFits, LacksOpenText;
    ghost var whole, c0, n0 := Reference(parser, app, Join(pieces)), At(parser, app), parser.nread;
    ghost var past: nat := 0;
    var i: nat := 0;
    n := 0;
    if Left(parser.fields) { FeedFits(c0, "", app.Skips()); FeedNothing(c0, app.Skips()); }
    while i < |pieces|
      invariant i <= |pieces| && Idle(parser, app) && UpgradeFits(parser.fields)
      invariant Reference(parser, app, Join(pieces[i..])) == whole
      invariant n <= |Join(pieces)| && Join(pieces)[n..] == Join(pieces[i..])
      invariant past <= HTTP_MAX_HEADER_SIZE
      invariant Max(past, PiecesPeak(parser.nread, At(parser, app), pieces[i..], app.Skips())) ==
                PiecesPeak(n0, c0, pieces, app.Skips())
      invariant !Left(parser.fields)
    {
      assert pieces[i..][1..] == pieces[i + 1..];
      ghost var c, k, later := At(parser, app), parser.nread, Join(pieces[i + 1..]);
      var read := Next(parser, app, pieces[i], later);
      CountsExact(k, false, c, pieces[i], app.Skips());
      CutAt(Join(pieces), n, pieces[i], later, read);
      n := n + read;
      if !parser.fields.errno.HpeOk? || Left(parser.fields) { return; }
      past := Max(past, CallPeak(k, c, pieces[i], app.Skips()));
      i := i + 1;
    }
    FeedNothing(At(parser, app), app.Skips());
  }

  lemma CutAt(all: string, n: nat, piece: string, later: string, k: nat)
    requires n <= |all| && all[n..] == piece + later && k <= |piece|
    ensures n + k <= |all| && all[n + k..] == piece[k..] + later
  {
    assert all[n + k..] == all[n..][k..];
  }

  /** Two parsers in the same state, one fed in one call and one fed in pieces, end the same, unless the count of
      one of them passes the limit. */
  method AnyCut(one: HttpParser, oneApp: Application, two: HttpParser, twoApp: Application, pieces: seq<string>)
    returns (ok: bool)
    requires one != two && oneApp != twoApp
    requires Idle(one, oneApp) && Idle(two, twoApp) && oneApp.Willing() && twoApp.Willing()
    requires At(one, oneApp) == At(two, twoApp) && oneApp.Skips() == twoApp.Skips()
    requires pieces != [] && forall i :: 0 <= i < |pieces| ==> pieces[i] != []
    requires Reference(one, oneApp, Join(pieces)).why.Drained?
    modifies one, oneApp, two, twoApp
    ensures ok <==>
            && old(PiecesPeak(one.nread, At(one, oneApp), [Join(pieces)], oneApp.Skips())) <= HTTP_MAX_HEADER_SIZE
            && old(PiecesPeak(two.nread, At(two, twoApp), pieces, twoApp.Skips())) <= HTTP_MAX_HEADER_SIZE
    ensures if ok then At(one, oneApp) == At(two, twoApp)
            else one.fields.errno.HpeHeaderOverflow? || two.fields.errno.HpeHeaderOverflow?
  {
    hide Feed, Ready, PiecesPeak;
    assert Join([Join(pieces)]) == Join(pieces) + "" == Join(pieces);
    var okOne := ExecutePieces(one, oneApp, [Join(pieces)]);
    var okTwo := ExecutePieces(two, twoApp, pieces);
    ok := okOne && okTwo;
  }
}
