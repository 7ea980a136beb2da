/** Whole sessions: any sequence of calls on one parser. The callbacks come in order, exactly until a parser that
    was told the end of the connection, while it read a body until then, is called again. */
module Sessions {
  import opened ParserTypes
  import opened Stream
  import opened Count
  import opened Invariant
  import opened Cursor
  import opened Grammar
  import opened HttpParserObject

  /** What a client does: http_parser_execute, where no data means the end, or http_parser_pause. */
  datatype Request = Call(data: string) | Pausing(paused: bool)

  /** A request, with the parser's fields before and after it. */
  datatype Entry = Entry(request: Request, before: Parser, after: Parser)

  /** A call that the parser does not turn down for its errno. */
  predicate Accepted(e: Entry) {
    e.request.Call? && e.before.errno.HpeOk?
  }

  /** The end of the connection, accepted while a body is read until then. */
  predicate Closing(e: Entry) {
    Accepted(e) && e.request.data == "" && e.before.state == State.Body(IdentityEof)
  }

  predicate Closed(log: seq<Entry>) {
    exists i :: 0 <= i < |log| && Closing(log[i])
  }

  /** A call was accepted after the end of the connection. */
  predicate CalledAfterClosing(log: seq<Entry>) {
    exists i, j :: 0 <= i < j < |log| && Closing(log[i]) && Accepted(log[j])
  }

  /** The log of a session from one state of the parser to another. */
  predicate Logs(log: seq<Entry>, requests: seq<Request>, from: Parser, to: Parser) {
    && |log| == |requests|
    && (forall i :: 0 <= i < |log| ==> log[i].request == requests[i])
    && (forall i :: 0 <= i < |log| - 1 ==> log[i].after == log[i + 1].before)
    && (if log == [] then from == to else log[0].before == from && log[|log| - 1].after == to)
  }

  /** The state of a parser that was told the end: the message is complete, and it goes on reading its body. */
  ghost predicate AfterClosing(parser: HttpParser, app: Application)
    reads parser, app
  {
    parser.fields.state == State.Body(IdentityEof) && PhaseOf(Merged(app.signals)).Idle?
  }

  /** Out of order stays out of order. */
  lemma {:induction false} BrokenGrows(was: History, now: History)
    requires Grown(was, now) && !InOrder(Merged(was))
    ensures !InOrder(Merged(now))
    decreases now
  {
    hide Merged, Push;
    PhaseMerged(was);
    PhaseMerged(now);
    if now != was {
      BrokenGrows(was, now.past);
      PhaseMerged(now.past);
    }
  }

  /** Being told the end completes the message, in order; unlike any other completion of a message that does not
      keep the connection alive it leaves the parser alive, in the middle of the body that it has completed. */
  method TellEnd(parser: HttpParser, app: Application)
    requires parser.Valid(app) && parser.Ordered(app) && parser.AtEof("")
    modifies parser, app
    ensures parser.Valid(app) && AfterClosing(parser, app) && InOrder(Merged(app.signals))
    ensures Resumed(parser.fields) == old(parser.fields) && (app.Willing() ==> parser.fields.errno.HpeOk?)
    ensures app.signals == Then(old(app.signals), Note(OnMessageComplete, parser.fields.contentLength))
  {
    hide Inv, Opened, Feed, Push;
    ghost var t := app.signals;
    var _ := parser.Execute(app, "");
    PhaseMerged(t);
    PhaseMerged(app.signals);
  }

  /** Any further call that is accepted breaks the order: told the end again, the parser completes the message
      again, and given data it delivers more of the completed body. */
  method CallAgain(parser: HttpParser, app: Application, data: string) returns (n: nat)
    requires parser.Valid(app) && AfterClosing(parser, app) && parser.fields.errno.HpeOk?
    modifies parser, app
    ensures parser.Valid(app) && !InOrder(Merged(app.signals)) && Grown(old(app.signals), app.signals)
    ensures Resumed(parser.fields) == old(parser.fields)
    ensures app.signals == Then(old(app.signals),
                                if data == "" then Note(OnMessageComplete, parser.fields.contentLength)
                                  else Text(OnBody, data))
  {
    hide Inv, Opened, Feed, Push;
    ghost var t := app.signals;
    n := parser.Execute(app, data);
    PhaseMerged(t);
    PhaseMerged(app.signals);
  }

  /** One request. */
  method Serve(parser: HttpParser, app: Application, r: Request)
    requires parser.Valid(app)
    modifies parser, app
    ensures parser.Valid(app) && Grown(old(app.signals), app.signals)
    ensures var e := Entry(r, old(parser.fields), parser.fields);
            && (old(parser.Ordered(app)) ==> if Closing(e) then AfterClosing(parser, app) else parser.Ordered(app))
            && (old(AfterClosing(parser, app)) ==>
                  if Accepted(e) then !InOrder(Merged(app.signals)) else AfterClosing(parser, app))
  {
    hide Inv, Opened, Feed, Push, Counts, Peak;
    match r
    case Pausing(paused) => parser.SetPaused(paused);
    case Call(data) =>
      ghost var was := app.signals;
      var _ := parser.Execute(app, data);
      PhaseMerged(was);
      PhaseMerged(app.signals);
  }

  lemma LogMore(log: seq<Entry>, e: Entry)
    ensures Closed(log + [e]) <==> Closed(log) || Closing(e)
    ensures CalledAfterClosing(log + [e]) <==> CalledAfterClosing(log) || (Closed(log) && Accepted(e))
  {
    var more := log + [e];
    assert more[|log|] == e;
    if Closed(log) {
      var i :| 0 <= i < |log| && Closing(log[i]);
      assert more[i] == log[i];
    }
    if CalledAfterClosing(log) {
      var i, j :| 0 <= i < j < |log| && Closing(log[i]) && Accepted(log[j]);
      assert more[i] == log[i] && more[j] == log[j];
    }
  }

  /** The callbacks of a whole session come in order exactly when no call is accepted after the end of the
      connection was accepted in the middle of a body that is read until then. */
  method Session(parser: HttpParser, app: Application, requests: seq<Request>) returns (log: seq<Entry>)
    requires parser.Valid(app) && parser.Ordered(app)
    modifies parser, app
    ensures Logs(log, requests, old(parser.fields), parser.fields)
    ensures InOrder(Merged(app.signals)) <==> !CalledAfterClosing(log)
  {
    hide Closing, Accepted;
    log := [];
    var i := 0;
    while i < |requests|
      invariant 0 <= i <= |requests| && parser.Valid(app)
      invariant Logs(log, requests[..i], old(parser.fields), parser.fields)
      invariant if CalledAfterClosing(log) then !InOrder(Merged(app.signals))
                else if Closed(log) then AfterClosing(parser, app)
                else parser.Ordered(app)
    {
      ghost var was := app.signals;
      var before := parser.fields;
      Serve(parser, app, requests[i]);
      var e := Entry(requests[i], before, parser.fields);
      LogMore(log, e);
      ClosingAccepted(e);
      if CalledAfterClosing(log) { BrokenGrows(was, app.signals); }
      assert requests[..i + 1] == requests[..i] + [requests[i]];
      log := log + [e];
      i := i + 1;
    }
    assert requests[..i] == requests;
  }

  lemma ClosingAccepted(e: Entry)
    ensures Closing(e) ==> Accepted(e)
  {
  }
}
