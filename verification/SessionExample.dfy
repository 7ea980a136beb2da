/** A session whose callbacks are out of order: a response without a length, and the end of the connection told
    twice. */
module SessionExample {
  import opened Chars
  import opened ParserTypes
  import opened Stream
  import opened Count
  import opened Invariant
  import opened Cursor
  import opened Grammar
  import opened Bodies
  import opened HttpParserObject
  import opened Sessions
  import opened StartLines
  import opened WholeMessages

  const RESPONSE := "HTTP/1.1 200\n\n"

  const MESSAGE := Message(StatusLine(Version("1", "1"), "200", ""), [LF], [], [LF], NoContent)

  const BEGUN := Then(Nothing, Note(OnMessageBegin, ULLONG_MAX))
  const HEADED := Then(BEGUN, Note(OnHeadersComplete, ULLONG_MAX))

  /** The parser that reads a body until the end of the connection. */
  const READING := Core(
    Parser(HttpResponse, NO_FLAGS, State.Body(IdentityEof), General, 0, ULLONG_MAX, 1, 1, 200, Delete, HpeOk, false),
      HEADED)

  lemma Numbers()
    ensures Digits("1") && Number("1") == 1 && Digits("200") && Number("200") == 200
  {
    assert "200"[1..] == "00" && "00"[1..] == "0" && "0"[1..] == "";
  }

  lemma ResponsePrinted()
    ensures HeadText(MESSAGE) == RESPONSE
  {
    assert "1" + ("." + "1") == "1.1" && "1.1" + (" " + "200") == "1.1 200" && "" + [LF] == "\n";
  }

  lemma ReadsResponse()
    ensures Reads(Core(Initial(HttpResponse), Nothing), RESPONSE, NEVER, READING)
  {
    hide Feed, HeadText, NumberFrom;
    var c := Core(Initial(HttpResponse), Nothing);
    Numbers();
    ResponsePrinted();
    hide Digits, Number;
    assert HeadRead(c, MESSAGE, NEVER) == Core(READING.p.(state := End(HeadersDone)), HEADED);
    BodyUntilEof(c, MESSAGE, "", NEVER);
    assert RESPONSE + "" == RESPONSE;
  }

  /** The response is within the header limit. */
  lemma WithinLimit()
    ensures Counts(0, false, Core(Initial(HttpResponse), Nothing), RESPONSE, NEVER).Within?
  {
    hide Feed, Counts, Peak, Plain, EndsInText;
    var c := Core(Initial(HttpResponse), Nothing);
    PeakShort(0, c, RESPONSE, NEVER);
    CountsExact(0, false, c, RESPONSE, NEVER);
    PlainBelowPeak(0, c, RESPONSE, NEVER);
  }

  /** A new parser that has read the response. */
  method Receive() returns (parser: HttpParser, app: Application)
    ensures fresh(parser) && fresh(app) && parser.Valid(app) && parser.Ordered(app)
    ensures Core(parser.fields, Merged(app.signals)) == READING && app.Willing()
  {
    hide Feed, Counts, Peak, Inv, Opened;
    parser := new HttpParser(HttpResponse);
    app := new Application({}, NEVER, (h: History) => Proceed);
    ReadsResponse();
    WithinLimit();
    var _ := parser.Execute(app, RESPONSE);
  }

  /** The response, and the end of the connection told twice; `extra` is the second of these calls, or more data. */
  method ToldTwice(extra: string) returns (parser: HttpParser, app: Application, ghost between: History)
    ensures fresh(parser) && fresh(app) && Merged(between) == Then(HEADED, Note(OnMessageComplete, ULLONG_MAX))
    ensures InOrder(Merged(between)) && !InOrder(Merged(app.signals))
    ensures app.signals == Then(between, if extra == "" then Note(OnMessageComplete, ULLONG_MAX)
            else Text(OnBody, extra))
  {
    hide Feed, Counts, Peak, Inv, Opened, PhaseOf;
    parser, app := Receive();
    TellEnd(parser, app);
    assert parser.fields.errno.HpeOk?;
    between := app.signals;
    var _ := CallAgain(parser, app, extra);
  }
}
