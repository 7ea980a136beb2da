/** The first line of a message: request lines and status lines, whole. */
module StartLines {
  import opened Chars
  import opened ParserTypes
  import opened Machine
  import opened Stream
  import opened Bodies
  import opened Chunked
  import opened Values
  import opened Methods
  import opened UrlLayout
  import opened Target

  // ---- numbers ----

  predicate Digits(s: string) {
    s != "" && forall i :: 0 <= i < |s| ==> IsNum(s[i])
  }

  /** The number that starts with `v` and goes on with the digits `s`. */
  function NumberFrom(v: nat, s: string): (r: nat)
    requires forall i :: 0 <= i < |s| ==> IsNum(s[i])
    ensures r >= v
    decreases |s|
  {
    if s == "" then v else NumberFrom(v * 10 + Digit(s[0]), s[1..])
  }

  function Number(s: string): nat
    requires Digits(s)
  {
    NumberFrom(0, s)
  }

  /** The numbers of a start line. */
  datatype Slot = Major | Minor | Code

  function Get(p: Parser, slot: Slot): nat {
    match slot case Major => p.httpMajor case Minor => p.httpMinor case Code => p.statusCode
  }

  function Put(p: Parser, slot: Slot, v: nat): Parser {
    match slot
    case Major => p.(httpMajor := v)
    case Minor => p.(httpMinor := v)
    case Code => p.(statusCode := v)
  }

  /** The states before the first digit of a number, and after it. */
  predicate Before(s: State, slot: Slot) {
    match slot
    case Major => s == Response(ResFirstMajor) || s == Request(ReqFirstMajor)
    case Minor => s == Response(ResFirstMinor) || s == Request(ReqFirstMinor)
    case Code => s == Response(ResFirstStatusCode)
  }

  function Within(s: State, slot: Slot): State {
    match slot
    case Major => if s.Request? then Request(ReqMajor) else Response(ResMajor)
    case Minor => if s.Request? then Request(ReqMinor) else Response(ResMinor)
    case Code => Response(ResStatusCode)
  }

  const LARGEST: nat := 999

  lemma StepReads(c: Core, ch: char, q: Parser, skip: Skip)
    requires Dispatch(c.p, ch) == Act(q, Bare, Quiet, Eat)
    ensures Reads(c, [ch], skip, Core(q, c.seen))
  {
    hide Dispatch;
    ReadsByte(c, ch, skip);
  }

  lemma DigitPass(p: Parser, slot: Slot, ch: char)
    requires p.state == Within(p.state, slot) && IsNum(ch)
    ensures var v := Get(p, slot) * 10 + Digit(ch);
            if v > LARGEST then Dispatch(p, ch).next.Bad? else Dispatch(p, ch) == Act(Put(p, slot, v), Bare, Quiet, Eat)
  {
  }

  lemma {:induction false} MoreDigits(c: Core, slot: Slot, s: string, skip: Skip)
    requires c.p.state == Within(c.p.state, slot) && Get(c.p, slot) <= LARGEST && forall i :: 0 <= i < |s| ==>
             IsNum(s[i])
    ensures var v := NumberFrom(Get(c.p, slot), s);
            if v > LARGEST then Feed(c, s, skip).why.Failed? else Reads(c, s, skip, Core(Put(c.p, slot, v), c.seen))
    decreases |s|
  {
    hide Dispatch;
    if s != "" {
      DigitPass(c.p, slot, s[0]);
      var v := Get(c.p, slot) * 10 + Digit(s[0]);
      if v <= LARGEST {
        var c1 := Core(Put(c.p, slot, v), c.seen);
        assert Apply(c, s[0], skip) == c1;
        MoreDigits(c1, slot, s[1..], skip);
      }
    }
  }

  lemma FirstDigit(p: Parser, slot: Slot, ch: char)
    requires Before(p.state, slot) && IsNum(ch)
    ensures if p.state == Request(ReqFirstMajor) && ch == '0' then Dispatch(p, ch).next.Bad?
            else Dispatch(p, ch) == Act(Put(p, slot, Digit(ch)).(state := Within(p.state, slot)), Bare, Quiet, Eat)
  {
  }

  /** A number that the parser takes: up to 999; the major version of a request starts with no 0. */
  predicate Fits(s: State, slot: Slot, n: string)
    requires Digits(n)
  {
    Number(n) <= LARGEST && (s == Request(ReqFirstMajor) ==> n[0] != '0')
  }

  /** A number is read exactly when it fits. */
  lemma NumberText(c: Core, slot: Slot, n: string, skip: Skip)
    requires Before(c.p.state, slot) && Digits(n)
    ensures if Fits(c.p.state, slot, n) then
              Reads(c, n, skip, Core(Put(c.p, slot, Number(n)).(state := Within(c.p.state, slot)), c.seen))
            else Feed(c, n, skip).why.Failed?
  {
    hide Dispatch, Feed;
    assert n == [n[0]] + n[1..];
    FirstDigit(c.p, slot, n[0]);
    if c.p.state == Request(ReqFirstMajor) && n[0] == '0' {
      BadByte(c, n, skip);
    } else {
      var c1 := Core(Put(c.p, slot, Digit(n[0])).(state := Within(c.p.state, slot)), c.seen);
      StepReads(c, n[0], c1.p, skip);
      ReadsThen(c, [n[0]], c1, n[1..], skip);
      MoreDigits(c1, slot, n[1..], skip);
      PutTwice(c.p, slot, Digit(n[0]), Number(n));
    }
  }

  lemma PutTwice(p: Parser, slot: Slot, a: nat, b: nat)
    ensures Put(Put(p, slot, a), slot, b) == Put(p, slot, b)
  {
  }

  lemma BadByte(c: Core, d: string, skip: Skip)
    requires d != "" && Dispatch(c.p, d[0]).next.Bad?
    ensures Feed(c, d, skip).why.Failed?
  {
    hide Dispatch;
  }

  // ---- versions ----

  datatype Version = Version(major: string, minor: string)

  predicate IsVersion(v: Version) {
    Digits(v.major) && Digits(v.minor)
  }

  predicate VersionFits(s: State, v: Version)
    requires IsVersion(v)
  {
    Fits(s, Major, v.major) && Number(v.minor) <= LARGEST
  }

  function VersionText(v: Version): string {
    v.major + ("." + v.minor)
  }

  function Versioned(p: Parser, v: Version): Parser
    requires IsVersion(v)
  {
    p.(httpMajor := Number(v.major), httpMinor := Number(v.minor))
  }

  lemma DotPass(p: Parser)
    requires p.state == Response(ResMajor) || p.state == Request(ReqMajor)
    ensures Dispatch(p, '.') ==
            Act(p.(state := if p.state.Request? then Request(ReqFirstMinor) else Response(ResFirstMinor)), Bare,
              Quiet, Eat)
  {
  }

  /** A version is read exactly when its numbers fit. */
  lemma VersionReads(c: Core, v: Version, skip: Skip)
    requires Before(c.p.state, Major) && IsVersion(v)
    ensures if VersionFits(c.p.state, v) then
              Reads(c, VersionText(v), skip, Core(Versioned(c.p, v).(state := Within(c.p.state, Minor)), c.seen))
            else Feed(c, VersionText(v), skip).why.Failed?
  {
    hide Feed, Dispatch, Digits, Number, Reads;
    NumberText(c, Major, v.major, skip);
    if !Fits(c.p.state, Major, v.major) {
      FeedAppend(c, v.major, "." + v.minor, skip);
    } else {
      var c1 := Core(Put(c.p, Major, Number(v.major)).(state := Within(c.p.state, Major)), c.seen);
      DotPass(c1.p);
      var c2 := Core(c1.p.(state := if c1.p.state.Request? then Request(ReqFirstMinor) else Response(ResFirstMinor)),
        c.seen);
      StepReads(c1, '.', c2.p, skip);
      ReadsMore(c, v.major, c1, ".", c2, skip);
      NumberText(c2, Minor, v.minor, skip);
      assert VersionText(v) == v.major + "." + v.minor;
      if Number(v.minor) <= LARGEST {
        var c3 := Core(Put(c2.p, Minor, Number(v.minor)).(state := Within(c2.p.state, Minor)), c2.seen);
        ReadsMore(c, v.major + ".", c2, v.minor, c3, skip);
      } else {
        ReadsThen(c, v.major + ".", c2, v.minor, skip);
      }
    }
  }

  // ---- the request line ----

  lemma WordPass(p: Parser, ch: char)
    ensures p.state == Request(ReqHttpStart) && ch == 'H' ==>
            Dispatch(p, ch) == Act(p.(state := Request(ReqH)), Bare, Quiet, Eat)
    ensures p.state == Request(ReqH) && ch == 'T' ==>
            Dispatch(p, ch) == Act(p.(state := Request(ReqHT)), Bare, Quiet, Eat)
    ensures p.state == Request(ReqHT) && ch == 'T' ==>
            Dispatch(p, ch) == Act(p.(state := Request(ReqHTT)), Bare, Quiet, Eat)
    ensures p.state == Request(ReqHTT) && ch == 'P' ==>
            Dispatch(p, ch) == Act(p.(state := Request(ReqHTTP)), Bare, Quiet, Eat)
    ensures p.state == Request(ReqHTTP) && ch == '/' ==>
            Dispatch(p, ch) == Act(p.(state := Request(ReqFirstMajor)), Bare, Quiet, Eat)
  {
  }

  lemma RequestWord(c: Core, skip: Skip)
    requires c.p.state == Request(ReqHttpStart)
    ensures Reads(c, "HTTP/", skip, Core(c.p.(state := Request(ReqFirstMajor)), c.seen))
  {
    hide Feed, Dispatch, Reads;
    var c1 := Core(c.p.(state := Request(ReqH)), c.seen);
    var c2 := Core(c.p.(state := Request(ReqHT)), c.seen);
    var c3 := Core(c.p.(state := Request(ReqHTT)), c.seen);
    var c4 := Core(c.p.(state := Request(ReqHTTP)), c.seen);
    var c5 := Core(c.p.(state := Request(ReqFirstMajor)), c.seen);
    WordPass(c.p, 'H'); WordPass(c1.p, 'T'); WordPass(c2.p, 'T'); WordPass(c3.p, 'P'); WordPass(c4.p, '/');
    StepReads(c, 'H', c1.p, skip);
    StepReads(c1, 'T', c2.p, skip);
    StepReads(c2, 'T', c3.p, skip);
    StepReads(c3, 'P', c4.p, skip);
    StepReads(c4, '/', c5.p, skip);
    assert "H" + "T" == "HT" && "HT" + "T" == "HTT" && "HTT" + "P" == "HTTP" && "HTTP" + "/" == "HTTP/";
    ReadsMore(c, "H", c1, "T", c2, skip);
    ReadsMore(c, "HT", c2, "T", c3, skip);
    ReadsMore(c, "HTT", c3, "P", c4, skip);
    ReadsMore(c, "HTTP", c4, "/", c5, skip);
  }

  lemma EolPass(p: Parser)
    requires p.state == Request(ReqMinor) || p.state == Response(ResStatusCode)
    ensures Dispatch(p, LF) == Act(p.(state := Name(FieldStart)), Bare, Quiet, Eat)
    ensures Dispatch(p, CR) ==
            Act(p.(state := if p.state.Request? then Request(ReqLineAlmostDone) else Response(ResLineAlmostDone)),
              Bare, Quiet, Eat)
  {
  }

  lemma AlmostPass(p: Parser)
    requires p.state == Request(ReqLineAlmostDone) || p.state == Response(ResLineAlmostDone)
    ensures Dispatch(p, LF) == Act(p.(state := Name(FieldStart)), Bare, Quiet, Eat)
  {
  }

  /** The end of a start line. */
  lemma LineEnd(c: Core, e: string, skip: Skip)
    requires (c.p.state == Request(ReqMinor) || c.p.state == Response(ResStatusCode)) && IsEol(e)
    ensures Reads(c, e, skip, Core(c.p.(state := Name(FieldStart)), c.seen))
  {
    hide Feed, Dispatch;
    EolPass(c.p);
    var c2 := Core(c.p.(state := Name(FieldStart)), c.seen);
    if e == [LF] {
      StepReads(c, LF, c2.p, skip);
    } else {
      var almost := if c.p.state.Request? then Request(ReqLineAlmostDone) else Response(ResLineAlmostDone);
      var c1 := Core(c.p.(state := almost), c.seen);
      StepReads(c, CR, c1.p, skip);
      AlmostPass(c1.p);
      StepReads(c1, LF, c2.p, skip);
      ReadsMore(c, [CR], c1, [LF], c2, skip);
      assert CRLF == [CR] + [LF];
    }
  }

  /** The protocol of a request line, after its target. */
  lemma RequestVersion(c: Core, v: Version, e: string, skip: Skip)
    requires c.p.state == Request(ReqHttpStart) && IsVersion(v) && IsEol(e)
    ensures var text := "HTTP/" + (VersionText(v) + e);
            if VersionFits(Request(ReqFirstMajor), v) then
              Reads(c, text, skip, Core(Versioned(c.p, v).(state := Name(FieldStart)), c.seen))
            else Feed(c, text, skip).why.Failed?
  {
    hide Feed, Dispatch, Digits, Number, Reads, VersionText, IsEol, Fits;
    RequestWord(c, skip);
    var c1 := Core(c.p.(state := Request(ReqFirstMajor)), c.seen);
    ReadsThen(c, "HTTP/", c1, VersionText(v) + e, skip);
    VersionReads(c1, v, skip);
    if VersionFits(c1.p.state, v) {
      var c2 := Core(Versioned(c.p, v).(state := Request(ReqMinor)), c.seen);
      LineEnd(c2, e, skip);
      ReadsMore(c1, VersionText(v), c2, e, Core(c2.p.(state := Name(FieldStart)), c.seen), skip);
      ReadsMore(c, "HTTP/", c1, VersionText(v) + e, Core(c2.p.(state := Name(FieldStart)), c.seen), skip);
    } else {
      FeedAppend(c1, VersionText(v), e, skip);
    }
  }

  /** A target that is accepted after the method `m`. */
  predicate TargetFits(m: Method, t: string) {
    t != "" && Unbroken(t) && Legal(t, Split(t, m == Connect)) && Whole(t, m == Connect)
  }

  /** The parser after the method. */
  function Requested(p: Parser, m: Method): Parser {
    Methods.Named(Fresh(p).(kind := HttpRequest), m)
  }

  lemma MethodReads(c: Core, m: Method, skip: Skip)
    requires c.p.state == Lead(StartReq) && c.p.kind.HttpRequest?
    ensures Reads(c, MethodString(m) + " ", skip,
            Core(Requested(c.p, m), Push(c.seen, Note(OnMessageBegin, ULLONG_MAX))))
  {
    hide Feed, MethodString, Methods.Path, StartsMethod, FirstMethod, Push, Reads, IsAlpha;
    var name := MethodString(m);
    var c1 := Core(Begun(c.p, name[0]), Push(c.seen, Note(OnMessageBegin, ULLONG_MAX)));
    FirstByteOf(m);
    BeginByte(c, name[0], skip);
    AcceptsName(c1, m, 1, skip);
    ReadsMore(c, [name[0]], c1, name[1..] + " ", Core(Requested(c.p, m), c1.seen), skip);
    assert name + " " == [name[0]] + (name[1..] + " ");
  }

  lemma HeadReads(c: Core, skip: Skip)
    requires c.p.state == Lead(StartReqOrRes)
    ensures Reads(c, "HEAD ", skip, Core(Requested(c.p, Head), Push(c.seen, Note(OnMessageBegin, ULLONG_MAX))))
  {
    hide Feed, Methods.Path, Push, Reads;
    var c1 := Core(AfterH(c.p), Push(c.seen, Note(OnMessageBegin, ULLONG_MAX)));
    var c2 := Core(c1.p.(kind := HttpRequest, httpMethod := Head, index := 2, state := ReqMethod), c1.seen);
    BothH(c, skip);
    SecondByte(c1, 'E', skip);
    ReadsMore(c, "H", c1, "E", c2, skip);
    HeadMatches();
    HeadRest();
    AcceptsName(c2, Head, 2, skip);
    ReadsMore(c, "H" + "E", c2, "AD" + " ", Core(Requested(c.p, Head), c2.seen), skip);
    assert "H" + "E" + ("AD" + " ") == "HEAD ";
  }

  /** A parser at the start of a request. */
  predicate AwaitsRequest(p: Parser) {
    p.state == Lead(StartReqOrRes) || (p.state == Lead(StartReq) && p.kind.HttpRequest?)
  }

  lemma MethodWord(c: Core, m: Method, skip: Skip)
    requires AwaitsRequest(c.p)
    ensures Reads(c, MethodString(m) + " ", skip,
            Core(Requested(c.p, m), Push(c.seen, Note(OnMessageBegin, ULLONG_MAX))))
  {
    hide Feed, MethodString, Push, IsAlpha, StartsMethod, FirstMethod, Methods.Path;
    if c.p.state == Lead(StartReq) {
      MethodReads(c, m, skip);
    } else if MethodString(m)[0] == 'H' {
      NameOfH(m);
      HeadReads(c, skip);
      HeadRest();
      assert "HEAD" + " " == "HEAD ";
    } else {
      var c1 := Core(Fresh(c.p).(kind := HttpRequest, state := Lead(StartReq)), c.seen);
      FirstByteOf(m);
      BothStarts(c, MethodString(m) + " ", skip);
      MethodReads(c1, m, skip);
      assert Requested(c1.p, m) == Requested(c.p, m) by { FreshTwice(c.p, m); }
    }
  }

  lemma FreshTwice(p: Parser, m: Method)
    ensures Requested(Fresh(p).(kind := HttpRequest, state := Lead(StartReq)), m) == Requested(p, m)
  {
    hide MethodString;
  }

  // ---- the status line ----

  predicate AwaitsResponse(p: Parser) {
    p.state == Lead(StartReqOrRes) || (p.state == Lead(StartRes) && p.kind.HttpResponse?)
  }

  /** The parser after the "HT" of a response. */
  function Responding(p: Parser): Parser {
    Fresh(p).(kind := HttpResponse, state := Response(ResHT))
  }

  lemma StartPass(p: Parser)
    requires p.state == Lead(StartRes)
    ensures Dispatch(p, 'H') == Act(Fresh(p).(state := Response(ResH)), Bare, Tell(OnMessageBegin), Eat)
  {
  }

  lemma ResponsePass(p: Parser)
    ensures p.state == Response(ResH) ==> Dispatch(p, 'T') == Act(p.(state := Response(ResHT)), Bare, Quiet, Eat)
    ensures p.state == Response(ResHT) ==> Dispatch(p, 'T') == Act(p.(state := Response(ResHTT)), Bare, Quiet, Eat)
    ensures p.state == Response(ResHTT) ==> Dispatch(p, 'P') == Act(p.(state := Response(ResHTTP)), Bare, Quiet, Eat)
    ensures p.state == Response(ResHTTP) ==>
            Dispatch(p, '/') == Act(p.(state := Response(ResFirstMajor)), Bare, Quiet, Eat)
  {
  }

  lemma ResponseStart(c: Core, skip: Skip)
    requires AwaitsResponse(c.p)
    ensures Reads(c, "HT", skip, Core(Responding(c.p), Push(c.seen, Note(OnMessageBegin, ULLONG_MAX))))
  {
    hide Feed, Dispatch, Push;
    var t := Push(c.seen, Note(OnMessageBegin, ULLONG_MAX));
    assert "H" + "T" == "HT";
    if c.p.state == Lead(StartRes) {
      StartPass(c.p);
      var c1 := Core(Fresh(c.p).(state := Response(ResH)), t);
      assert Apply(c, 'H', skip) == c1;
      ReadsByte(c, 'H', skip);
      ResponsePass(c1.p);
      StepReads(c1, 'T', Responding(c.p), skip);
      ReadsMore(c, "H", c1, "T", Core(Responding(c.p), t), skip);
    } else {
      var c1 := Core(AfterH(c.p), t);
      BothH(c, skip);
      SecondByte(c1, 'T', skip);
      ReadsMore(c, "H", c1, "T", Core(Responding(c.p), t), skip);
    }
  }

  lemma ResponseWord(c: Core, skip: Skip)
    requires AwaitsResponse(c.p)
    ensures Reads(c, "HTTP/", skip,
                  Core(Responding(c.p).(state := Response(ResFirstMajor)),
                    Push(c.seen, Note(OnMessageBegin, ULLONG_MAX))))
  {
    hide Feed, Dispatch, Push, Reads;
    ResponseStart(c, skip);
    var c1 := Core(Responding(c.p), Push(c.seen, Note(OnMessageBegin, ULLONG_MAX)));
    var c2 := Core(c1.p.(state := Response(ResHTT)), c1.seen);
    var c3 := Core(c1.p.(state := Response(ResHTTP)), c1.seen);
    var c4 := Core(c1.p.(state := Response(ResFirstMajor)), c1.seen);
    ResponsePass(c1.p); ResponsePass(c2.p); ResponsePass(c3.p);
    StepReads(c1, 'T', c2.p, skip);
    StepReads(c2, 'P', c3.p, skip);
    StepReads(c3, '/', c4.p, skip);
    assert "HT" + "T" == "HTT" && "HTT" + "P" == "HTTP" && "HTTP" + "/" == "HTTP/";
    ReadsMore(c, "HT", c1, "T", c2, skip);
    ReadsMore(c, "HTT", c2, "P", c3, skip);
    ReadsMore(c, "HTTP", c3, "/", c4, skip);
  }

  lemma SpacePass(p: Parser)
    ensures p.state == Response(ResMinor) ==>
            Dispatch(p, ' ') == Act(p.(state := Response(ResFirstStatusCode)), Bare, Quiet, Eat)
    ensures p.state == Response(ResStatusCode) ==>
            Dispatch(p, ' ') == Act(p.(state := Response(ResStatusStart)), Bare, Quiet, Eat)
  {
  }

  /** The version and the status code. */
  lemma CodeReads(c: Core, v: Version, code: string, skip: Skip)
    requires c.p.state == Response(ResFirstMajor) && IsVersion(v) && Digits(code)
    ensures var text := VersionText(v) + (" " + code);
            if VersionFits(c.p.state, v) && Number(code) <= LARGEST then
              Reads(c, text, skip, Core(Versioned(c.p, v).(statusCode := Number(code),
                state := Response(ResStatusCode)), c.seen))
            else Feed(c, text, skip).why.Failed?
  {
    hide Feed, Dispatch, Digits, Number, Reads, VersionText;
    VersionReads(c, v, skip);
    if !VersionFits(c.p.state, v) {
      FeedAppend(c, VersionText(v), " " + code, skip);
    } else {
      var c1 := Core(Versioned(c.p, v).(state := Response(ResMinor)), c.seen);
      var c2 := Core(c1.p.(state := Response(ResFirstStatusCode)), c.seen);
      SpacePass(c1.p);
      StepReads(c1, ' ', c2.p, skip);
      ReadsMore(c, VersionText(v), c1, " ", c2, skip);
      NumberText(c2, Code, code, skip);
      assert VersionText(v) + (" " + code) == VersionText(v) + " " + code;
      if Number(code) <= LARGEST {
        ReadsMore(c, VersionText(v) + " ", c2, code,
                  Core(Versioned(c.p, v).(statusCode := Number(code), state := Response(ResStatusCode)), c.seen), skip);
      } else {
        ReadsThen(c, VersionText(v) + " ", c2, code, skip);
      }
    }
  }

  /** The reason phrase; an empty one may come without its space. */
  function ReasonText(reason: string): string {
    if reason == "" then "" else " " + reason
  }

  lemma ReasonPass(p: Parser, ch: char)
    requires (p.state == Response(ResStatusStart) || p.state == Response(ResStatus)) && ch != CR && ch != LF
    ensures Dispatch(p, ch) == Act(p.(index := if p.state == Response(ResStatusStart) then 0 else p.index,
            state := Response(ResStatus)),
                                   Field(OnStatus), Quiet, Eat)
  {
  }

  lemma {:induction false} ReasonMore(c: Core, s: string, skip: Skip)
    requires c.p.state == Response(ResStatus) && NoBreak(s)
    ensures Reads(c, s, skip, Core(c.p, Appended(c.seen, OnStatus, s)))
    decreases |s|
  {
    hide Dispatch, Push;
    if s != "" {
      ReasonPass(c.p, s[0]);
      var c1 := Core(c.p, Push(c.seen, Text(OnStatus, [s[0]])));
      assert Apply(c, s[0], skip) == c1;
      ReasonMore(c1, s[1..], skip);
      AppendedMore(c.seen, OnStatus, s[1..], s[0]);
      assert s == [s[0]] + s[1..];
    }
  }

  lemma ReasonEndPass(p: Parser)
    requires p.state == Response(ResStatus)
    ensures Dispatch(p, CR) == Act(p.(state := Response(ResLineAlmostDone)), Bare, Flush(OnStatus), Eat)
    ensures Dispatch(p, LF) == Act(p.(state := Name(FieldStart)), Bare, Flush(OnStatus), Eat)
  {
  }

  lemma ReasonEnd(c: Core, e: string, skip: Skip)
    requires c.p.state == Response(ResStatus) && Ends(c.seen, OnStatus) && IsEol(e)
    ensures Reads(c, e, skip, Core(c.p.(state := Name(FieldStart)), c.seen))
  {
    hide Feed, Dispatch, Push;
    ReasonEndPass(c.p);
    PushNothing(c.seen, OnStatus);
    var c2 := Core(c.p.(state := Name(FieldStart)), c.seen);
    if e == [LF] {
      assert Apply(c, LF, skip) == c2;
      ReadsByte(c, LF, skip);
    } else {
      var c1 := Core(c.p.(state := Response(ResLineAlmostDone)), c.seen);
      assert Apply(c, CR, skip) == c1;
      ReadsByte(c, CR, skip);
      AlmostPass(c1.p);
      StepReads(c1, LF, c2.p, skip);
      ReadsMore(c, [CR], c1, [LF], c2, skip);
      assert CRLF == [CR] + [LF];
    }
  }

  /** The end of a status line, after the code. */
  lemma ReasonReads(c: Core, reason: string, e: string, skip: Skip)
    requires c.p.state == Response(ResStatusCode) && NoBreak(reason) && IsEol(e)
    ensures Reads(c, ReasonText(reason) + e, skip,
                  Core(c.p.(index := if reason == "" then c.p.index else 0, state := Name(FieldStart)),
                       Appended(c.seen, OnStatus, reason)))
  {
    hide Feed, Dispatch, Push, Reads, NoBreak, IsEol;
    if reason == "" {
      assert ReasonText(reason) + e == e;
      LineEnd(c, e, skip);
    } else {
      var c1 := Core(c.p.(state := Response(ResStatusStart)), c.seen);
      SpacePass(c.p);
      StepReads(c, ' ', c1.p, skip);
      ReasonFirst(c1, reason, skip);
      var c2 := Core(c1.p.(index := 0, state := Response(ResStatus)), Push(c.seen, Text(OnStatus, reason)));
      ReadsMore(c, " ", c1, reason, c2, skip);
      PushEnds(c.seen, OnStatus, reason);
      ReasonEnd(c2, e, skip);
      ReadsMore(c, " " + reason, c2, e, Core(c2.p.(state := Name(FieldStart)), c2.seen), skip);
    }
  }

  /** A code and a space end a line as well as the code alone. */
  lemma EmptyReason(c: Core, e: string, skip: Skip)
    requires c.p.state == Response(ResStatusCode) && IsEol(e)
    ensures Reads(c, " " + e, skip, Core(c.p.(state := Name(FieldStart)), c.seen))
  {
    hide Feed, Dispatch, Reads;
    var c1 := Core(c.p.(state := Response(ResStatusStart)), c.seen);
    var c3 := Core(c.p.(state := Name(FieldStart)), c.seen);
    SpacePass(c.p);
    StepReads(c, ' ', c1.p, skip);
    NoReasonPass(c1.p);
    if e == [LF] {
      StepReads(c1, LF, c3.p, skip);
    } else {
      var c2 := Core(c.p.(state := Response(ResLineAlmostDone)), c.seen);
      StepReads(c1, CR, c2.p, skip);
      AlmostPass(c2.p);
      StepReads(c2, LF, c3.p, skip);
      ReadsMore(c1, [CR], c2, [LF], c3, skip);
      assert CRLF == [CR] + [LF];
    }
    ReadsMore(c, " ", c1, e, c3, skip);
  }

  lemma NoReasonPass(p: Parser)
    requires p.state == Response(ResStatusStart)
    ensures Dispatch(p, CR) == Act(p.(state := Response(ResLineAlmostDone)), Bare, Quiet, Eat)
    ensures Dispatch(p, LF) == Act(p.(state := Name(FieldStart)), Bare, Quiet, Eat)
  {
  }

  lemma ReasonFirst(c: Core, s: string, skip: Skip)
    requires c.p.state == Response(ResStatusStart) && s != "" && NoBreak(s)
    ensures Reads(c, s, skip, Core(c.p.(index := 0, state := Response(ResStatus)), Push(c.seen, Text(OnStatus, s))))
  {
    hide Feed, Dispatch, Push, Reads;
    ReasonPass(c.p, s[0]);
    var c1 := Core(c.p.(index := 0, state := Response(ResStatus)), Push(c.seen, Text(OnStatus, [s[0]])));
    assert Apply(c, s[0], skip) == c1;
    ReadsByte(c, s[0], skip);
    ReasonMore(c1, s[1..], skip);
    AppendedMore(c.seen, OnStatus, s[1..], s[0]);
    assert s == [s[0]] + s[1..];
    ReadsMore(c, [s[0]], c1, s[1..], Core(c1.p, Push(c.seen, Text(OnStatus, s))), skip);
  }

  // ---- start lines ----

  datatype StartLine =
    | RequestLine(httpMethod: Method, target: string, version: Version)
    | StatusLine(version: Version, code: string, reason: string)

  /** What the grammar asks of a start line, but for the limits of its numbers and of its target. */
  predicate IsStartLine(x: StartLine) {
    && IsVersion(x.version)
    && (x.RequestLine? ==> x.target != "" && Unbroken(x.target))
    && (x.StatusLine? ==> Digits(x.code) && NoBreak(x.reason))
  }

  /** What the parser asks in addition. */
  predicate StartFits(x: StartLine)
    requires IsStartLine(x)
  {
    match x
    case RequestLine(m, t, v) => TargetFits(m, t) && VersionFits(Request(ReqFirstMajor), v)
    case StatusLine(v, code, _) => VersionFits(Response(ResFirstMajor), v) && Number(code) <= LARGEST
  }

  function StartText(x: StartLine, e: string): string {
    match x
    case RequestLine(m, t, v) => MethodString(m) + " " + (t + " " + ("HTTP/" + (VersionText(v) + e)))
    case StatusLine(v, code, reason) => "HTTP/" + (VersionText(v) + (" " + code) + (ReasonText(reason) + e))
  }

  predicate AwaitsStart(p: Parser, x: StartLine) {
    if x.RequestLine? then AwaitsRequest(p) else AwaitsResponse(p)
  }

  /** The parser after a start line. */
  function Started(p: Parser, x: StartLine): Parser
    requires IsStartLine(x)
  {
    match x
    case RequestLine(m, _, v) => Versioned(Requested(p, m), v).(state := Name(FieldStart))
    case StatusLine(v, code, reason) =>
      Versioned(Responding(p), v)
        .(statusCode := Number(code), index := if reason == "" then p.index else 0, state := Name(FieldStart))
  }

  function StartSeen(t: History, x: StartLine): History {
    var begun := Push(t, Note(OnMessageBegin, ULLONG_MAX));
    match x
    case RequestLine(_, target, _) => Push(begun, Text(OnUrl, target))
    case StatusLine(_, _, reason) => Appended(begun, OnStatus, reason)
  }

  /** A start line is accepted exactly when its numbers and its target fit. Then the target, or the reason, has been
      reported whole, and the parser has the method, the version and the status code. */
  lemma StartReads(c: Core, x: StartLine, e: string, skip: Skip)
    requires IsStartLine(x) && IsEol(e) && AwaitsStart(c.p, x)
    ensures if StartFits(x) then Reads(c, StartText(x, e), skip, Core(Started(c.p, x), StartSeen(c.seen, x)))
            else Feed(c, StartText(x, e), skip).why.Failed?
  {
    match x
    case RequestLine(m, t, v) => RequestReads(c, m, t, v, e, skip);
    case StatusLine(v, code, reason) => StatusReads(c, v, code, reason, e, skip);
  }

  lemma RequestReads(c: Core, m: Method, t: string, v: Version, e: string, skip: Skip)
    requires AwaitsRequest(c.p) && t != "" && Unbroken(t) && IsVersion(v) && IsEol(e)
    ensures var x := RequestLine(m, t, v);
            if StartFits(x) then Reads(c, StartText(x, e), skip, Core(Started(c.p, x), StartSeen(c.seen, x)))
            else Feed(c, StartText(x, e), skip).why.Failed?
  {
    hide Feed, MethodString, Push, Reads, Unbroken, IsVersion, VersionText, VersionFits, Versioned, Legal, Split,
      Whole, IsEol;
    var c1 := Core(Requested(c.p, m), Push(c.seen, Note(OnMessageBegin, ULLONG_MAX)));
    var tail := "HTTP/" + (VersionText(v) + e);
    MethodWord(c, m, skip);
    ReadsThen(c, MethodString(m) + " ", c1, t + " " + tail, skip);
    TargetExact(c1, t, ' ', skip);
    assert t + [' '] == t + " ";
    if TargetFits(m, t) {
      var c2 := Core(AfterTarget(c1.p, ' '), Push(c1.seen, Text(OnUrl, t)));
      assert Reads(c1, t + " ", skip, c2) by { ReadsIs(c1, t + " ", skip, c2); }
      ReadsThen(c1, t + " ", c2, tail, skip);
      RequestVersion(c2, v, e, skip);
      StartedIs(c.p, m, t, v, e);
      ReadsIs(c2, tail, skip, Core(Versioned(c2.p, v).(state := Name(FieldStart)), c2.seen));
      ReadsIs(c, StartText(RequestLine(m, t, v), e), skip,
        Core(Versioned(c2.p, v).(state := Name(FieldStart)), c2.seen));
    } else {
      FeedAppend(c1, t + " ", tail, skip);
    }
  }

  lemma ReadsIs(c: Core, d: string, skip: Skip, c1: Core)
    ensures Reads(c, d, skip, c1) <==> Feed(c, d, skip) == Outcome(c1, "", Drained)
  {
    hide Feed;
  }

  lemma StartedIs(p: Parser, m: Method, t: string, v: Version, e: string)
    requires t != "" && Unbroken(t) && IsVersion(v)
    ensures Started(p, RequestLine(m, t, v)) ==
            Versioned(AfterTarget(Requested(p, m), ' '), v).(state := Name(FieldStart))
  {
    hide MethodString, Unbroken, Digits, Number;
  }

  lemma StatusReads(c: Core, v: Version, code: string, reason: string, e: string, skip: Skip)
    requires AwaitsResponse(c.p) && IsVersion(v) && Digits(code) && NoBreak(reason) && IsEol(e)
    ensures var x := StatusLine(v, code, reason);
            if StartFits(x) then Reads(c, StartText(x, e), skip, Core(Started(c.p, x), StartSeen(c.seen, x)))
            else Feed(c, StartText(x, e), skip).why.Failed?
  {
    hide Feed, Push, Reads, IsVersion, VersionText, VersionFits, Digits, Number, ReasonText, NoBreak, IsEol;
    var c1 := Core(Responding(c.p).(state := Response(ResFirstMajor)), Push(c.seen, Note(OnMessageBegin, ULLONG_MAX)));
    var front, tail := VersionText(v) + (" " + code), ReasonText(reason) + e;
    ResponseWord(c, skip);
    ReadsThen(c, "HTTP/", c1, front + tail, skip);
    CodeReads(c1, v, code, skip);
    if VersionFits(Response(ResFirstMajor), v) && Number(code) <= LARGEST {
      var c2 := Core(Versioned(c1.p, v).(statusCode := Number(code), state := Response(ResStatusCode)), c1.seen);
      var c3 := Core(c2.p.(index := if reason == "" then c2.p.index else 0, state := Name(FieldStart)),
                     Appended(c2.seen, OnStatus, reason));
      ReasonReads(c2, reason, e, skip);
      ReadsMore(c1, front, c2, tail, c3, skip);
      ReadsMore(c, "HTTP/", c1, front + tail, c3, skip);
    } else {
      FeedAppend(c1, front, tail, skip);
    }
  }
}
