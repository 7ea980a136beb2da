/** The in-place method matcher accepts exactly the method names of the table. */
module Methods {
  import opened Chars
  import opened ParserTypes
  import opened Machine
  import opened Stream
  import opened Invariant
  import opened Bodies
  import opened Chunked

  /** The methods of RFC 7231, of WebDAV and its extensions, of UPnP, PATCH and PURGE, in the order of the enum. */
  const METHOD_NAMES: seq<string> := [
    "DELETE", "GET", "HEAD", "POST", "PUT", "CONNECT", "OPTIONS", "TRACE", "COPY", "LOCK", "MKCOL", "MOVE", "PROPFIND",
    "PROPPATCH", "SEARCH", "UNLOCK", "REPORT", "MKACTIVITY", "CHECKOUT", "MERGE", "M-SEARCH", "NOTIFY", "SUBSCRIBE",
    "UNSUBSCRIBE", "PATCH", "PURGE", "MKCALENDAR"]

  predicate IsMethod(s: string) {
    s in METHOD_NAMES
  }

  /** The place of a method in the enum. */
  function Place(m: Method): (i: nat)
    ensures i < 27
  {
    match m
    case Delete => 0 case Get => 1 case Head => 2 case Post => 3 case Put => 4 case Connect => 5 case Options => 6
    case Trace => 7 case Copy => 8 case Lock => 9 case MkCol => 10 case Move => 11 case PropFind => 12
    case PropPatch => 13 case Search => 14 case Unlock => 15 case Report => 16 case MkActivity => 17 case Checkout => 18
    case Merge => 19 case MSearch => 20 case Notify => 21 case Subscribe => 22 case Unsubscribe => 23 case Patch => 24
    case Purge => 25 case MkCalendar => 26
  }

  function MethodAt(i: nat): (m: Method)
    requires i < 27
    ensures Place(m) == i
  {
    if i < 9 then [Delete, Get, Head, Post, Put, Connect, Options, Trace, Copy][i]
    else if i < 18 then [Lock, MkCol, Move, PropFind, PropPatch, Search, Unlock, Report, MkActivity][i - 9]
    else [Checkout, Merge, MSearch, Notify, Subscribe, Unsubscribe, Patch, Purge, MkCalendar][i - 18]
  }

  lemma NameAt(m: Method)
    ensures |METHOD_NAMES| == 27 && MethodString(m) == METHOD_NAMES[Place(m)]
  {
    if Place(m) < 13 { FirstNames(m); } else { LastNames(m); }
    hide MethodString, Place;
  }

  lemma FirstNames(m: Method)
    requires Place(m) < 13
    ensures MethodString(m) == METHOD_NAMES[Place(m)]
  {
  }

  lemma LastNames(m: Method)
    requires Place(m) >= 13
    ensures MethodString(m) == METHOD_NAMES[Place(m)]
  {
  }

  /** The table method_strings holds exactly these names. */
  lemma MethodNames(s: string)
    ensures IsMethod(s) <==> exists m :: MethodString(m) == s
  {
    hide MethodString, Place, MethodAt;
    if m: Method :| MethodString(m) == s { NameAt(m); }
    if s in METHOD_NAMES {
      var i :| 0 <= i < |METHOD_NAMES| && METHOD_NAMES[i] == s;
      NameAt(Delete);
      NameAt(MethodAt(i));
    }
  }

  /** The bytes `s` read so far are the start of the matcher's name. */
  predicate Matching(m: Method, i: nat, s: string) {
    i == |s| && 1 <= i <= |MethodString(m)| && MethodString(m)[..i] == s
  }

  /** A switch to another method keeps the bytes read a prefix of its name. */
  lemma SwitchKeeps(m: Method, i: nat, ch: char)
    requires SwitchMethod(m, i, ch) != m
    ensures var k := SwitchMethod(m, i, ch);
            1 <= i < |MethodString(m)| && i < |MethodString(k)| && MethodString(k)[i] == ch
            && MethodString(k)[..i] == MethodString(m)[..i]
  {
    match m
    case Connect => assert MethodString(m)[..i] == if i == 1 then "C" else "CO";
    case MkCol => assert MethodString(m)[..i] == if i == 1 then "M" else if i == 2 then "MK" else "MKC";
    case Subscribe => assert MethodString(m)[..i] == "S";
    case Post => assert MethodString(m)[..i] == "P";
    case Put => assert MethodString(m)[..i] == "PU";
    case Unlock => assert MethodString(m)[..i] == "UN";
    case PropFind => assert MethodString(m)[..i] == "PROP";
  }

  lemma NameHasNoSpace(m: Method, i: nat)
    requires i < |MethodString(m)|
    ensures MethodString(m)[i] != ' ' && MethodString(m)[i] != '\0'
  {
    hide MethodString;
    if i < 3 { NameStarts(m, i); } else { NameGoesOn(m, i); }
  }

  lemma NameStarts(m: Method, i: nat)
    requires i < 3
    ensures MethodString(m)[i] != ' ' && MethodString(m)[i] != '\0'
  {
  }

  lemma NameGoesOn(m: Method, i: nat)
    requires 3 <= i < |MethodString(m)|
    ensures MethodString(m)[i] != ' ' && MethodString(m)[i] != '\0'
  {
  }

  lemma NoSwitchOnSpace(m: Method, i: nat)
    ensures SwitchMethod(m, i, ' ') == m && SwitchMethod(m, i, '\0') == m
  {
  }

  /** A byte that the matcher accepts goes on with the name of its method. */
  lemma ByteSound(p: Parser, s: string, ch: char)
    requires Matching(p.httpMethod, p.index, s) && p.state == ReqMethod
    ensures var a := MethodByte(p, ch);
            || (a.next.Bad? && (ch == ' ' ==> s != MethodString(p.httpMethod)))
            || (a.next.Eat? && ch != ' ' && a.p.state == ReqMethod && Matching(a.p.httpMethod, a.p.index, s + [ch]))
            || (a.next.Eat? && ch == ' ' && a.p == p.(index := p.index + 1, state := Url(UrlStart))
                && s == MethodString(p.httpMethod))
    ensures var a := MethodByte(p, ch); a.reading.Bare? && a.sig.Quiet?
  {
    hide SwitchMethod, MethodString;
    var name := MethodString(p.httpMethod);
    var m := SwitchMethod(p.httpMethod, p.index, ch);
    NoSwitchOnSpace(p.httpMethod, p.index);
    if p.index < |name| {
      NameHasNoSpace(p.httpMethod, p.index);
      assert name[..p.index + 1] == name[..p.index] + [name[p.index]];
    } else {
      assert name[..p.index] == name;
    }
    if m != p.httpMethod {
      SwitchKeeps(p.httpMethod, p.index, ch);
      var k := MethodString(m);
      assert k[..p.index + 1] == k[..p.index] + [k[p.index]];
    }
  }

  /** Whatever the matcher accepts, up to the space, is the name of the method it ends with. */
  lemma {:induction false} AcceptsOnlyNames(c: Core, pre: string, s: string, skip: Skip)
    requires c.p.state == ReqMethod && Matching(c.p.httpMethod, c.p.index, pre)
    requires forall i :: 0 <= i < |s| ==> s[i] != ' '
    ensures var o := Feed(c, s + " ", skip);
            o.why.Failed? || (o.why.Drained? && o.c.p.state == Url(UrlStart)
              && MethodString(o.c.p.httpMethod) == pre + s)
    decreases |s|
  {
    hide MethodString, MethodByte, Matching, LeadByte, ResponseByte, UrlByte, RequestByte, NameByte, DiscardByte,
      ValueByte, EndByte, ChunkByte, BodyByte, Push;
    var d := s + " ";
    ByteSound(c.p, pre, d[0]);
    if MethodByte(c.p, d[0]).next.Eat? {
      assert Apply(c, d[0], skip) == Core(MethodByte(c.p, d[0]).p, c.seen);
      if s == "" {
        assert pre + s == pre;
        assert Feed(Apply(c, ' ', skip), d[1..], skip).why.Drained?;
      } else {
        assert d[1..] == s[1..] + " ";
        AcceptsOnlyNames(Apply(c, d[0], skip), pre + [s[0]], s[1..], skip);
        assert pre + [s[0]] + s[1..] == pre + s;
      }
    }
  }

  // ---- every name is accepted ----

  /** The method the matcher is at when it has read `i` bytes of the name of `m`. */
  function Path(m: Method, i: nat): Method {
    match m
    case Copy => if i <= 2 then Connect else m
    case Checkout => if i <= 1 then Connect else m
    case Move => if i <= 1 then MkCol else m
    case Merge => if i <= 1 then MkCol else m
    case MSearch => if i <= 1 then MkCol else m
    case MkActivity => if i <= 2 then MkCol else m
    case MkCalendar => if i <= 3 then MkCol else m
    case PropFind => if i <= 1 then Post else m
    case PropPatch => if i <= 1 then Post else if i <= 4 then PropFind else m
    case Put => if i <= 1 then Post else m
    case Purge => if i <= 1 then Post else if i <= 2 then Put else m
    case Patch => if i <= 1 then Post else m
    case Search => if i <= 1 then Subscribe else m
    case Unsubscribe => if i <= 2 then Unlock else m
    case _ => m
  }

  /** On its path the matcher reads on, or switches to the next method of the path. */
  predicate OnPath(m: Method, i: nat) {
    var k := Path(m, i);
    var ch := At(MethodString(m), i);
    if At(MethodString(k), i) == ch then Path(m, i + 1) == k else SwitchMethod(k, i, ch) == Path(m, i + 1) != k
  }

  lemma PathsOfC(m: Method, i: nat)
    requires m == Copy || m == Checkout
    requires 1 <= i < |MethodString(m)|
    ensures OnPath(m, i)
  {
  }

  lemma PathsOfM(m: Method, i: nat)
    requires m == Move || m == Merge || m == MSearch
    requires 1 <= i < |MethodString(m)|
    ensures OnPath(m, i)
  {
  }

  lemma PathsOfMk(m: Method, i: nat)
    requires m == MkActivity || m == MkCalendar
    requires 1 <= i < |MethodString(m)|
    ensures OnPath(m, i)
  {
  }

  lemma PathsOfProp(m: Method, i: nat)
    requires m == PropFind || m == PropPatch
    requires 1 <= i < |MethodString(m)|
    ensures OnPath(m, i)
  {
  }

  lemma PathsOfPu(m: Method, i: nat)
    requires m == Put || m == Purge || m == Patch
    requires 1 <= i < |MethodString(m)|
    ensures OnPath(m, i)
  {
  }

  lemma PathsOfSu(m: Method, i: nat)
    requires m == Search || m == Unsubscribe
    requires 1 <= i < |MethodString(m)|
    ensures OnPath(m, i)
  {
  }

  lemma Paths(m: Method, i: nat)
    requires 1 <= i < |MethodString(m)|
    ensures OnPath(m, i)
  {
    match m
    case Copy => PathsOfC(m, i);
    case Checkout => PathsOfC(m, i);
    case Move => PathsOfM(m, i);
    case Merge => PathsOfM(m, i);
    case MSearch => PathsOfM(m, i);
    case MkActivity => PathsOfMk(m, i);
    case MkCalendar => PathsOfMk(m, i);
    case PropFind => PathsOfProp(m, i);
    case PropPatch => PathsOfProp(m, i);
    case Put => PathsOfPu(m, i);
    case Purge => PathsOfPu(m, i);
    case Patch => PathsOfPu(m, i);
    case Search => PathsOfSu(m, i);
    case Unsubscribe => PathsOfSu(m, i);
    case _ => hide MethodString;
  }

  function Named(p: Parser, m: Method): Parser {
    p.(httpMethod := m, index := |MethodString(m)| + 1, state := Url(UrlStart))
  }

  /** The rest of a name, from its byte `i`, and the space. */
  lemma {:induction false} AcceptsName(c: Core, m: Method, i: nat, skip: Skip)
    requires 1 <= i <= |MethodString(m)|
    requires c.p.state == ReqMethod && c.p.index == i && c.p.httpMethod == Path(m, i)
    ensures Reads(c, MethodString(m)[i..] + " ", skip, Core(Named(c.p, m), c.seen))
    decreases |MethodString(m)| - i
  {
    hide MethodString, SwitchMethod, Path, Feed, LeadByte, ResponseByte, UrlByte, RequestByte, NameByte, DiscardByte,
      ValueByte, EndByte, ChunkByte, BodyByte, Push;
    var name := MethodString(m);
    if i == |name| {
      PathEnds(m);
      assert name[i..] + " " == [' '];
      assert Apply(c, ' ', skip) == Core(Named(c.p, m), c.seen);
      ReadsByte(c, ' ', skip);
    } else {
      Paths(m, i);
      NameHasNoSpace(m, i);
      var c1 := Core(c.p.(index := i + 1, httpMethod := Path(m, i + 1)), c.seen);
      assert Apply(c, name[i], skip) == c1;
      ReadsByte(c, name[i], skip);
      AcceptsName(c1, m, i + 1, skip);
      assert name[i..] + " " == [name[i]] + (name[i + 1..] + " ");
      ReadsMore(c, [name[i]], c1, name[i + 1..] + " ", Core(Named(c.p, m), c.seen), skip);
    }
  }

  lemma PathEnds(m: Method)
    ensures Path(m, |MethodString(m)|) == m
  {
  }

  /** The parser after the first byte of a method. */
  function Begun(p: Parser, ch: char): Parser {
    Fresh(p).(httpMethod := FirstMethod(ch), index := 1, state := ReqMethod)
  }

  lemma FirstByteOf(m: Method)
    ensures var ch := MethodString(m)[0];
            FirstMethod(ch) == Path(m, 1) && StartsMethod(ch) && ch != CR && ch != LF && IsAlpha(ch)
  {
    hide MethodString, FirstMethod, StartsMethod, IsAlpha, Path;
    FirstOnPath(m);
    FirstStarts(m);
    StartsLetters(MethodString(m)[0]);
  }

  lemma FirstOnPath(m: Method)
    ensures FirstMethod(MethodString(m)[0]) == Path(m, 1)
  {
  }

  lemma FirstStarts(m: Method)
    ensures StartsMethod(MethodString(m)[0])
  {
  }

  lemma StartsLetters(ch: char)
    ensures StartsMethod(ch) ==> ch != CR && ch != LF && IsAlpha(ch)
  {
  }

  lemma FirstMatches(ch: char)
    requires StartsMethod(ch)
    ensures Matching(FirstMethod(ch), 1, [ch])
  {
    var name := MethodString(FirstMethod(ch));
    assert name[..1] == [name[0]];
  }

  lemma BeginByte(c: Core, ch: char, skip: Skip)
    requires c.p.state == Lead(StartReq) && StartsMethod(ch)
    ensures Reads(c, [ch], skip, Core(Begun(c.p, ch), Push(c.seen, Note(OnMessageBegin, ULLONG_MAX))))
  {
    hide Feed, ResponseByte, UrlByte, RequestByte, NameByte, DiscardByte, ValueByte, EndByte, ChunkByte, BodyByte, Push,
      FirstMethod;
    ReadsByte(c, ch, skip);
  }

  lemma NoBeginByte(c: Core, d: string, skip: Skip)
    requires c.p.state == Lead(StartReq) && d != "" && !StartsMethod(d[0]) && d[0] != CR && d[0] != LF
    ensures Feed(c, d, skip).why.Failed?
  {
    hide ResponseByte, UrlByte, RequestByte, NameByte, DiscardByte, ValueByte, EndByte, ChunkByte, BodyByte, Push,
      FirstMethod;
  }

  /** A request line's first word is accepted exactly when it is one of the 27 names, and then the parser has
      its method. */
  lemma MethodExact(c: Core, s: string, skip: Skip)
    requires c.p.state == Lead(StartReq) && s != "" && s[0] != CR && s[0] != LF
    requires forall i :: 0 <= i < |s| ==> s[i] != ' '
    ensures var o := Feed(c, s + " ", skip);
            if IsMethod(s) then
              o.why.Drained? && o.c.p.state == Url(UrlStart) && MethodString(o.c.p.httpMethod) == s
            else o.why.Failed?
  {
    hide MethodString, Feed, Matching, Path, Begun, FirstMethod, StartsMethod, IsMethod;
    MethodNames(s);
    var d := s + " ";
    if !StartsMethod(s[0]) {
      forall m ensures MethodString(m) != s { FirstByteOf(m); }
      NoBeginByte(c, d, skip);
    } else {
      var c1 := Core(Begun(c.p, s[0]), Push(c.seen, Note(OnMessageBegin, ULLONG_MAX)));
      BeginByte(c, s[0], skip);
      ReadsThen(c, [s[0]], c1, s[1..] + " ", skip);
      assert d == [s[0]] + (s[1..] + " ");
      FirstMatches(s[0]);
      BegunFacts(c.p, s[0]);
      AcceptsOnlyNames(c1, [s[0]], s[1..], skip);
      assert [s[0]] + s[1..] == s;
      if m: Method :| MethodString(m) == s {
        FirstByteOf(m);
        AcceptsName(c1, m, 1, skip);
      }
    }
  }

  lemma BegunFacts(p: Parser, ch: char)
    ensures var q := Begun(p, ch); q.state == ReqMethod && q.index == 1 && q.httpMethod == FirstMethod(ch)
  {
  }

  // ---- the first byte when the type is not yet known ----

  lemma NameOfH(m: Method)
    ensures MethodString(m)[0] == 'H' ==> m == Head
  {
  }

  /** A parser of either type takes any first byte but 'H' for the start of a request. */
  lemma BothStarts(c: Core, d: string, skip: Skip)
    requires c.p.state == Lead(StartReqOrRes) && d != "" && d[0] != CR && d[0] != LF && d[0] != 'H'
    ensures Feed(c, d, skip) == Feed(Core(Fresh(c.p).(kind := HttpRequest, state := Lead(StartReq)), c.seen), d, skip)
  {
    hide ResponseByte, MethodByte, UrlByte, RequestByte, NameByte, DiscardByte, ValueByte, EndByte, ChunkByte, BodyByte;
    assert Apply(c, d[0], skip) == Core(Fresh(c.p).(kind := HttpRequest, state := Lead(StartReq)), c.seen);
  }

  function AfterH(p: Parser): Parser {
    Fresh(p).(state := Lead(ResOrRespH))
  }

  lemma BothH(c: Core, skip: Skip)
    requires c.p.state == Lead(StartReqOrRes)
    ensures Reads(c, "H", skip, Core(AfterH(c.p), Push(c.seen, Note(OnMessageBegin, ULLONG_MAX))))
  {
    hide ResponseByte, MethodByte, UrlByte, RequestByte, NameByte, DiscardByte, ValueByte, EndByte, ChunkByte,
      BodyByte, Push;
    ReadsByte(c, 'H', skip);
  }

  /** The byte after the 'H' decides. */
  lemma SecondByte(c: Core, ch: char, skip: Skip)
    requires c.p.state == Lead(ResOrRespH)
    ensures match ch
            case 'E' => Reads(c, [ch], skip,
              Core(c.p.(kind := HttpRequest, httpMethod := Head, index := 2, state := ReqMethod), c.seen))
            case 'T' => Reads(c, [ch], skip, Core(c.p.(kind := HttpResponse, state := Response(ResHT)), c.seen))
            case _ => Feed(c, [ch], skip).why.Failed?
  {
    hide ResponseByte, MethodByte, UrlByte, RequestByte, NameByte, DiscardByte, ValueByte, EndByte, ChunkByte, BodyByte;
    if ch == 'E' || ch == 'T' { ReadsByte(c, ch, skip); }
  }

  /** The type is decided once. */
  lemma KindStays(p: Parser, ch: char)
    requires Inv(p) && !p.kind.HttpBoth?
    ensures Dispatch(p, ch).p.kind == p.kind
  {
    hide LengthFits, FlagsFit, HeaderFits, NumbersFit, LeadByte, ResponseByte, MethodByte, UrlByte, RequestByte,
      NameByte, DiscardByte, ValueByte, EndByte, ChunkByte, BodyByte;
    match p.state
    case Lead(s) => LeadKind(p, ch);
    case Response(_) => ResponseKind(p, ch);
    case ReqMethod => MethodKind(p, ch);
    case Url(_) => UrlKind(p, ch);
    case Request(_) => RequestKind(p, ch);
    case Chunk(_) => ChunkKind(p, ch);
    case Body(_) => BodyKind(p, ch);
    case End(_) => EndKind(p, ch);
    case _ => FieldKind(p, ch);
  }

  lemma LeadKind(p: Parser, ch: char)
    requires p.state.Lead? && !p.state.lead.StartReqOrRes? && !p.state.lead.ResOrRespH?
    ensures LeadByte(p, p.state.lead, ch).p.kind == p.kind
  {
  }

  lemma ResponseKind(p: Parser, ch: char)
    requires p.state.Response?
    ensures ResponseByte(p, p.state.res, ch).p.kind == p.kind
  {
  }

  lemma MethodKind(p: Parser, ch: char)
    ensures MethodByte(p, ch).p.kind == p.kind
  {
    hide MethodString, SwitchMethod;
  }

  lemma UrlKind(p: Parser, ch: char)
    requires p.state.Url?
    ensures UrlByte(p, p.state.url, ch).p.kind == p.kind
  {
  }

  lemma RequestKind(p: Parser, ch: char)
    requires p.state.Request?
    ensures RequestByte(p, p.state.req, ch).p.kind == p.kind
  {
  }

  lemma ChunkKind(p: Parser, ch: char)
    requires p.state.Chunk?
    ensures ChunkByte(p, p.state.chunk, ch).p.kind == p.kind
  {
    hide Unhex;
  }

  lemma BodyKind(p: Parser, ch: char)
    requires p.state.Body?
    ensures BodyByte(p, p.state.body, ch).p.kind == p.kind
  {
    hide NewMessage;
  }

  lemma EndKind(p: Parser, ch: char)
    requires p.state.End?
    ensures EndByte(p, p.state.end, ch).p.kind == p.kind
  {
    hide NewMessage, NeedsEof, HasBody, WantsUpgrade;
  }

  lemma FirstKind(p: Parser, ch: char)
    ensures FirstByte(p, ch).p.kind == p.kind && ValueToken(p, ch).kind == p.kind && NameToken(p, ch).kind == p.kind
  {
    hide FirstValue, Lower, Match, StartToken, NameMatcher, Recognised, Token;
  }

  lemma FieldKind(p: Parser, ch: char)
    requires p.state.Name? || p.state.Discard? || p.state.Value?
    ensures Dispatch(p, ch).p.kind == p.kind
  {
    hide FirstByte, ValueToken, NameToken, Token, Recognised, FirstName, LeadByte, ResponseByte, MethodByte, UrlByte,
      RequestByte, EndByte, ChunkByte, BodyByte;
    FirstKind(p, ch);
  }

  /** A response never becomes a request. */
  lemma {:induction false} ResponseStays(c: Core, d: string, skip: Skip)
    requires Inv(c.p) && c.p.kind.HttpResponse?
    ensures Feed(c, d, skip).c.p.kind.HttpResponse?
    decreases |d|, Rank(c.p.state)
  {
    hide Dispatch, Inv, Push;
    if d != "" {
      KindStays(c.p, d[0]);
      ApplyState(c, d[0], skip);
      RankFalls(c.p, d[0]);
      var next := Dispatch(c.p, d[0]).next;
      if !next.Bad? { ApplyKeeps(c, d[0], skip); }
      match next
      case Eat => ResponseStays(Apply(c, d[0], skip), d[1..], skip);
      case Redo => ResponseStays(Apply(c, d[0], skip), d, skip);
      case _ =>
    }
  }

  lemma UrlIsRequest(p: Parser)
    requires Inv(p) && p.state.Url?
    ensures p.kind.HttpRequest?
  {
    hide LengthFits, FlagsFit, HeaderFits, NumbersFit;
  }

  /** The same for a parser that does not know yet whether it reads requests or responses: it comes to the target of a
      request exactly after a method name, and then it has its method. "HEAD" is the one name that starts like a
      response. */
  lemma MethodExactBoth(c: Core, s: string, skip: Skip)
    requires c.p.state == Lead(StartReqOrRes) && Inv(c.p) && s != "" && s[0] != CR && s[0] != LF
    requires forall i :: 0 <= i < |s| ==> s[i] != ' '
    ensures var o := Feed(c, s + " ", skip);
            && (o.why.Drained? && o.c.p.state == Url(UrlStart) <==> IsMethod(s))
            && (IsMethod(s) ==> MethodString(o.c.p.httpMethod) == s)
  {
    hide MethodString, Feed, Matching, Path, Inv, IsMethod;
    var d := s + " ";
    if s[0] != 'H' {
      BothStarts(c, d, skip);
      MethodExact(Core(Fresh(c.p).(kind := HttpRequest, state := Lead(StartReq)), c.seen), s, skip);
    } else {
      var c1 := Core(AfterH(c.p), Push(c.seen, Note(OnMessageBegin, ULLONG_MAX)));
      BothH(c, skip);
      assert d == "H" + (s[1..] + " ");
      ReadsThen(c, "H", c1, s[1..] + " ", skip);
      ReadsKeeps(c, "H", c1, skip);
      AfterHExact(c1, s, skip);
    }
  }

  lemma ReadsKeeps(c: Core, d: string, c1: Core, skip: Skip)
    requires Inv(c.p) && Reads(c, d, skip, c1)
    ensures Inv(c1.p)
  {
    hide Feed, Inv;
    FeedKeeps(c, d, skip);
  }

  /** What follows the 'H'. */
  lemma AfterHExact(c: Core, s: string, skip: Skip)
    requires c.p.state == Lead(ResOrRespH) && Inv(c.p) && s != "" && s[0] == 'H'
    requires forall i :: 0 <= i < |s| ==> s[i] != ' '
    ensures var o := Feed(c, s[1..] + " ", skip);
            && (o.why.Drained? && o.c.p.state == Url(UrlStart) <==> IsMethod(s))
            && (IsMethod(s) ==> MethodString(o.c.p.httpMethod) == s)
  {
    hide MethodString, Feed, Matching, Path, Inv, IsMethod;
    MethodNames(s);
    var d := s[1..] + " ";
    var ch := d[0];
    SecondByte(c, ch, skip);
    assert d == [ch] + d[1..];
    OnlyHead(s);
    if ch == 'E' {
      assert s[1] == 'E' && d[1..] == s[2..] + " " && "HE" + s[2..] == s;
      var c2 := Core(c.p.(kind := HttpRequest, httpMethod := Head, index := 2, state := ReqMethod), c.seen);
      ReadsThen(c, "E", c2, s[2..] + " ", skip);
      HeadMatches();
      AcceptsOnlyNames(c2, "HE", s[2..], skip);
      if IsMethod(s) {
        AcceptsName(c2, Head, 2, skip);
        HeadRest();
        assert s[2..] + " " == "AD" + " ";
      }
    } else if ch == 'T' {
      var c2 := Core(c.p.(kind := HttpResponse, state := Response(ResHT)), c.seen);
      ReadsThen(c, "T", c2, d[1..], skip);
      ReadsKeeps(c, "T", c2, skip);
      ResponseStays(c2, d[1..], skip);
      FeedKeeps(c2, d[1..], skip);
      var o := Feed(c2, d[1..], skip);
      if o.why.Drained? && o.c.p.state.Url? { UrlIsRequest(o.c.p); }
    } else {
      FeedAppend(c, [ch], d[1..], skip);
    }
  }

  /** The one name that starts with an 'H'. */
  lemma OnlyHead(s: string)
    requires s != "" && s[0] == 'H'
    ensures IsMethod(s) <==> s == "HEAD"
  {
    forall m | MethodString(m) == s ensures m == Head { NameOfH(m); }
    assert MethodString(Head) == "HEAD";
  }

  lemma HeadMatches()
    ensures Matching(Head, 2, "HE") && Path(Head, 2) == Head && |MethodString(Head)| == 4
  {
    assert MethodString(Head)[..2] == "HE";
  }

  lemma HeadRest()
    ensures MethodString(Head)[2..] == "AD" && MethodString(Head) == "HEAD"
  {
  }
}
