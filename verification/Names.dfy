/** Header names: the matcher recognises exactly the known names, in any case. */
module Names {
  import opened Chars
  import opened Alphabets
  import opened ParserTypes
  import opened Machine
  import opened Stream
  import opened Bodies
  import opened Chunked

  /** `s` is a prefix of `w`. */
  predicate Starts(w: string, s: string) {
    |s| <= |w| && forall j :: 0 <= j < |s| ==> s[j] == w[j]
  }

  lemma StartsMore(w: string, s: string, c: char)
    ensures Starts(w, s + [c]) <==> Starts(w, s) && |s| < |w| && w[|s|] == c
  {
    var t := s + [c];
    assert t[|s|] == c && forall j :: 0 <= j < |s| ==> t[j] == s[j];
  }

  lemma StartsWhole(w: string, s: string)
    ensures |s| == |w| && Starts(w, s) <==> s == w
  {
  }

  /** Which of the known names `s` starts. */
  datatype Prefixes = Prefixes(con: bool, proxy: bool, len: bool, enc: bool, upg: bool)

  function PrefixesOf(s: string): Prefixes {
    Prefixes(Starts(CONNECTION, s), Starts(PROXY_CONNECTION, s), Starts(CONTENT_LENGTH, s),
             Starts(TRANSFER_ENCODING, s), Starts(UPGRADE, s))
  }

  const NONE := Prefixes(false, false, false, false, false)
  const CON := NONE.(con := true)
  const PROXY := NONE.(proxy := true)
  const LEN := NONE.(len := true)
  const ENC := NONE.(enc := true)
  const UPG := NONE.(upg := true)
  const CONLEN := CON.(len := true)

  /** The name matcher is in step with the names that start with the `n` bytes read. */
  predicate InStep(h: HState, i: nat, n: nat, x: Prefixes) {
    match h
    case General => x == NONE
    case Naming(NameC) => n == 1 && i == 0 && x == CONLEN
    case Naming(NameCO) => n == 2 && i == 1 && x == CONLEN
    case Naming(NameCON) => n == 3 && i == 2 && x == CONLEN
    case Naming(NameConnection) => 4 <= n < 10 && i == n - 1 && x == CON
    case Naming(NameProxyConnection) => 1 <= n < 16 && i == n - 1 && x == PROXY
    case Naming(NameContentLength) => 4 <= n < 14 && i == n - 1 && x == LEN
    case Naming(NameTransferEncoding) => 1 <= n < 17 && i == n - 1 && x == ENC
    case Naming(NameUpgrade) => 1 <= n < 7 && i == n - 1 && x == UPG
    case Named(Connection) => (n == 10 && x == CON) || (n == 16 && x == PROXY)
    case Named(ContentLength) => n == 14 && x == LEN
    case Named(TransferEncoding) => n == 17 && x == ENC
    case Named(Upgrade) => n == 7 && x == UPG
    case _ => false
  }

  /** The names that go on with `c` after `n` bytes. */
  function More(x: Prefixes, n: nat, c: char): Prefixes {
    Prefixes(x.con && n < 10 && CONNECTION[n] == c,
             x.proxy && n < 16 && PROXY_CONNECTION[n] == c,
             x.len && n < 14 && CONTENT_LENGTH[n] == c,
             x.enc && n < 17 && TRANSFER_ENCODING[n] == c,
             x.upg && n < 7 && UPGRADE[n] == c)
  }

  lemma PrefixesMore(s: string, c: char)
    ensures PrefixesOf(s + [c]) == More(PrefixesOf(s), |s|, c)
  {
    hide Starts;
    StartsMore(CONNECTION, s, c);
    StartsMore(PROXY_CONNECTION, s, c);
    StartsMore(CONTENT_LENGTH, s, c);
    StartsMore(TRANSFER_ENCODING, s, c);
    StartsMore(UPGRADE, s, c);
  }

  lemma StepStem(p: Parser, n: nat, x: Prefixes, ch: char)
    requires InStep(p.hstate, p.index, n, x) && Token(ch) != '\0' && x == CONLEN
    ensures var q := NameToken(p, ch); InStep(q.hstate, q.index, n + 1, More(x, n, Token(ch)))
  {
    hide Token;
  }

  lemma StepWord(p: Parser, n: nat, x: Prefixes, ch: char)
    requires InStep(p.hstate, p.index, n, x) && Token(ch) != '\0' && p.hstate.Naming? && x != CONLEN
    ensures var q := NameToken(p, ch); InStep(q.hstate, q.index, n + 1, More(x, n, Token(ch)))
  {
    hide Token;
  }

  lemma StepOn(p: Parser, n: nat, x: Prefixes, ch: char)
    requires InStep(p.hstate, p.index, n, x) && Token(ch) != '\0'
    ensures var q := NameToken(p, ch); InStep(q.hstate, q.index, n + 1, More(x, n, Token(ch)))
  {
    if p.hstate.Naming? {
      hide Token, NameToken, More;
      if x == CONLEN { StepStem(p, n, x, ch); } else { StepWord(p, n, x, ch); }
    } else {
      hide Token, Match, NameMatcher;
      TokenNotSpace(ch);
    }
  }

  lemma TokenNotSpace(ch: char)
    ensures Token(ch) != '\0' ==> ch != ' ' && ch != CR && ch != LF && ch != ':'
  {
  }

  lemma StepFirst(ch: char)
    requires Token(ch) != '\0'
    ensures InStep(FirstName(Token(ch)), 0, 1, PrefixesOf([Token(ch)]))
  {
    hide Token;
  }

  // ---- whole names ----

  predicate IsToken(s: string) {
    forall i :: 0 <= i < |s| ==> Tchar(s[i])
  }

  /** The name in lower case. */
  function Lowered(s: string): string {
    if s == "" then "" else [LowerCase(s[0])] + Lowered(s[1..])
  }

  function NameFold(p: Parser, s: string): Parser
    decreases |s|
  {
    if s == "" then p else NameFold(NameToken(p, s[0]), s[1..])
  }

  lemma {:induction false} FoldInStep(p: Parser, pre: string, s: string)
    requires InStep(p.hstate, p.index, |pre|, PrefixesOf(pre)) && IsToken(s)
    ensures var q := NameFold(p, s);
            InStep(q.hstate, q.index, |pre + Lowered(s)|, PrefixesOf(pre + Lowered(s)))
    decreases |s|
  {
    hide InStep, PrefixesOf, Token, NameToken, Tchar, LowerCase;
    if s == "" {
      assert pre + Lowered(s) == pre;
    } else {
      TokenExact(s[0]);
      var c := Token(s[0]);
      StepOn(p, |pre|, PrefixesOf(pre), s[0]);
      PrefixesMore(pre, c);
      FoldInStep(NameToken(p, s[0]), pre + [c], s[1..]);
      assert pre + [c] + Lowered(s[1..]) == pre + Lowered(s);
    }
  }

  lemma FoldFrame(p: Parser, s: string)
    ensures var q := NameFold(p, s); q == p.(hstate := q.hstate, index := q.index)
    decreases |s|
  {
    hide NameMatcher, Token;
    if s != "" { FoldFrame(NameToken(p, s[0]), s[1..]); }
  }

  lemma {:induction false} ReadsName(c: Core, s: string, skip: Skip)
    requires c.p.state == Name(FieldText) && IsToken(s)
    ensures Reads(c, s, skip, Core(NameFold(c.p, s), Appended(c.seen, OnHeaderField, s)))
    decreases |s|
  {
    hide Token, NameMatcher, LeadByte, ResponseByte, MethodByte, UrlByte, RequestByte, DiscardByte, ValueByte, EndByte,
      ChunkByte, BodyByte, Push, Tchar, LowerCase;
    if s != "" {
      TokenExact(s[0]);
      var c1 := Core(NameToken(c.p, s[0]), Push(c.seen, Text(OnHeaderField, [s[0]])));
      assert Apply(c, s[0], skip) == c1;
      ReadsName(c1, s[1..], skip);
      AppendedMore(c.seen, OnHeaderField, s[1..], s[0]);
      assert s == [s[0]] + s[1..];
    }
  }

  /** The header a name stands for. */
  datatype Meaning = Plain | Means(header: Header)

  function MeaningOf(name: string): Meaning {
    if name == "connection" || name == "proxy-connection" then Means(Connection)
    else if name == "content-length" then Means(ContentLength)
    else if name == "transfer-encoding" then Means(TransferEncoding)
    else if name == "upgrade" then Means(Upgrade)
    else Plain
  }

  /** The header state after a name. */
  predicate Classified(h: HState, name: string) {
    && (MeaningOf(name).Means? ==> h == Named(MeaningOf(name).header))
    && (MeaningOf(name).Plain? ==> h.General? || h.Naming?)
  }

  lemma InStepClassified(h: HState, i: nat, name: string)
    requires InStep(h, i, |name|, PrefixesOf(name))
    ensures Classified(h, name)
  {
    hide Starts;
    StartsWhole(CONNECTION, name);
    StartsWhole(PROXY_CONNECTION, name);
    StartsWhole(CONTENT_LENGTH, name);
    StartsWhole(TRANSFER_ENCODING, name);
    StartsWhole(UPGRADE, name);
  }

  /** The parser inside a name. */
  function InName(p: Parser, s: string): Parser
    requires s != ""
  {
    NameFold(p.(index := 0, hstate := FirstName(Token(s[0])), state := Name(FieldText)), s[1..])
  }

  lemma ReadsNamePart(c: Core, s: string, skip: Skip)
    requires c.p.state == Name(FieldStart) && s != "" && IsToken(s)
    ensures Reads(c, s, skip, Core(InName(c.p, s), Push(c.seen, Text(OnHeaderField, s))))
    ensures InName(c.p, s).state == Name(FieldText)
  {
    hide Token, NameToken, LeadByte, ResponseByte, MethodByte, UrlByte, RequestByte, DiscardByte, ValueByte, EndByte,
      ChunkByte, BodyByte, Push, Feed, Reads, NameFold, FirstName, Tchar, LowerCase;
    var p1 := c.p.(index := 0, hstate := FirstName(Token(s[0])), state := Name(FieldText));
    var c1 := Core(p1, Push(c.seen, Text(OnHeaderField, [s[0]])));
    TokenExact(s[0]);
    TokenNotSpace(s[0]);
    assert Apply(c, s[0], skip) == c1;
    ReadsByte(c, s[0], skip);
    ReadsName(c1, s[1..], skip);
    FoldFrame(p1, s[1..]);
    AppendedMore(c.seen, OnHeaderField, s[1..], s[0]);
    assert [s[0]] + s[1..] == s;
    ReadsMore(c, [s[0]], c1, s[1..], Core(InName(c.p, s), Push(c.seen, Text(OnHeaderField, s))), skip);
  }

  /** The parser after a name and its colon. */
  function Headed(p: Parser, name: string): Parser
    requires name != ""
  {
    InName(p, name).(state := Discard(DiscardWs))
  }

  /** A header name is reported whole, and is recognised as one of the known names, in any case, or not at all. */
  lemma NameLine(c: Core, name: string, skip: Skip)
    requires c.p.state == Name(FieldStart) && name != "" && IsToken(name)
    ensures Reads(c, name + ":", skip, Core(Headed(c.p, name), Push(c.seen, Text(OnHeaderField, name))))
    ensures Classified(Headed(c.p, name).hstate, Lowered(name))
  {
    hide Token, Push, Feed, Reads, InStep, PrefixesOf, NameFold, FirstName, Classified, Tchar, LowerCase;
    var c2 := Core(InName(c.p, name), Push(c.seen, Text(OnHeaderField, name)));
    ReadsNamePart(c, name, skip);
    ReadsColon(c2, name, c.seen, skip);
    ReadsMore(c, name, c2, ":", Core(Headed(c.p, name), c2.seen), skip);
    var ch := name[0];
    TokenExact(ch);
    StepFirst(ch);
    FoldInStep(c.p.(index := 0, hstate := FirstName(Token(ch)), state := Name(FieldText)), [Token(ch)], name[1..]);
    assert [Token(ch)] + Lowered(name[1..]) == Lowered(name);
    InStepClassified(c2.p.hstate, c2.p.index, Lowered(name));
  }

  lemma ReadsColon(c: Core, name: string, t: History, skip: Skip)
    requires c.p.state == Name(FieldText) && c.seen == Push(t, Text(OnHeaderField, name))
    ensures Reads(c, ":", skip, Core(c.p.(state := Discard(DiscardWs)), c.seen))
  {
    hide LeadByte, ResponseByte, MethodByte, UrlByte, RequestByte, DiscardByte, ValueByte, EndByte, ChunkByte, BodyByte,
      Feed;
    PushNothing(c.seen, OnHeaderField);
    ReadsByte(c, ':', skip);
  }

  /** The first byte of a text that is no token byte, or its end. */
  function TokenEnd(s: string): (n: nat)
    ensures n <= |s| && IsToken(s[..n]) && (n < |s| ==> !Tchar(s[n]))
  {
    if s == "" || !Tchar(s[0]) then 0
    else
      var n := TokenEnd(s[1..]);
      assert forall i :: 1 <= i < n + 1 ==> s[i] == s[1..][..n][i - 1];
      n + 1
  }

  /** A header name, up to its colon, is accepted exactly when it is a token; else its first byte that is none is
      refused. */
  lemma NameExact(c: Core, name: string, skip: Skip)
    requires c.p.state == Name(FieldStart) && name != "" && name[0] != CR && name[0] != LF
    requires forall i :: 0 <= i < |name| ==> name[i] != ':'
    ensures var run, n := Feed(c, name + ":", skip), TokenEnd(name);
            if IsToken(name) then run == Outcome(Core(Headed(c.p, name), Push(c.seen, Text(OnHeaderField, name))), "",
              Drained)
            else run.why.Failed? && run.c.p.errno == HpeInvalidHeaderToken && run.rest == name[n..] + ":"
  {
    hide Feed, Push, Tchar, NameFold, FirstName, Token;
    var n := TokenEnd(name);
    if IsToken(name) {
      NameLine(c, name, skip);
    } else {
      assert name[..|name|] == name;
      assert name + ":" == name[..n] + (name[n..] + ":");
      if n == 0 {
        RefusesFirst(c, name + ":", skip);
        assert name[0..] == name;
      } else {
        var c1 := Core(InName(c.p, name[..n]), Push(c.seen, Text(OnHeaderField, name[..n])));
        ReadsNamePart(c, name[..n], skip);
        ReadsThen(c, name[..n], c1, name[n..] + ":", skip);
        RefusesLater(c1, name[n..] + ":", skip);
      }
    }
  }

  lemma RefusesFirst(c: Core, d: string, skip: Skip)
    requires c.p.state == Name(FieldStart) && d != "" && !Tchar(d[0]) && d[0] != CR && d[0] != LF
    ensures Feed(c, d, skip) == Outcome(Core(c.p.(errno := HpeInvalidHeaderToken), c.seen), d, Failed)
  {
    hide Token, Tchar, LeadByte, ResponseByte, MethodByte, UrlByte, RequestByte, DiscardByte, ValueByte, EndByte,
      ChunkByte, BodyByte;
    TokenExact(d[0]);
  }

  lemma RefusesLater(c: Core, d: string, skip: Skip)
    requires c.p.state == Name(FieldText) && d != "" && !Tchar(d[0]) && d[0] != ':'
    ensures Feed(c, d, skip) == Outcome(Core(c.p.(errno := HpeInvalidHeaderToken), c.seen), d, Failed)
  {
    hide Token, Tchar, LeadByte, ResponseByte, MethodByte, UrlByte, RequestByte, DiscardByte, ValueByte, EndByte,
      ChunkByte, BodyByte;
    TokenExact(d[0]);
  }

  /** The known names are tokens, in every spelling. */
  lemma KnownNames(s: string)
    requires MeaningOf(Lowered(s)).Means?
    ensures IsToken(s) && s != ""
  {
    hide Lowered;
    LoweredToken(s, Lowered(s));
  }

  lemma {:induction false} LoweredToken(s: string, low: string)
    requires Lowered(s) == low && forall i :: 0 <= i < |low| ==> 'a' <= low[i] <= 'z' || low[i] == '-'
    ensures IsToken(s) && |s| == |low|
    decreases |s|
  {
    if s != "" {
      assert low[0] == LowerCase(s[0]) && low[1..] == Lowered(s[1..]);
      LoweredToken(s[1..], low[1..]);
    }
  }
}
