/** The Connection header's list of options. */
module ConnectionLists {
  import opened Chars
  import opened ParserTypes
  import opened Machine
  import opened Names
  import opened Values

  /** How the text read so far relates to an option's word: it starts the word, or spells it. */
  datatype Track = Track(starts: bool, spells: bool)

  const QUIET := Track(false, false)

  function TrackOf(w: string, s: string): Track {
    Track(Starts(w, LowerAll(s)), Spells(w, s))
  }

  function TrackMore(w: string, t: Track, n: nat, ch: char): Track {
    var more := t.starts && n < |w| && w[n] == Lower(ch);
    Track(more, if ch == ' ' then t.spells else more && n == |w| - 1)
  }

  datatype Tracks = Tracks(keep: Track, close: Track, upgrade: Track)

  function TracksOf(s: string): Tracks {
    Tracks(TrackOf(KEEP_ALIVE, s), TrackOf(CLOSE, s), TrackOf(UPGRADE, s))
  }

  function TracksMore(x: Tracks, n: nat, ch: char): Tracks {
    Tracks(TrackMore(KEEP_ALIVE, x.keep, n, ch), TrackMore(CLOSE, x.close, n, ch), TrackMore(UPGRADE, x.upgrade, n, ch))
  }

  lemma TracksStep(s: string, ch: char)
    ensures TracksOf(s + [ch]) == TracksMore(TracksOf(s), |s|, ch)
  {
    hide Starts, Spells, Lower;
    SpellsMore(KEEP_ALIVE, s, ch);
    SpellsMore(CLOSE, s, ch);
    SpellsMore(UPGRADE, s, ch);
  }

  predicate Idle(t: Track, n: nat, size: nat) {
    !t.spells && !(t.starts && n < size)
  }

  /** The option matcher after `n` bytes of an element. */
  predicate InElement(h: HState, i: nat, n: nat, x: Tracks) {
    match h
    case Valuing(MatchKeepAlive) => 1 <= n < 10 && i == n - 1 && x == Tracks(Track(true, false), QUIET, QUIET)
    case Valuing(MatchClose) => 1 <= n < 5 && i == n - 1 && x == Tracks(QUIET, Track(true, false), QUIET)
    case Valuing(MatchUpgrade) => 1 <= n < 7 && i == n - 1 && x == Tracks(QUIET, QUIET, Track(true, false))
    case Valued(KeepAlive) => n >= 10 && x.keep.spells && x.close == QUIET && x.upgrade == QUIET
    case Valued(Close) => n >= 5 && x.close.spells && x.keep == QUIET && x.upgrade == QUIET
    case Valued(ConnectionUpgrade) => n >= 7 && x.upgrade.spells && x.keep == QUIET && x.close == QUIET
    case Valuing(AnyToken) => Idle(x.keep, n, 10) && Idle(x.close, n, 5) && Idle(x.upgrade, n, 7)
    case _ => false
  }

  lemma ElementStep(p: Parser, n: nat, x: Tracks, ch: char)
    requires InElement(p.hstate, p.index, n, x) && ch != ','
    ensures var q := ValueToken(p, ch);
            InElement(q.hstate, q.index, n + 1, TracksMore(x, n, ch)) && q.flags == p.flags
  {
    assert ch == ' ' ==> Lower(ch) == ' ';
    hide Lower;
  }

  /** The tracks after the first byte of an element. */
  lemma FirstTracks(ch: char)
    requires ch != ' '
    ensures var c := Lower(ch);
            TracksOf([ch]) == Tracks(Track(c == 'k', false), Track(c == 'c', false), Track(c == 'u', false))
  {
    hide Lower, Starts, Spells, TracksOf;
    assert [ch] == "" + [ch];
    TracksStep("", ch);
    TracksNothing();
  }

  lemma TracksNothing()
    ensures TracksOf("") == Tracks(Track(true, false), Track(true, false), Track(true, false))
  {
    StartsNothing(KEEP_ALIVE); StartsNothing(CLOSE); StartsNothing(UPGRADE);
    SpellsNothing(KEEP_ALIVE); SpellsNothing(CLOSE); SpellsNothing(UPGRADE);
  }

  /** The first byte of an element. */
  lemma ElementStart(p: Parser, ch: char)
    requires p.hstate == Valuing(TokenStart) && p.index == 0 && Token(Lower(ch)) != '\0'
    ensures var q := ValueToken(p, ch); InElement(q.hstate, q.index, 1, TracksOf([ch])) && q.flags == p.flags
  {
    hide Lower, TracksOf, Token;
    StartNotSpace(ch);
    FirstTracks(ch);
  }

  /** The first byte of the value, whatever it is. */
  lemma ValueStarts(p: Parser, ch: char)
    requires p.hstate == Named(Connection) && ch != ' '
    ensures var q := FirstByte(p, ch).p; InElement(q.hstate, q.index, 1, TracksOf([ch])) && q.flags == p.flags
  {
    hide Lower, TracksOf, Token;
    FirstTracks(ch);
  }

  lemma StartNotSpace(ch: char)
    ensures Token(Lower(ch)) != '\0' ==> ch != ' ' && ch != ','
  {
  }

  // ---- elements ----

  predicate NoComma(s: string) {
    forall i :: 0 <= i < |s| ==> s[i] != ','
  }

  /** The first comma, or the end. */
  function FirstComma(v: string): (n: nat)
    ensures n <= |v| && NoComma(v[..n]) && (n < |v| ==> v[n] == ',')
  {
    if v == "" || v[0] == ',' then 0
    else
      var n := FirstComma(v[1..]);
      assert forall i :: 1 <= i < n + 1 ==> v[i] == v[1..][..n][i - 1];
      n + 1
  }

  /** What stands between the commas of a value. */
  function Items(v: string): (xs: seq<string>)
    ensures xs != []
    decreases |v|
  {
    var n := FirstComma(v);
    if n == |v| then [v] else [v[..n]] + Items(v[n + 1..])
  }

  /** The bytes that are skipped at the start of an element. NUL is one, since LOWER makes it a space. */
  predicate Blank(ch: char) {
    ch == ' ' || ch == '\0'
  }

  function Strip(s: string): string {
    if s != "" && Blank(s[0]) then Strip(s[1..]) else s
  }

  function StripAll(xs: seq<string>): (es: seq<string>)
    ensures |es| == |xs|
  {
    if xs == [] then [] else [Strip(xs[0])] + StripAll(xs[1..])
  }

  /** The elements of a value: its items, without the blanks before them. */
  function Elements(v: string): (es: seq<string>)
    ensures |es| == |Items(v)|
  {
    [Items(v)[0]] + StripAll(Items(v)[1..])
  }

  /** The items after the first, each with its comma. */
  function Tail(xs: seq<string>): string {
    if xs == [] then "" else "," + (xs[0] + Tail(xs[1..]))
  }

  predicate AllNoComma(xs: seq<string>) {
    forall i :: 0 <= i < |xs| ==> NoComma(xs[i])
  }

  /** The items with commas between them are the value, and no item has a comma. */
  lemma {:induction false} ItemsExact(v: string)
    ensures Items(v)[0] + Tail(Items(v)[1..]) == v && AllNoComma(Items(v))
    decreases |v|
  {
    hide NoComma, Items;
    var n := FirstComma(v);
    var a := v[..n];
    if n == |v| {
      assert a == v;
      ItemsCons(v, "");
      assert Tail([v][1..]) == "";
    } else {
      var b := v[n + 1..];
      assert v == a + ("," + b);
      ItemsCons(a, b);
      ItemsExact(b);
      assert ([a] + Items(b))[1..] == Items(b);
    }
  }

  lemma NoCommaFirst(a: string, b: string)
    requires NoComma(a)
    ensures FirstComma(a) == |a| && FirstComma(a + ("," + b)) == |a|
    decreases |a|
  {
    if a != "" {
      NoCommaRest(a);
      NoCommaFirst(a[1..], b);
      assert (a + ("," + b))[1..] == a[1..] + ("," + b);
    }
  }

  /** A value cut at its first comma. */
  lemma ItemsCons(a: string, b: string)
    requires NoComma(a)
    ensures Items(a) == [a] && Items(a + ("," + b)) == [a] + Items(b)
  {
    NoCommaFirst(a, b);
    var v := a + ("," + b);
    assert v[..|a|] == a && v[|a| + 1..] == b;
  }

  datatype Choice = NoOption | Known(option: Option)

  /** The option an element names, in any case. */
  function OptionOf(s: string): Choice {
    if Spells("keep-alive", s) then Known(KeepAlive)
    else if Spells("close", s) then Known(Close)
    else if Spells("upgrade", s) then Known(ConnectionUpgrade)
    else NoOption
  }

  predicate ProperPrefix(w: string, s: string) {
    Starts(w, LowerAll(s)) && |s| < |w|
  }

  /** A text that is a proper prefix of an option, right up to the comma; the empty text is one. */
  predicate Sticky(s: string) {
    ProperPrefix("keep-alive", s) || ProperPrefix("close", s) || ProperPrefix("upgrade", s)
  }

  /** An element after a comma is looked at only if it starts with a token byte. */
  predicate StartsWell(s: string) {
    s != "" && Token(Lower(s[0])) != '\0'
  }

  function WithOption(f: Flags, o: Choice): Flags {
    f.(keepAlive := f.keepAlive || o == Known(KeepAlive),
       close := f.close || o == Known(Close),
       connectionUpgrade := f.connectionUpgrade || o == Known(ConnectionUpgrade))
  }

  function WithOptions(f: Flags, es: seq<string>): Flags
    decreases |es|
  {
    if es == [] then f else WithOptions(WithOption(f, OptionOf(es[0])), es[1..])
  }

  /** The elements that count, from one that is read: a sticky one swallows the comma and the element after it. */
  function Effective(es: seq<string>): seq<string>
    decreases |es|, 0
  {
    if es == [] then [] else [es[0]] + Later(if Sticky(es[0]) && |es| > 1 then es[2..] else es[1..])
  }

  /** The same after a comma: an element that does not start with a token byte ends the list. */
  function Later(es: seq<string>): seq<string>
    decreases |es|, 1
  {
    if es == [] || !StartsWell(es[0]) then [] else Effective(es)
  }

  // ---- the same, position by position ----

  function WithChoices(f: Flags, os: seq<Choice>): Flags
    decreases |os|
  {
    if os == [] then f else WithChoices(WithOption(f, os[0]), os[1..])
  }

  /** Which elements are read: not the one after a sticky one, and none from one that does not start well. */
  function Looked(es: seq<string>): (bs: seq<bool>)
    ensures |bs| == |es|
    decreases |es|, 0
  {
    if es == [] then []
    else if Sticky(es[0]) && |es| > 1 then [true, false] + LookedLater(es[2..])
    else [true] + LookedLater(es[1..])
  }

  function LookedLater(es: seq<string>): (bs: seq<bool>)
    ensures |bs| == |es|
    decreases |es|, 1
  {
    if es == [] || !StartsWell(es[0]) then seq(|es|, i => false) else Looked(es)
  }

  /** The option that is read from each element. */
  function Readings(es: seq<string>): (os: seq<Choice>)
    ensures |os| == |es|
    decreases |es|, 0
  {
    if es == [] then []
    else if Sticky(es[0]) && |es| > 1 then [OptionOf(es[0])] + ([NoOption] + ReadingsLater(es[2..]))
    else [OptionOf(es[0])] + ReadingsLater(es[1..])
  }

  function ReadingsLater(es: seq<string>): (os: seq<Choice>)
    ensures |os| == |es|
    decreases |es|, 1
  {
    if es == [] || !StartsWell(es[0]) then Nones(|es|) else Readings(es)
  }

  function Nones(n: nat): (os: seq<Choice>)
    ensures |os| == n
  {
    if n == 0 then [] else [NoOption] + Nones(n - 1)
  }

  /** The last element is empty, and the next byte would start it. */
  predicate Awaits(es: seq<string>)
    decreases |es|, 0
  {
    es != [] && AwaitsLater(if Sticky(es[0]) && |es| > 1 then es[2..] else es[1..])
  }

  predicate AwaitsLater(es: seq<string>)
    decreases |es|, 1
  {
    es == [""] || (es != [] && StartsWell(es[0]) && Awaits(es))
  }

  /** All but the last. */
  function Front(os: seq<Choice>): seq<Choice> {
    if os == [] then [] else os[..|os| - 1]
  }

  lemma FrontCons(o: Choice, os: seq<Choice>)
    ensures Front([o] + os) == if os == [] then [] else [o] + Front(os)
  {
  }

  lemma WithChoicesCons(f: Flags, o: Choice, os: seq<Choice>)
    ensures WithChoices(f, [o] + os) == WithChoices(WithOption(f, o), os)
  {
    hide WithOption;
    assert ([o] + os)[1..] == os;
  }

  lemma {:induction false} NonesNothing(f: Flags, n: nat)
    ensures WithChoices(f, Nones(n)) == f && WithChoices(f, Front(Nones(n))) == f
  {
    if n > 0 {
      NonesNothing(f, n - 1);
      WithChoicesCons(f, NoOption, Nones(n - 1));
      FrontCons(NoOption, Nones(n - 1));
      WithChoicesCons(f, NoOption, Front(Nones(n - 1)));
    }
  }

  /** The readings, and the effective elements, set the same. */
  lemma {:induction false} ReadingsSet(f: Flags, es: seq<string>)
    ensures WithChoices(f, Readings(es)) == WithOptions(f, Effective(es))
    decreases |es|, 0
  {
    hide WithOption, OptionOf, Sticky, StartsWell, WithOptions, WithChoices;
    if es == [] {
      NothingSet(f);
    } else {
      var f1 := WithOption(f, OptionOf(es[0]));
      if Sticky(es[0]) && |es| > 1 {
        WithOptionsCons(f, es[0], Later(es[2..]));
        WithChoicesCons(f, OptionOf(es[0]), [NoOption] + ReadingsLater(es[2..]));
        WithChoicesCons(f1, NoOption, ReadingsLater(es[2..]));
        WithNoOption(f1);
        ReadingsLaterSet(f1, es[2..]);
      } else {
        WithOptionsCons(f, es[0], Later(es[1..]));
        WithChoicesCons(f, OptionOf(es[0]), ReadingsLater(es[1..]));
        ReadingsLaterSet(f1, es[1..]);
      }
    }
  }

  lemma {:induction false} ReadingsLaterSet(f: Flags, es: seq<string>)
    ensures WithChoices(f, ReadingsLater(es)) == WithOptions(f, Later(es))
    decreases |es|, 1
  {
    hide WithOption, OptionOf, Sticky, StartsWell, Effective, Readings, WithOptions, WithChoices;
    if es == [] || !StartsWell(es[0]) {
      NonesNothing(f, |es|);
      NothingSet(f);
    } else {
      ReadingsSet(f, es);
    }
  }

  lemma NothingSet(f: Flags)
    ensures WithOptions(f, []) == f && WithChoices(f, []) == f
  {
  }

  /** The parser in the middle of a list, whose elements so far are read as `os`: all but the last have been set. */
  predicate AfterList(q: Parser, f: Flags, os: seq<Choice>, awaits: bool) {
    && q.flags == WithChoices(f, Front(os)) && Recognised(q.flags, q.hstate) == WithChoices(f, os)
    && (q.hstate == Valuing(TokenStart) <==> awaits)
  }

  /** One more element at the front of the list. */
  lemma AfterCons(q: Parser, f: Flags, o: Choice, os: seq<Choice>, awaits: bool)
    requires AfterList(q, WithOption(f, o), os, awaits) && os != []
    ensures AfterList(q, f, [o] + os, awaits)
  {
    hide WithOption, WithChoices, Recognised, Front;
    FrontCons(o, os);
    WithChoicesCons(f, o, os);
    WithChoicesCons(f, o, Front(os));
  }

  // ---- the list is read so ----

  lemma ElementRead(h: HState, i: nat, s: string)
    requires s != "" && InElement(h, i, |s|, TracksOf(s))
    ensures match h
            case Valued(o) => OptionOf(s) == Known(o) && !Sticky(s)
            case Valuing(AnyToken) => OptionOf(s) == NoOption && !Sticky(s)
            case _ =>
              && OptionOf(s) == NoOption && Sticky(s)
              && h.Valuing? && !h.valuing.TokenStart? && !h.valuing.MatchChunked?
  {
    hide Starts, Spells, LowerAll;
    assert |KEEP_ALIVE| == 10 && |CLOSE| == 5 && |UPGRADE| == 7;
  }

  lemma {:induction false} FoldAppend(p: Parser, a: string, b: string)
    ensures ValueFold(p, a + b) == ValueFold(ValueFold(p, a), b)
    decreases |a|
  {
    hide ValueToken;
    if a == "" {
      assert a + b == b;
    } else {
      assert (a + b)[1..] == a[1..] + b;
      FoldAppend(ValueToken(p, a[0]), a[1..], b);
    }
  }

  lemma {:induction false} ElementFold(p: Parser, pre: string, s: string)
    requires InElement(p.hstate, p.index, |pre|, TracksOf(pre)) && NoComma(s)
    ensures var q := ValueFold(p, s); InElement(q.hstate, q.index, |pre + s|, TracksOf(pre + s)) && q.flags == p.flags
    decreases |s|
  {
    hide ValueToken, InElement, TracksOf, TracksMore;
    if s == "" {
      assert pre + s == pre;
    } else {
      ElementStep(p, |pre|, TracksOf(pre), s[0]);
      TracksStep(pre, s[0]);
      ElementFold(ValueToken(p, s[0]), pre + [s[0]], s[1..]);
      assert pre + [s[0]] + s[1..] == pre + s;
    }
  }

  lemma {:induction false} BlanksFold(p: Parser, s: string)
    requires p.hstate == Valuing(TokenStart)
    ensures ValueFold(p, s) == ValueFold(p, Strip(s))
    decreases |s|
  {
    if s != "" && Blank(s[0]) {
      BlankStep(p, s[0]);
      BlanksFold(p, s[1..]);
    }
  }

  lemma BlankStep(p: Parser, ch: char)
    requires p.hstate == Valuing(TokenStart) && Blank(ch)
    ensures ValueToken(p, ch) == p
  {
  }

  lemma {:induction false} Stripped(s: string)
    ensures Strip(s) != "" ==> !Blank(Strip(s)[0])
    ensures NoComma(s) ==> NoComma(Strip(s))
    decreases |s|
  {
    if s != "" && Blank(s[0]) {
      Stripped(s[1..]);
      assert NoComma(s) ==> NoComma(s[1..]);
    }
  }

  /** An item read at the start of an element. */
  lemma ElementAt(p: Parser, x: string)
    requires p.hstate == Valuing(TokenStart) && p.index == 0 && NoComma(x) && StartsWell(Strip(x))
    ensures var q := ValueFold(p, x); var e := Strip(x);
            InElement(q.hstate, q.index, |e|, TracksOf(e)) && q.flags == p.flags
  {
    hide ValueToken, InElement, TracksOf, Token, Lower, NoComma;
    var e := Strip(x);
    BlanksFold(p, x);
    Stripped(x);
    ElementStart(p, e[0]);
    assert NoComma(e[1..]) by { NoCommaRest(e); }
    ElementFold(ValueToken(p, e[0]), [e[0]], e[1..]);
    assert [e[0]] + e[1..] == e;
  }

  lemma NoCommaRest(s: string)
    requires NoComma(s) && s != ""
    ensures NoComma(s[1..])
  {
  }

  lemma {:induction false} AnyFold(p: Parser, s: string)
    requires p.hstate == Valuing(AnyToken) && NoComma(s)
    ensures ValueFold(p, s) == p
    decreases |s|
  {
    if s != "" {
      AnyStep(p, s[0]);
      AnyFold(p, s[1..]);
    }
  }

  lemma AnyStep(p: Parser, ch: char)
    requires p.hstate == Valuing(AnyToken)
    ensures ValueToken(p, ch) == if ch == ',' then p.(index := 0, hstate := Valuing(TokenStart)) else p
  {
  }

  /** What a comma does after an element. */
  lemma CommaStep(p: Parser, s: string)
    requires s != "" && InElement(p.hstate, p.index, |s|, TracksOf(s))
    ensures var q := ValueToken(p, ',');
            if Sticky(s) then q.hstate == Valuing(AnyToken) && q.flags == p.flags && OptionOf(s) == NoOption
            else q.hstate == Valuing(TokenStart) && q.index == 0 && q.flags == WithOption(p.flags, OptionOf(s))
  {
    ElementRead(p.hstate, p.index, s);
    assert Lower(',') == ',';
    hide InElement, TracksOf, Sticky, OptionOf, Token, Lower;
  }

  /** Nothing is recognised after a byte that can start no element. */
  lemma ListEnds(p: Parser, ch: char, s: string)
    requires p.hstate == Valuing(TokenStart) && !Blank(ch) && Token(Lower(ch)) == '\0'
    ensures Settled(ValueFold(p, [ch] + s)).flags == p.flags
  {
    hide ValueFold, Blank, Token, Lower;
    Ends(p, ch, s);
  }

  lemma {:induction false} Ends(p: Parser, ch: char, s: string)
    requires p.hstate == Valuing(TokenStart) && !Blank(ch) && Token(Lower(ch)) == '\0'
    ensures var q := ValueFold(p, [ch] + s); q.hstate.General? && q.flags == p.flags
  {
    var d := [ch] + s;
    assert d[0] == ch && d[1..] == s;
    StopStep(p, ch);
    hide ValueToken;
    GeneralFold(ValueToken(p, ch), s);
  }

  lemma StopStep(p: Parser, ch: char)
    requires p.hstate == Valuing(TokenStart) && !Blank(ch) && Token(Lower(ch)) == '\0'
    ensures ValueToken(p, ch).hstate.General? && ValueToken(p, ch).flags == p.flags
  {
    LowerBlank(ch);
    hide Lower, Token;
  }

  lemma LowerBlank(ch: char)
    ensures Lower(ch) == ' ' <==> Blank(ch)
    ensures var c := Lower(ch); c == '\t' || c == 'k' || c == 'c' || c == 'u' ==> Token(c) != '\0'
  {
  }

  /** An item that does not start well, and what follows it. */
  lemma TailStops(p: Parser, xs: seq<string>)
    requires p.hstate == Valuing(TokenStart) && xs != [] && !StartsWell(Strip(xs[0]))
    ensures var q := ValueFold(p, xs[0] + Tail(xs[1..]));
            q.flags == p.flags && (q.hstate.General? || (q.hstate == p.hstate && StripAll(xs) == [""]))
            && (q.hstate == p.hstate <==> StripAll(xs) == [""])
  {
    hide ValueToken, Token, Lower, Blank;
    var e, rest := Strip(xs[0]), Tail(xs[1..]);
    assert StripAll(xs) == [e] + StripAll(xs[1..]) && StripAll(xs)[0] == e;
    FoldAppend(p, xs[0], rest);
    BlanksFold(p, xs[0]);
    FoldAppend(p, e, rest);
    Stripped(xs[0]);
    if e + rest == "" {
      assert xs[1..] == [] && e == "";
    } else if e == "" {
      CommaStops();
      Ends(p, ',', rest[1..]);
      assert [','] + rest[1..] == e + rest;
    } else {
      Ends(p, e[0], e[1..] + rest);
      assert [e[0]] + (e[1..] + rest) == e + rest;
    }
  }

  lemma CommaStops()
    ensures !Blank(',') && Token(Lower(',')) == '\0'
  {
  }

  /** The rest of the list, after an element that was read. */
  lemma {:induction false} TailRead(p: Parser, e: string, xs: seq<string>)
    requires e != "" && InElement(p.hstate, p.index, |e|, TracksOf(e)) && AllNoComma(xs)
    ensures var es := [e] + StripAll(xs); AfterList(ValueFold(p, Tail(xs)), p.flags, Readings(es), Awaits(es))
    decreases |xs|, 2
  {
    hide InElement, TracksOf, ValueToken, Sticky, OptionOf, WithOption, NoComma, StartsWell, AfterList;
    var es := StripAll(xs);
    assert ([e] + es)[1..] == es && ([e] + es)[0] == e;
    if xs == [] {
      LastElement(p, e);
    } else {
      TailCons(p, xs);
      CommaStep(p, e);
      var q := ValueToken(p, ',');
      assert es == [Strip(xs[0])] + StripAll(xs[1..]);
      if Sticky(e) {
        assert ([e] + es)[2..] == StripAll(xs[1..]);
        AnyFold(q, xs[0]);
        TailSwallowed(q, xs[1..]);
        FoldAppend(q, xs[0], Tail(xs[1..]));
        SwallowedCons(ValueFold(q, Tail(xs[1..])), p.flags, OptionOf(e), es[1..]);
      } else {
        TailAt(q, xs);
        AfterCons(ValueFold(q, xs[0] + Tail(xs[1..])), p.flags, OptionOf(e), ReadingsLater(es), AwaitsLater(es));
      }
    }
  }

  /** A sticky element, and the one that it swallows, before what follows them. */
  lemma SwallowedCons(q: Parser, f: Flags, o: Choice, es: seq<string>)
    requires if es == [] then q.flags == f && q.hstate == Valuing(AnyToken)
             else AfterList(q, f, ReadingsLater(es), AwaitsLater(es))
    requires o == NoOption
    ensures AfterList(q, f, [o] + ([NoOption] + ReadingsLater(es)), AwaitsLater(es))
  {
    hide WithOption, ReadingsLater;
    WithNoOption(f);
    if es == [] {
      var os := ReadingsLater(es);
      assert os == [] && [NoOption] + os == [NoOption];
      assert Front([o] + [NoOption]) == [NoOption];
      WithChoicesCons(f, NoOption, []);
      WithChoicesCons(f, NoOption, [NoOption]);
      assert [NoOption] + [] == [NoOption];
    } else {
      hide AfterList, AwaitsLater;
      AfterCons(q, f, NoOption, ReadingsLater(es), AwaitsLater(es));
      AfterCons(q, f, o, [NoOption] + ReadingsLater(es), AwaitsLater(es));
    }
  }

  /** The rest of the list, at the start of an element. */
  lemma {:induction false} TailAt(p: Parser, xs: seq<string>)
    requires p.hstate == Valuing(TokenStart) && p.index == 0 && xs != [] && AllNoComma(xs)
    ensures var es := StripAll(xs);
            AfterList(ValueFold(p, xs[0] + Tail(xs[1..])), p.flags, ReadingsLater(es), AwaitsLater(es))
    decreases |xs|, 0
  {
    hide InElement, TracksOf, ValueToken, Sticky, OptionOf, WithOption, NoComma, StartsWell, Readings, Awaits;
    var e := Strip(xs[0]);
    assert StripAll(xs) == [e] + StripAll(xs[1..]);
    if StartsWell(e) {
      FoldAppend(p, xs[0], Tail(xs[1..]));
      ElementAt(p, xs[0]);
      WellNotEmpty(e);
      TailRead(ValueFold(p, xs[0]), e, xs[1..]);
    } else {
      TailStops(p, xs);
      assert StripAll(xs)[0] == e;
      NonesNothing(p.flags, |StripAll(xs)|);
    }
  }

  /** The flags once such a list has ended. */
  lemma TailFlags(p: Parser, xs: seq<string>)
    requires p.hstate == Valuing(TokenStart) && p.index == 0 && xs != [] && AllNoComma(xs)
    ensures Settled(ValueFold(p, xs[0] + Tail(xs[1..]))).flags == WithOptions(p.flags, Later(StripAll(xs)))
  {
    hide ValueFold, WithOptions, WithChoices, Later, ReadingsLater, AwaitsLater, NoComma, Recognised;
    TailAt(p, xs);
    ReadingsLaterSet(p.flags, StripAll(xs));
  }

  lemma WellNotEmpty(e: string)
    ensures StartsWell(e) ==> e != ""
  {
  }

  /** The rest of the list, after an element that was swallowed. */
  lemma {:induction false} TailSwallowed(p: Parser, xs: seq<string>)
    requires p.hstate == Valuing(AnyToken) && AllNoComma(xs)
    ensures var es, q := StripAll(xs), ValueFold(p, Tail(xs));
            if xs == [] then q == p else AfterList(q, p.flags, ReadingsLater(es), AwaitsLater(es))
    decreases |xs|, 1
  {
    hide InElement, TracksOf, ValueToken, Sticky, OptionOf, WithOption, NoComma, StartsWell, AfterList;
    if xs != [] {
      TailCons(p, xs);
      AnyStep(p, ',');
      TailAt(ValueToken(p, ','), xs);
    }
  }

  lemma TailCons(p: Parser, xs: seq<string>)
    requires xs != []
    ensures ValueFold(p, Tail(xs)) == ValueFold(ValueToken(p, ','), xs[0] + Tail(xs[1..]))
  {
    hide ValueToken;
    assert Tail(xs)[0] == ',' && Tail(xs)[1..] == xs[0] + Tail(xs[1..]);
  }

  lemma LastElement(p: Parser, e: string)
    requires e != "" && InElement(p.hstate, p.index, |e|, TracksOf(e))
    ensures AfterList(ValueFold(p, Tail([])), p.flags, Readings([e]), Awaits([e]))
  {
    ElementRead(p.hstate, p.index, e);
    hide InElement, TracksOf, Sticky, OptionOf;
    assert Readings([e]) == [OptionOf(e)];
    assert WithChoices(p.flags, [OptionOf(e)]) == WithOption(p.flags, OptionOf(e));
  }

  lemma WithOptionsCons(f: Flags, e: string, es: seq<string>)
    ensures WithOptions(f, [e] + es) == WithOptions(WithOption(f, OptionOf(e)), es)
  {
    hide OptionOf, WithOption;
    assert ([e] + es)[1..] == es;
  }

  // ---- the whole value ----

  /** A Connection value, as far as it is read: all elements but the last have been set. */
  lemma ConnectionRead(p: Parser, v: string)
    requires p.hstate == Named(Connection) && IsValue(v)
    ensures AfterList(ValueRead(p, v), p.flags, Readings(Elements(v)), Awaits(Elements(v)))
  {
    hide InElement, TracksOf, ValueToken, AfterList, Readings, Awaits, FirstByte, Token, Lower, Items, NoComma;
    ItemsExact(v);
    var e, xs := Items(v)[0], Items(v)[1..];
    ValueStarts(p, v[0]);
    var q := FirstByte(p, v[0]).p;
    if e == "" {
      EmptyFirst(p, q, v, xs);
    } else {
      assert e[0] == v[0] && v[1..] == e[1..] + Tail(xs);
      NoCommaRest(e);
      ElementFold(q, [e[0]], e[1..]);
      assert [e[0]] + e[1..] == e;
      FoldAppend(q, e[1..], Tail(xs));
      TailRead(ValueFold(q, e[1..]), e, xs);
    }
  }

  /** A Connection line sets exactly the flags of the options that its effective elements name, whatever its value. */
  lemma ConnectionFlags(p: Parser, v: string)
    requires p.hstate == Named(Connection) && IsValue(v)
    ensures Settled(ValueRead(p, v)).flags == WithOptions(p.flags, Effective(Elements(v)))
  {
    hide WithOptions, WithChoices, Effective, Readings, Awaits, Elements, ValueRead, Recognised;
    ConnectionRead(p, v);
    ReadingsSet(p.flags, Elements(v));
  }

  /** A value that starts with a comma: the comma is read as the first byte of an element. */
  lemma EmptyFirst(p: Parser, q: Parser, v: string, xs: seq<string>)
    requires p.hstate == Named(Connection) && v != "" && v == Tail(xs) && AllNoComma(xs) && q == FirstByte(p, v[0]).p
    ensures var es := [""] + StripAll(xs); AfterList(ValueFold(q, v[1..]), p.flags, Readings(es), Awaits(es))
  {
    hide ValueToken, NoComma, StartsWell, Items, AfterList, OptionOf, ReadingsLater, AwaitsLater, FirstByte, Sticky;
    assert v[0] == ',' && v[1..] == xs[0] + Tail(xs[1..]);
    CommaFirst(p);
    AnyFold(q, xs[0]);
    FoldAppend(q, xs[0], Tail(xs[1..]));
    TailSwallowed(q, xs[1..]);
    EmptySticky();
    SwallowedFirst("", xs);
    SwallowedCons(ValueFold(q, Tail(xs[1..])), p.flags, OptionOf(""), StripAll(xs[1..]));
  }

  lemma SwallowedFirst(e: string, xs: seq<string>)
    requires Sticky(e) && xs != []
    ensures var es, more := [e] + StripAll(xs), StripAll(xs[1..]);
            && Readings(es) == [OptionOf(e)] + ([NoOption] + ReadingsLater(more))
            && Awaits(es) == AwaitsLater(more)
  {
    hide Sticky, OptionOf, ReadingsLater, AwaitsLater, Strip;
    var es := [e] + StripAll(xs);
    assert es[0] == e && es[2..] == StripAll(xs[1..]);
  }

  lemma WithNoOption(f: Flags)
    ensures WithOption(f, NoOption) == f
  {
  }

  lemma CommaFirst(p: Parser)
    requires p.hstate == Named(Connection)
    ensures var q := FirstByte(p, ',').p; q.hstate == Valuing(AnyToken) && q.flags == p.flags
  {
  }

  lemma EmptySticky()
    ensures Sticky("") && OptionOf("") == NoOption
  {
    StartsNothing(KEEP_ALIVE);
    SpellsNothing(KEEP_ALIVE);
    SpellsNothing(CLOSE);
    SpellsNothing(UPGRADE);
    hide Starts, Spells;
  }

  /** Every element counts when none before the last is sticky and all after the first start with a token byte. */
  lemma {:induction false} NothingSkipped(es: seq<string>)
    requires forall i :: 0 <= i < |es| - 1 ==> !Sticky(es[i])
    requires forall i :: 0 < i < |es| ==> StartsWell(es[i])
    ensures Effective(es) == es
    decreases |es|
  {
    hide Sticky, StartsWell;
    if es != [] {
      NothingSkipped(es[1..]);
      assert es == [es[0]] + es[1..];
    }
  }
}
