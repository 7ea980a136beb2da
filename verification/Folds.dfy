/** Folded header lines: a line, one line that continues it, and exactly when the two mean what they would mean on
    one line. */
module Folds {
  import opened Chars
  import opened ParserTypes
  import opened Machine
  import opened Stream
  import opened Invariant
  import opened Bodies
  import opened Chunked
  import opened Names
  import opened Values
  import opened ConnectionLists
  import opened ConnectionOptions
  import opened HeaderLines

  /** A text that can continue a value: it starts with a space or tab. */
  predicate IsFold(w: string) {
    w != "" && White(w[0]) && NoBreak(w)
  }

  // ---- what a folded line sets ----

  /** The flags that the elements before the last one of a Connection value set. */
  function FlagsBefore(f: Flags, v: string): Flags {
    WithChoices(f, Front(Readings(Elements(v))))
  }

  /** The elements of a continuation line. Its first byte is not looked at. */
  function Continued(w: string): (es: seq<string>)
    requires w != ""
    ensures es != []
  {
    StripAll(Items(w[1..]))
  }

  /** What a folded Connection line sets: the last element is dropped, and the continuation is read only if that
      element was yet to start. */
  function FoldedFlags(f: Flags, v: string, w: string): Flags
    requires w != ""
  {
    var g := FlagsBefore(f, v);
    if Awaits(Elements(v)) then WithOptions(g, Later(Continued(w))) else g
  }

  function FoldedEffect(f: Flags, n: nat, m: Meaning, v: string, w: string): Effect
    requires w != ""
  {
    match m
    case Plain => Sets(f, n)
    case Means(Upgrade) => Sets(f.(upgrade := true), n)
    case Means(TransferEncoding) => Sets(f, n)
    case Means(Connection) => Sets(FoldedFlags(f, v, w), n)
    case Means(ContentLength) => Refused
  }

  /** The parser after a folded line. */
  function FoldedRead(p: Parser, x: Line, w: string): Parser
    requires x.name != "" && x.value != "" && w != ""
  {
    Settled(ValueRead(ValueRead(Headed(p, x.name), x.value).(state := Value(ValueLws)), w))
  }

  function Unfolded(x: Line, w: string): Line {
    x.(value := x.value + w)
  }

  // ---- the two values ----

  lemma StatesKept(p: Parser, v: string)
    requires v != "" && ValueStates(FirstByte(p, v[0]).p.hstate)
    ensures ValueStates(ValueRead(p, v).hstate)
  {
    hide FirstByte;
    FoldStates(FirstByte(p, v[0]).p, v[1..]);
  }

  lemma {:induction false} FoldStates(p: Parser, s: string)
    requires ValueStates(p.hstate)
    ensures ValueStates(ValueFold(p, s).hstate)
    decreases |s|
  {
    if s != "" {
      TokenStates(p, s[0]);
      hide ValueToken;
      FoldStates(ValueToken(p, s[0]), s[1..]);
    }
  }

  lemma TokenStates(p: Parser, ch: char)
    requires ValueStates(p.hstate)
    ensures ValueStates(ValueToken(p, ch).hstate)
  {
    hide Lower, Token;
  }

  lemma FirstStates(p: Parser, ch: char)
    requires !p.hstate.Valued? && p.hstate != Named(ContentLength)
    ensures ValueStates(FirstByte(p, ch).p.hstate)
  {
    hide Lower;
  }

  /** The header state before the value is that of a name. */
  predicate AfterName(h: HState, m: Meaning) {
    if m.Means? then h == Named(m.header) else h.General? || h.Naming?
  }

  /** What a value leaves to be set when it is continued. */
  lemma Dropped(h: Parser, m: Meaning, v: string)
    requires IsValue(v) && AfterName(h.hstate, m) && m != Means(ContentLength)
    ensures var q := ValueRead(h, v);
            && (q.hstate == Valuing(TokenStart) <==> m == Means(Connection) && Awaits(Elements(v)))
            && q.flags == match m
                          case Plain => h.flags
                          case Means(Upgrade) => h.flags.(upgrade := true)
                          case Means(TransferEncoding) => h.flags
                          case Means(Connection) => FlagsBefore(h.flags, v)
                          case Means(ContentLength) => h.flags
  {
    hide FirstByte, ValueFold, Elements, Readings, Awaits, WithChoices, Starts, Spells, LowerAll;
    match m
    case Plain => PlainDropped(h, v);
    case Means(Upgrade) => PlainDropped(h, v);
    case Means(TransferEncoding) =>
      ChunkedFirst(h, v[0]);
      ChunkedFold(FirstByte(h, v[0]).p, [v[0]], v[1..]);
      ChunkedNoToken(FirstByte(h, v[0]).p, v[1..]);
    case Means(Connection) => ConnectionRead(h, v);
    case _ =>
  }

  lemma PlainDropped(h: Parser, v: string)
    requires IsValue(v) && (h.hstate == Named(Upgrade) || h.hstate.General? || h.hstate.Naming?)
    ensures var q := ValueRead(h, v);
            q.hstate.General? && q.flags == h.flags.(upgrade := h.flags.upgrade || h.hstate == Named(Upgrade))
  {
    hide ValueFold, Lower;
    GeneralFold(FirstByte(h, v[0]).p, v[1..]);
  }

  lemma {:induction false} ChunkedNoToken(p: Parser, s: string)
    requires p.hstate.General? || p.hstate == Valuing(MatchChunked) || p.hstate == Valued(Chunked)
    ensures ValueFold(p, s).hstate != Valuing(TokenStart)
    decreases |s|
  {
    if s != "" { ChunkedNoToken(ValueToken(p, s[0]), s[1..]); }
  }

  /** The value and its continuation. */
  lemma FoldedSets(h: Parser, m: Meaning, v: string, w: string)
    requires IsValue(v) && IsFold(w) && AfterName(h.hstate, m) && m != Means(ContentLength)
    ensures var q := ValueRead(h, v);
            && ValueStates(q.hstate) && q.hstate != Named(ContentLength)
            && SetBy(h, Settled(ValueRead(q.(state := Value(ValueLws)), w)),
              FoldedEffect(h.flags, h.contentLength, m, v, w))
  {
    hide ValueRead, Settled, FoldedFlags, FlagsBefore, Items, StripAll, Later, WithOptions, Elements, Awaits;
    var q := ValueRead(h, v);
    FirstStates(h, v[0]);
    StatesKept(h, v);
    Dropped(h, m, v);
    ReadSame(h, v);
    NotLength(h, v);
    var q' := q.(state := Value(ValueLws));
    ContinuationFlags(q', w);
    ReadSame(q', w);
    SettledFrame(ValueRead(q', w));
    assert FoldedFlags(h.flags, v, w) ==
           if Awaits(Elements(v)) then WithOptions(FlagsBefore(h.flags, v), Later(StripAll(Items(w[1..]))))
           else FlagsBefore(h.flags, v) by { FoldedFlagsIs(h.flags, v, w); }
  }

  lemma FoldedFlagsIs(f: Flags, v: string, w: string)
    requires w != ""
    ensures FoldedFlags(f, v, w) ==
            if Awaits(Elements(v)) then WithOptions(FlagsBefore(f, v), Later(StripAll(Items(w[1..]))))
            else FlagsBefore(f, v)
  {
    hide FlagsBefore, Items, StripAll, Later, WithOptions, Elements, Awaits;
  }

  lemma SettledFrame(p: Parser)
    ensures var q := Settled(p); q == p.(flags := q.flags, state := Name(FieldStart))
  {
  }

  lemma NotLength(h: Parser, v: string)
    requires v != "" && h.hstate != Named(ContentLength)
    ensures ValueRead(h, v).hstate != Named(ContentLength)
  {
    FirstByteText(h, v[0]);
    hide FirstByte;
    FoldNotLength(FirstByte(h, v[0]).p, v[1..]);
  }

  lemma {:induction false} FoldNotLength(p: Parser, s: string)
    requires p.hstate != Named(ContentLength)
    ensures ValueFold(p, s).hstate != Named(ContentLength)
    decreases |s|
  {
    if s != "" {
      ValueTokenSteady(p, s[0]);
      hide ValueToken;
      FoldNotLength(ValueToken(p, s[0]), s[1..]);
    }
  }

  // ---- the folded line ----

  /** A folded header line: the value is reported with its continuation, and what it sets is FoldedEffect. */
  lemma FoldedLine(c: Core, x: Line, w: string, e: string, d: string, skip: Skip)
    requires c.p.state == Name(FieldStart) && IsLine(x) && x.value != "" && IsFold(w) && IsEol(e) && NextLine(d)
    ensures var effect := FoldedEffect(c.p.flags, c.p.contentLength, MeaningOf(Lowered(x.name)), x.value, w);
            var run := Feed(c, Rendered(x) + (w + e + d), skip);
            if effect.Refused? then RefusesLength(run)
            else
              && run == Feed(Core(FoldedRead(c.p, x, w), LineSeen(c.seen, Unfolded(x, w))), d, skip)
              && SetBy(c.p, FoldedRead(c.p, x, w), effect)
  {
    hide Feed, Reads, Push, Headed, IsBlanks, IsToken, IsEol, NoBreak, Classified, Lowered, MeaningOf, FoldedEffect,
      ValueRead, Settled, RefusesLength;
    var h := Headed(c.p, x.name);
    var c1 := Core(h, Push(c.seen, Text(OnHeaderField, x.name)));
    NameLine(c, x.name, skip);
    HeadedFrame(c.p, x.name);
    ReadsBlanks(c1, x.blanks, skip);
    ReadsMore(c, x.name + ":", c1, x.blanks, c1, skip);
    var tail := x.value + (x.eol + (w + e + d));
    ReadsThen(c, x.name + ":" + x.blanks, c1, tail, skip);
    assert Rendered(x) + (w + e + d) == x.name + ":" + x.blanks + tail;
    NameState(x.name, h.hstate);
    if h.hstate == Named(ContentLength) {
      LengthMeaning(x.name, h.hstate);
      LengthFolded(c1, x, w, e + d, skip);
      assert x.eol + (w + (e + d)) == x.eol + (w + e + d);
      FoldedRefused(c.p, x, w);
    } else {
      OtherMeaning(x.name, h.hstate);
      ValueFolded(c1, x, w, e, d, skip);
      FoldedSets(h, MeaningOf(Lowered(x.name)), x.value, w);
    }
  }

  lemma NameState(name: string, h: HState)
    requires Classified(h, Lowered(name))
    ensures AfterName(h, MeaningOf(Lowered(name)))
  {
    hide Lowered;
  }

  lemma FoldedRefused(p: Parser, x: Line, w: string)
    requires w != "" && MeaningOf(Lowered(x.name)) == Means(ContentLength)
    ensures FoldedEffect(p.flags, p.contentLength, MeaningOf(Lowered(x.name)), x.value, w).Refused?
  {
    hide Lowered, MeaningOf;
  }

  /** A Content-Length line that is continued. */
  lemma LengthFolded(c: Core, x: Line, w: string, d: string, skip: Skip)
    requires c.p.state == Discard(DiscardWs) && c.p.hstate == Named(ContentLength)
    requires IsLine(x) && x.value != "" && IsFold(w)
    ensures RefusesLength(Feed(c, x.value + (x.eol + (w + d)), skip))
  {
    hide Feed, Reads, Push, IsBlanks, IsToken, IsEol, NoBreak, RefusesLength;
    var v := x.value;
    LengthRead(c, v, skip);
    var r := if IsNum(v[0]) then LengthFrom(0, v) else -1;
    if 0 <= r <= LENGTH_LIMIT {
      var c2 := Core(c.p.(state := Value(ValueText), index := 0, contentLength := r),
        Push(c.seen, Text(OnHeaderValue, v)));
      var c3 := Core(c2.p.(state := Value(ValueLws)), c2.seen);
      ReadsThen(c, v, c2, x.eol + (w + d), skip);
      PushEnds(c.seen, OnHeaderValue, v);
      LineEnds(c2, x.eol, skip);
      ReadsThen(c2, x.eol, c3, w + d, skip);
      ContinuesAt(c3, w + d, skip);
      NoDigit(Core(c3.p.(state := Value(ValueStart)), c3.seen), w + d, skip);
    } else {
      RefusedOn(c, v, x.eol + (w + d), skip);
    }
  }

  lemma RefusedOn(c: Core, a: string, b: string, skip: Skip)
    requires RefusesLength(Feed(c, a, skip))
    ensures RefusesLength(Feed(c, a + b, skip))
  {
    hide Feed;
    FeedAppend(c, a, b, skip);
  }

  /** Any other line that is continued. */
  lemma ValueFolded(c: Core, x: Line, w: string, e: string, d: string, skip: Skip)
    requires c.p.state == Discard(DiscardWs) && c.p.hstate != Named(ContentLength)
    requires IsLine(x) && x.value != "" && IsFold(w) && IsEol(e) && NextLine(d) && !c.p.hstate.Valued?
    ensures Feed(c, x.value + (x.eol + (w + e + d)), skip) ==
            Feed(Core(Settled(ValueRead(ValueRead(c.p, x.value).(state := Value(ValueLws)), w)),
                      Push(c.seen, Text(OnHeaderValue, x.value + w))), d, skip)
  {
    hide Feed, Reads, Push, IsBlanks, IsToken, IsEol, NoBreak, ValueRead, Settled, RefusesLength, FirstByte,
      ValueStates;
    var v := x.value;
    var c2 := Core(ValueRead(c.p, v), Push(c.seen, Text(OnHeaderValue, v)));
    var c3 := Core(c2.p.(state := Value(ValueLws)), c2.seen);
    assert v[0] != CR && v[0] != LF by { assert NoBreak(v); FirstNoBreak(v); }
    FirstInDiscard(c.p, v[0]);
    FirstStates(c.p, v[0]);
    StatesKept(c.p, v);
    ReadsText(c, v, skip);
    PushEnds(c.seen, OnHeaderValue, v);
    LineEnds(c2, x.eol, skip);
    ReadsThen(c, v, c2, x.eol + (w + e + d), skip);
    ReadsThen(c2, x.eol, c3, w + e + d, skip);
    Continuation(c3, w, e, skip);
    var q := ValueRead(c3.p, w);
    var c4 := Core(q.(state := Value(ValueLws)), Push(c3.seen, Text(OnHeaderValue, w)));
    ReadsThen(c3, w + e, c4, d, skip);
    Settles(c4, d, skip);
    SettledSame(q);
    PushText(c.seen, OnHeaderValue, v, w);
  }

  lemma FirstNoBreak(v: string)
    requires v != "" && NoBreak(v)
    ensures v[0] != CR && v[0] != LF
  {
  }

  // ---- folded and unfolded ----

  lemma NoCommaJoin(a: string, b: string)
    requires NoComma(a)
    ensures a + b == a + b[..FirstComma(b)] + b[FirstComma(b)..] && NoComma(a + b[..FirstComma(b)])
  {
  }

  /** The items of a value with more text. */
  lemma {:induction false} ItemsAppend(v: string, w: string)
    ensures var xs, ys, k := Items(v), Items(w), |Items(v)| - 1;
            Items(v + w) == xs[..k] + ([xs[k] + ys[0]] + ys[1..])
    decreases |v|
  {
    hide NoComma, Items;
    var n := FirstComma(v);
    if n == |v| {
      assert v[..n] == v;
      ItemsJoin(v, w);
      ItemsCons(v, "");
    } else {
      assert v == v[..n] + ("," + v[n + 1..]) && v + w == v[..n] + ("," + (v[n + 1..] + w));
      ItemsCons(v[..n], v[n + 1..]);
      ItemsCons(v[..n], v[n + 1..] + w);
      ItemsAppend(v[n + 1..], w);
      JoinCons(v[..n], Items(v[n + 1..]), Items(w));
    }
  }

  lemma JoinCons(a: string, xs: seq<string>, ys: seq<string>)
    requires xs != [] && ys != []
    ensures var k := |xs| - 1;
            var zs := [a] + xs;
            zs[..k + 1] + ([zs[k + 1] + ys[0]] + ys[1..]) == [a] + (xs[..k] + ([xs[k] + ys[0]] + ys[1..]))
  {
  }

  lemma ItemsJoin(a: string, b: string)
    requires NoComma(a)
    ensures Items(a + b) == [a + Items(b)[0]] + Items(b)[1..]
  {
    var n := FirstComma(b);
    NoCommaJoin(a, b);
    var front := a + b[..n];
    if n == |b| {
      assert front == a + b && b[..n] == b;
      ItemsCons(a + b, "");
    } else {
      assert a + b == front + ("," + b[n + 1..]);
      ItemsCons(front, b[n + 1..]);
    }
  }

  lemma {:induction false} StripAllParts(a: seq<string>, b: seq<string>)
    ensures StripAll(a + b) == StripAll(a) + StripAll(b)
    decreases |a|
  {
    hide Strip;
    if a == [] {
      assert a + b == b;
    } else {
      assert (a + b)[1..] == a[1..] + b;
      StripAllParts(a[1..], b);
    }
  }

  /** The elements of a value with more text: the last one goes on. */
  lemma ElementsAppend(v: string, w: string)
    ensures var es, fs, k := Elements(v), Elements(v + w), |Elements(v)| - 1;
            && |fs| > k && fs[..k] == es[..k]
            && (k > 0 ==> es[k] == Strip(Items(v)[k]))
            && (k > 0 ==> fs[k..] == StripAll([Items(v)[k] + Items(w)[0]] + Items(w)[1..]))
  {
    hide Items, Strip;
    ItemsAppend(v, w);
    var xs, ys, k := Items(v), Items(w), |Items(v)| - 1;
    var more := [xs[k] + ys[0]] + ys[1..];
    if k > 0 {
      assert xs[1..] == xs[1..k] + [xs[k]];
      assert Items(v + w)[1..] == xs[1..k] + more;
      StripAllParts(xs[1..k], [xs[k]]);
      StripAllParts(xs[1..k], more);
      var s := StripAll(xs[1..k]);
      assert Elements(v) == [xs[0]] + (s + StripAll([xs[k]])) && Elements(v + w) == [xs[0]] + (s + StripAll(more));
      assert StripAll([xs[k]]) == [Strip(xs[k])];
    }
  }

  /** What is read before a position depends only on the elements before it. */
  lemma {:induction false} ReadingsBefore(es: seq<string>, fs: seq<string>)
    requires es != [] && |fs| >= |es| && fs[..|es| - 1] == es[..|es| - 1]
    ensures var k := |es| - 1; Readings(fs)[..k] == Readings(es)[..k]
    ensures Awaits(es) ==> Readings(fs)[|es| - 1..] == ReadingsLater(fs[|es| - 1..])
    decreases |es|, 0
  {
    hide OptionOf, Sticky, StartsWell, Readings, ReadingsLater, AwaitsLater;
    var k := |es| - 1;
    if k == 0 {
      assert es[1..] == [];
      NothingAwaits();
    } else {
      assert es[0] == es[..k][0] == fs[..k][0] == fs[0];
      if !Sticky(es[0]) {
        assert es[1..][..k - 1] == es[..k][1..] == fs[..k][1..] == fs[1..][..k - 1];
        LaterBefore(es[1..], fs[1..]);
        PlainCut(es, k);
        PlainCut(fs, k);
      } else if k == 1 {
        assert es[2..] == [];
        NothingAwaits();
        FirstReading(es);
        FirstReading(fs);
      } else {
        assert es[2..][..k - 2] == es[..k][2..] == fs[..k][2..] == fs[2..][..k - 2];
        LaterBefore(es[2..], fs[2..]);
        StickyCut(es, k);
        StickyCut(fs, k);
      }
    }
  }

  lemma NothingAwaits()
    ensures !AwaitsLater([])
  {
  }

  lemma FirstReading(es: seq<string>)
    requires es != []
    ensures Readings(es)[..1] == [OptionOf(es[0])]
  {
    hide OptionOf, Sticky, ReadingsLater;
  }

  lemma PlainCut(es: seq<string>, k: nat)
    requires 1 <= k <= |es| && !Sticky(es[0])
    ensures Readings(es)[..k] == [OptionOf(es[0])] + ReadingsLater(es[1..])[..k - 1]
    ensures Readings(es)[k..] == ReadingsLater(es[1..])[k - 1..] && es[k..] == es[1..][k - 1..]
  {
    hide OptionOf, Sticky, ReadingsLater;
  }

  lemma StickyCut(es: seq<string>, k: nat)
    requires 2 <= k <= |es| && Sticky(es[0])
    ensures Readings(es)[..k] == [OptionOf(es[0])] + ([NoOption] + ReadingsLater(es[2..])[..k - 2])
    ensures Readings(es)[k..] == ReadingsLater(es[2..])[k - 2..] && es[k..] == es[2..][k - 2..]
  {
    hide OptionOf, Sticky, ReadingsLater;
  }

  lemma {:induction false} LaterBefore(es: seq<string>, fs: seq<string>)
    requires es != [] && |fs| >= |es| && fs[..|es| - 1] == es[..|es| - 1]
    ensures var k := |es| - 1; ReadingsLater(fs)[..k] == ReadingsLater(es)[..k]
    ensures AwaitsLater(es) ==> ReadingsLater(fs)[|es| - 1..] == ReadingsLater(fs[|es| - 1..])
    decreases |es|, 1
  {
    hide OptionOf, Sticky, Readings, Awaits;
    var k := |es| - 1;
    if k == 0 {
      assert fs[0..] == fs;
      EmptyNotWell();
    } else {
      assert es[0] == es[..k][0] == fs[..k][0] == fs[0];
      if StartsWell(es[0]) { ReadingsBefore(es, fs); } else { NonesCut(|es|, |fs|, k); }
    }
  }

  lemma EmptyNotWell()
    ensures !StartsWell("")
  {
  }

  lemma {:induction false} NonesCut(m: nat, n: nat, k: nat)
    requires k <= m && k <= n
    ensures Nones(m)[..k] == Nones(n)[..k]
    decreases k
  {
    if k > 0 {
      NonesCut(m - 1, n - 1, k - 1);
      assert Nones(m)[..k] == [NoOption] + Nones(m - 1)[..k - 1] && Nones(n)[..k] == [NoOption] + Nones(n - 1)[..k - 1];
    }
  }

  lemma {:induction false} ChoicesAppend(f: Flags, a: seq<Choice>, b: seq<Choice>)
    ensures WithChoices(f, a + b) == WithChoices(WithChoices(f, a), b)
    decreases |a|
  {
    hide WithOption;
    if a == [] {
      assert a + b == b;
    } else {
      assert (a + b)[1..] == a[1..] + b;
      ChoicesAppend(WithOption(f, a[0]), a[1..], b);
    }
  }

  /** The unfolded value sets what the elements before the fold set, and then what is read from the fold on. */
  lemma UnfoldedFlags(f: Flags, v: string, w: string)
    ensures var k := |Elements(v)| - 1;
            && |Elements(v + w)| > k
            && ReadFlags(f, v + w) == WithChoices(FlagsBefore(f, v), Readings(Elements(v + w))[k..])
  {
    hide Elements, Readings, WithOptions, WithChoices, Effective;
    var es, fs := Elements(v), Elements(v + w);
    var k := |es| - 1;
    ElementsAppend(v, w);
    ReadingsBefore(es, fs);
    ReadingsSet(f, fs);
    var rs := Readings(fs);
    assert rs == rs[..k] + rs[k..];
    ChoicesAppend(f, rs[..k], rs[k..]);
  }

  /** A fold inside or after an element: the line means the same exactly when what it would set from that element on
      is set already. */
  predicate NothingDropped(f: Flags, v: string, w: string) {
    var fs := Elements(v + w);
    forall i :: |Elements(v)| - 1 <= i < |fs| && Looked(fs)[i] ==> SetIn(FlagsBefore(f, v), OptionOf(fs[i]))
  }

  /** A fold where an element is yet to start: a space is skipped on one line, too, but a tab would end the list. */
  predicate NothingGained(f: Flags, v: string, w: string)
    requires w != ""
  {
    var ls := Continued(w);
    w[0] == ' ' || forall i :: 0 <= i < |ls| && LookedLater(ls)[i] ==> SetIn(FlagsBefore(f, v), OptionOf(ls[i]))
  }

  lemma DroppedExact(f: Flags, v: string, w: string)
    ensures ReadFlags(f, v + w) == FlagsBefore(f, v) <==> NothingDropped(f, v, w)
  {
    hide Elements, Readings, WithOptions, WithChoices, Effective, SetIn, OptionOf, Looked, FlagsBefore;
    var k, fs, g := |Elements(v)| - 1, Elements(v + w), FlagsBefore(f, v);
    UnfoldedFlags(f, v, w);
    NothingNew(g, Readings(fs)[k..]);
    SetNothing(g);
    var rs := Readings(fs)[k..];
    forall j | 0 <= j < |rs|
      ensures SetIn(g, rs[j]) <==> (Looked(fs)[k + j] ==> SetIn(g, OptionOf(fs[k + j])))
    {
      ReadingsAt(fs, k + j);
    }
    if forall j :: 0 <= j < |rs| ==> SetIn(g, rs[j]) {
      forall i | k <= i < |fs| && Looked(fs)[i] ensures SetIn(g, OptionOf(fs[i])) { assert SetIn(g, rs[i - k]); }
    }
  }

  lemma {:induction false} StripJoin(a: string, b: string)
    requires Strip(a) == ""
    ensures Strip(a + b) == Strip(b)
    decreases |a|
  {
    if a == "" {
      assert a + b == b;
    } else {
      assert (a + b)[1..] == a[1..] + b;
      StripJoin(a[1..], b);
    }
  }

  lemma {:induction false} AwaitsEmpty(es: seq<string>)
    requires Awaits(es)
    ensures |es| > 1 && es[|es| - 1] == ""
    decreases |es|, 0
  {
    hide Sticky, StartsWell;
    AwaitsLaterEmpty(if Sticky(es[0]) && |es| > 1 then es[2..] else es[1..]);
  }

  lemma {:induction false} AwaitsLaterEmpty(es: seq<string>)
    requires AwaitsLater(es)
    ensures es != [] && es[|es| - 1] == ""
    decreases |es|, 1
  {
    hide Sticky, StartsWell, Awaits;
    if es != [""] { AwaitsEmpty(es); }
  }

  /** The unfolded value, where an element is yet to start. */
  lemma UnfoldedAwaits(f: Flags, v: string, w: string)
    requires Awaits(Elements(v)) && IsFold(w)
    ensures ReadFlags(f, v + w) ==
            if w[0] == ' ' then WithChoices(FlagsBefore(f, v), ReadingsLater(Continued(w))) else FlagsBefore(f, v)
  {
    hide Elements, Readings, WithOptions, WithChoices, Effective, Awaits, Items, FlagsBefore, NoBreak, ReadingsLater;
    var es, fs := Elements(v), Elements(v + w);
    var k := |es| - 1;
    AwaitsEmpty(es);
    UnfoldedFlags(f, v, w);
    ElementsAppend(v, w);
    ReadingsBefore(es, fs);
    var ys := Items(w);
    StripJoin(Items(v)[k], ys[0]);
    var ls := StripAll(ys);
    assert StripAll([Items(v)[k] + ys[0]] + ys[1..]) == ls by { StripAllFirst(Items(v)[k] + ys[0], ys); }
    FoldStart(w);
    if w[0] == '\t' { NonesNothing(FlagsBefore(f, v), |ls|); }
  }

  lemma StripAllFirst(x: string, ys: seq<string>)
    requires ys != [] && Strip(x) == Strip(ys[0])
    ensures StripAll([x] + ys[1..]) == StripAll(ys)
  {
    hide Strip;
    assert ([x] + ys[1..])[1..] == ys[1..];
  }

  /** The first byte of a continuation line. */
  lemma FoldStart(w: string)
    requires w != "" && White(w[0])
    ensures w[0] == ' ' ==> StripAll(Items(w)) == Continued(w)
    ensures w[0] == '\t' ==> ReadingsLater(StripAll(Items(w))) == Nones(|StripAll(Items(w))|)
  {
    hide Items, Strip, Token, Lower;
    var first := [w[0]];
    assert w == first + w[1..];
    assert NoComma(first);
    ItemsJoin(first, w[1..]);
    var ys := Items(w[1..]);
    StripFirst(w[0], ys[0]);
    var all := [first + ys[0]] + ys[1..];
    assert all[0] == first + ys[0] && all[1..] == ys[1..];
  }

  lemma StripFirst(ch: char, x: string)
    requires White(ch)
    ensures if ch == ' ' then Strip([ch] + x) == Strip(x) else !StartsWell(Strip([ch] + x))
  {
    assert ([ch] + x)[1..] == x;
    assert Token(Lower('\t')) == '\0';
  }

  lemma GainedExact(f: Flags, v: string, w: string)
    requires Awaits(Elements(v)) && IsFold(w)
    ensures FoldedFlags(f, v, w) == ReadFlags(f, v + w) <==> NothingGained(f, v, w)
  {
    hide Elements, WithOptions, WithChoices, Effective, Awaits, FlagsBefore, NoBreak, ReadingsLater, LookedLater,
      Later, SetIn, OptionOf, ReadFlags, Continued;
    var g, ls := FlagsBefore(f, v), Continued(w);
    UnfoldedAwaits(f, v, w);
    ReadingsLaterSet(g, ls);
    NothingNew(g, ReadingsLater(ls));
    SetNothing(g);
    forall i | 0 <= i < |ls|
      ensures SetIn(g, ReadingsLater(ls)[i]) <==> (LookedLater(ls)[i] ==> SetIn(g, OptionOf(ls[i])))
    {
      LaterAt(ls, i);
    }
  }

  /** When a folded value means what it means on one line. */
  predicate FoldHarmless(f: Flags, n: nat, m: Meaning, v: string, w: string)
    requires w != ""
  {
    match m
    case Plain => true
    case Means(Upgrade) => true
    case Means(TransferEncoding) => f.chunked || !Spells("chunked", v + w)
    case Means(Connection) => if Awaits(Elements(v)) then NothingGained(f, v, w) else NothingDropped(f, v, w)
    case Means(ContentLength) => v == "" || !IsNum(v[0]) || !(0 <= LengthFrom(0, v + w) <= LENGTH_LIMIT)
  }

  /** A folded header line sets what the same text on one line sets exactly when FoldHarmless holds. */
  lemma FoldExact(f: Flags, n: nat, m: Meaning, v: string, w: string)
    requires IsValue(v) && IsFold(w)
    ensures FoldedEffect(f, n, m, v, w) == EffectOf(f, n, m, v + w) <==> FoldHarmless(f, n, m, v, w)
  {
    hide FoldedFlags, ReadFlags, NothingGained, NothingDropped, Awaits, Elements, Effective, WithOptions, FlagsBefore,
      Spells, LengthFrom, NoBreak;
    match m
    case Means(Connection) =>
      ReadFlagsIs(f, v + w);
      if Awaits(Elements(v)) {
        GainedExact(f, v, w);
      } else {
        DroppedExact(f, v, w);
        FoldedFlagsIs(f, v, w);
      }
    case _ =>
  }

  lemma ReadFlagsIs(f: Flags, v: string)
    ensures ReadFlags(f, v) == WithOptions(f, Effective(Elements(v)))
  {
  }

  /** "chunked", folded before a blank line of one space, is not chunked; on one line, it is. */
  lemma FoldExample(f: Flags, n: nat)
    requires !f.chunked
    ensures FoldedEffect(f, n, Means(TransferEncoding), "chunked", " ") == Sets(f, n)
    ensures EffectOf(f, n, Means(TransferEncoding), "chunked" + " ") == Sets(f.(chunked := true), n)
  {
    LowerWord("chunked");
    assert "chunked" + " " == "chunked" + [' '];
    TrimmedMore("chunked", ' ');
    assert Trimmed("chunked") == "chunked";
  }
}
