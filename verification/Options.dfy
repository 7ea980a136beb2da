/** What a Connection line should mean, told from its text alone, and exactly when the parser reads it so. */
module ConnectionOptions {
  import opened Chars
  import opened ParserTypes
  import opened Machine
  import opened Values
  import opened ConnectionLists

  // ---- what the elements mean ----

  function TrimFront(s: string): string {
    if s != "" && White(s[0]) then TrimFront(s[1..]) else s
  }

  function TrimBack(s: string): string {
    if s != "" && White(s[|s| - 1]) then TrimBack(s[..|s| - 1]) else s
  }

  /** An item without the spaces and tabs around it, as section 7 of RFC 7230 has it. */
  function Bare(s: string): string {
    TrimBack(TrimFront(s))
  }

  /** The option that is this word, in any case. */
  function ChoiceOf(s: string): Choice {
    if LowerAll(s) == "keep-alive" then Known(KeepAlive)
    else if LowerAll(s) == "close" then Known(Close)
    else if LowerAll(s) == "upgrade" then Known(ConnectionUpgrade)
    else NoOption
  }

  function Meant(item: string): Choice {
    ChoiceOf(Bare(item))
  }

  function Meanings(items: seq<string>): (os: seq<Choice>)
    ensures |os| == |items|
  {
    if items == [] then [] else [Meant(items[0])] + Meanings(items[1..])
  }

  lemma {:induction false} MeaningsAt(items: seq<string>, i: nat)
    requires i < |items|
    ensures Meanings(items)[i] == Meant(items[i])
    decreases |items|
  {
    hide Meant;
    if i > 0 { MeaningsAt(items[1..], i - 1); }
  }

  // ---- what the parser does not see ----

  function SkipSpaces(s: string): string {
    if s != "" && s[0] == ' ' then SkipSpaces(s[1..]) else s
  }

  /** Spaces aside, the item starts or ends with a tab. */
  predicate TabPadded(item: string) {
    var s := Trimmed(SkipSpaces(item)); s != "" && (s[0] == '\t' || s[|s| - 1] == '\t')
  }

  /** Spaces aside, the item starts with a NUL. */
  predicate NulLed(item: string) {
    var s := SkipSpaces(item); s != "" && s[0] == '\0'
  }

  /** An item whose option is lost: it is swallowed or never read, or a tab hides it. */
  predicate Lost(v: string, i: nat)
    requires i < |Items(v)|
  {
    !Looked(Elements(v))[i] || TabPadded(Items(v)[i])
  }

  /** An item that is read as if the NUL in front of it were a space. */
  predicate Spurious(v: string, i: nat)
    requires i < |Items(v)|
  {
    i > 0 && Looked(Elements(v))[i] && NulLed(Items(v)[i])
  }

  // ---- one item ----

  lemma {:induction false} StripSpaces(x: string)
    requires !NulLed(x)
    ensures Strip(x) == SkipSpaces(x)
    decreases |x|
  {
    if x != "" && x[0] == ' ' { StripSpaces(x[1..]); }
  }

  lemma {:induction false} SkipThenTrim(x: string)
    ensures TrimFront(x) == TrimFront(SkipSpaces(x)) && (SkipSpaces(x) != "" ==> SkipSpaces(x)[0] != ' ')
    decreases |x|
  {
    if x != "" && x[0] == ' ' { SkipThenTrim(x[1..]); }
  }

  lemma {:induction false} TrimmedThenTrim(s: string)
    ensures var t := Trimmed(s);
            && TrimBack(s) == TrimBack(t) && (t != "" ==> t[|t| - 1] != ' ')
            && (s != "" && s[0] != ' ' ==> t != "" && t[0] == s[0])
    decreases |s|
  {
    if s != "" && s[|s| - 1] == ' ' { TrimmedThenTrim(s[..|s| - 1]); }
  }

  /** Without tabs around it, an item is bare once the spaces are gone. */
  lemma BareSpaces(x: string)
    requires !TabPadded(x)
    ensures Bare(x) == Trimmed(SkipSpaces(x))
  {
    var s := SkipSpaces(x);
    SkipThenTrim(x);
    TrimmedThenTrim(s);
    hide SkipSpaces, Trimmed;
  }

  /** A word with a byte that no option has is none. */
  lemma NoWord(s: string, k: nat)
    requires k < |s| && (s[k] == '\t' || s[k] == '\0')
    ensures ChoiceOf(s) == NoOption
  {
    LowerAllAt(s, k);
    assert Lower('\t') == ')' && Lower('\0') == ' ';
    assert NoneIn("keep-alive") && NoneIn("close") && NoneIn("upgrade");
    hide Lower;
  }

  predicate NoneIn(w: string) {
    forall k :: 0 <= k < |w| ==> w[k] != ')' && w[k] != ' '
  }

  /** What is read from an item without a NUL in front: its meaning, or nothing if a tab hides it. */
  lemma ItemRead(x: string)
    ensures OptionOf(SkipSpaces(x)) == if TabPadded(x) then NoOption else Meant(x)
  {
    var t := Trimmed(SkipSpaces(x));
    assert OptionOf(SkipSpaces(x)) == ChoiceOf(t) by { hide LowerAll, Trimmed; }
    if TabPadded(x) {
      NoWord(t, if t[0] == '\t' then 0 else |t| - 1);
    } else {
      BareSpaces(x);
    }
  }

  lemma {:induction false} TrimBackFirst(s: string)
    requires s != "" && !White(s[0])
    ensures TrimBack(s) != "" && TrimBack(s)[0] == s[0]
    decreases |s|
  {
    if White(s[|s| - 1]) { TrimBackFirst(s[..|s| - 1]); }
  }

  /** An item with a NUL in front means nothing. */
  lemma NulMeansNothing(x: string)
    requires NulLed(x)
    ensures Meant(x) == NoOption
  {
    SkipThenTrim(x);
    TrimBackFirst(SkipSpaces(x));
    NoWord(Bare(x), 0);
  }

  // ---- positions ----

  lemma {:induction false} StripAllAt(xs: seq<string>, i: nat)
    requires i < |xs|
    ensures StripAll(xs)[i] == Strip(xs[i])
    decreases |xs|
  {
    if i > 0 { StripAllAt(xs[1..], i - 1); }
  }

  lemma NonesAt(n: nat, i: nat)
    requires i < n
    ensures Nones(n)[i] == NoOption
  {
    if i > 0 { NonesAt(n - 1, i - 1); }
  }

  /** What is read at a position. */
  lemma {:induction false} ReadingsAt(es: seq<string>, i: nat)
    requires i < |es|
    ensures Readings(es)[i] == if Looked(es)[i] then OptionOf(es[i]) else NoOption
    decreases |es|, 0
  {
    hide OptionOf, Sticky, StartsWell;
    if Sticky(es[0]) && |es| > 1 {
      if i > 1 { LaterAt(es[2..], i - 2); }
    } else if i > 0 {
      LaterAt(es[1..], i - 1);
    }
  }

  lemma {:induction false} LaterAt(es: seq<string>, i: nat)
    requires i < |es|
    ensures ReadingsLater(es)[i] == if LookedLater(es)[i] then OptionOf(es[i]) else NoOption
    decreases |es|, 1
  {
    hide OptionOf, Sticky, StartsWell, Readings, Looked;
    if StartsWell(es[0]) { ReadingsAt(es, i); } else { NonesAt(|es|, i); }
  }

  /** The first item of a value has nothing in front of it. */
  lemma FirstItem(v: string)
    requires IsValue(v)
    ensures SkipSpaces(Items(v)[0]) == Items(v)[0] == Elements(v)[0]
  {
  }

  /** What is read of an item, and what it means. */
  lemma PositionRead(v: string, i: nat)
    requires IsValue(v) && i < |Items(v)|
    ensures var r, m := Readings(Elements(v))[i], Meant(Items(v)[i]);
            && (!Spurious(v, i) ==> r == if Lost(v, i) then NoOption else m)
            && (Spurious(v, i) ==> r == OptionOf(Elements(v)[i]) && m == NoOption)
  {
    hide OptionOf, Meant, Readings, Looked, Items, TabPadded, NulLed, SkipSpaces, Strip;
    var x := Items(v)[i];
    ReadingsAt(Elements(v), i);
    ItemRead(x);
    if i == 0 {
      FirstItem(v);
    } else {
      StripAllAt(Items(v)[1..], i - 1);
      if NulLed(x) { NulMeansNothing(x); } else { StripSpaces(x); }
    }
  }

  // ---- flags ----

  predicate SetIn(f: Flags, o: Choice) {
    WithOption(f, o) == f
  }

  lemma WithOptionOrder(f: Flags, a: Choice, b: Choice)
    ensures WithOption(WithOption(f, a), b) == WithOption(WithOption(f, b), a)
    ensures SetIn(f, b) ==> SetIn(WithOption(f, a), b)
    ensures SetIn(WithOption(f, a), a)
  {
  }

  lemma {:induction false} ChoiceLate(f: Flags, o: Choice, os: seq<Choice>)
    ensures WithChoices(WithOption(f, o), os) == WithOption(WithChoices(f, os), o)
    decreases |os|
  {
    hide WithOption;
    if os != [] {
      WithOptionOrder(f, o, os[0]);
      ChoiceLate(WithOption(f, os[0]), o, os[1..]);
    }
  }

  lemma {:induction false} ChoicesSwap(f: Flags, a: seq<Choice>, b: seq<Choice>)
    ensures WithChoices(WithChoices(f, a), b) == WithChoices(WithChoices(f, b), a)
    decreases |a|
  {
    hide WithOption;
    if a != [] {
      ChoiceLate(f, a[0], b);
      ChoicesSwap(WithOption(f, a[0]), a[1..], b);
    }
  }

  lemma {:induction false} ChoicesStay(f: Flags, os: seq<Choice>, o: Choice)
    requires SetIn(f, o)
    ensures SetIn(WithChoices(f, os), o)
    decreases |os|
  {
    hide WithOption, SetIn;
    if os != [] {
      WithOptionOrder(f, os[0], o);
      ChoicesStay(WithOption(f, os[0]), os[1..], o);
    }
  }

  lemma {:induction false} ChoicesSet(f: Flags, os: seq<Choice>, i: nat)
    requires i < |os|
    ensures SetIn(WithChoices(f, os), os[i])
    decreases |os|
  {
    hide WithOption, SetIn;
    WithOptionOrder(f, os[0], os[0]);
    var g := WithOption(f, os[0]);
    if i == 0 { ChoicesStay(g, os[1..], os[0]); } else { ChoicesSet(g, os[1..], i - 1); }
  }

  /** Options that are set already set nothing, and only those. */
  lemma {:induction false} NothingNew(f: Flags, os: seq<Choice>)
    ensures WithChoices(f, os) == f <==> forall i :: 0 <= i < |os| ==> SetIn(f, os[i])
    decreases |os|
  {
    if forall i :: 0 <= i < |os| ==> SetIn(f, os[i]) {
      if os != [] {
        assert SetIn(f, os[0]);
        assert forall i :: 0 <= i < |os| - 1 ==> os[1..][i] == os[i + 1];
        NothingNew(f, os[1..]);
      }
    }
    if WithChoices(f, os) == f {
      forall i | 0 <= i < |os| ensures SetIn(f, os[i]) { ChoicesSet(f, os, i); }
    }
  }

  lemma SameChoices(f: Flags, a: seq<Choice>, b: seq<Choice>)
    requires |a| == |b|
    ensures WithChoices(f, a) == WithChoices(f, b) <==>
            forall i :: 0 <= i < |a| ==> SetIn(WithChoices(f, a), b[i]) && SetIn(WithChoices(f, b), a[i])
  {
    hide SetIn, WithOption, WithChoices;
    NothingNew(WithChoices(f, a), b);
    NothingNew(WithChoices(f, b), a);
    ChoicesSwap(f, a, b);
    forall i | 0 <= i < |a| ensures SetIn(WithChoices(f, a), a[i]) && SetIn(WithChoices(f, b), b[i]) {
      ChoicesSet(f, a, i);
      ChoicesSet(f, b, i);
    }
  }

  // ---- a whole line ----

  /** The flags that the items of a value mean. */
  function MeantFlags(f: Flags, v: string): Flags {
    WithChoices(f, Meanings(Items(v)))
  }

  /** The flags that the parser sets. */
  function ReadFlags(f: Flags, v: string): Flags {
    WithOptions(f, Effective(Elements(v)))
  }

  lemma SetNothing(f: Flags)
    ensures SetIn(f, NoOption)
  {
  }

  /** A Connection line means all its elements exactly when the option of each lost element is set already, by an
      earlier header or by another element, and so is whatever a NUL makes the parser read. */
  lemma ConnectionExact(p: Parser, v: string)
    requires p.hstate == Named(Connection) && IsValue(v)
    ensures var xs, read, meant := Items(v), ReadFlags(p.flags, v), MeantFlags(p.flags, v);
            Settled(ValueRead(p, v)).flags == meant <==>
            && (forall i :: 0 <= i < |xs| && Lost(v, i) ==> SetIn(read, Meant(xs[i])))
            && (forall i :: 0 <= i < |xs| && Spurious(v, i) ==> SetIn(meant, OptionOf(Elements(v)[i])))
  {
    hide WithOptions, Effective, SetIn, Elements, OptionOf, Items, Meant, Meanings, Readings, Lost, Spurious, ValueRead,
      Settled, WithChoices, IsValue;
    var xs, read, meant := Items(v), ReadFlags(p.flags, v), MeantFlags(p.flags, v);
    var rs, ms := Readings(Elements(v)), Meanings(xs);
    ConnectionFlags(p, v);
    ReadingsSet(p.flags, Elements(v));
    SameChoices(p.flags, rs, ms);
    SetNothing(read);
    SetNothing(meant);
    forall i | 0 <= i < |xs|
      ensures SetIn(read, ms[i]) && SetIn(meant, rs[i]) <==>
              (Lost(v, i) ==> SetIn(read, Meant(xs[i]))) && (Spurious(v, i) ==> SetIn(meant, OptionOf(Elements(v)[i])))
    {
      MeaningsAt(xs, i);
      PositionRead(v, i);
      ChoicesSet(p.flags, rs, i);
      ChoicesSet(p.flags, ms, i);
    }
  }

  // ---- examples ----

  lemma {:induction false} LowerWord(s: string)
    requires forall i :: 0 <= i < |s| ==> Lower(s[i]) == s[i]
    ensures LowerAll(s) == s
    decreases |s|
  {
    if s != "" { LowerWord(s[..|s| - 1]); }
  }

  lemma CloseWord()
    ensures LowerAll("close") == "close" && OptionOf("close") == Meant("close") == Known(Close)
  {
    LowerWord("close");
    assert Trimmed("close") == "close" && Bare("close") == "close";
  }

  /** Where the word close and something before it mean close, and the parser does not read it. */
  lemma Unread(p: Parser, v: string, first: string, last: string)
    requires p.hstate == Named(Connection) && !p.flags.close && IsValue(v) && NoComma(first) && NoComma(last)
    requires v == first + ("," + last) && Bare(last) == "close" && (Sticky(first) || !StartsWell(Strip(last)))
    requires OptionOf(first) == NoOption
    ensures Settled(ValueRead(p, v)).flags == p.flags && MeantFlags(p.flags, v).close
  {
    hide Sticky, StartsWell, Strip, OptionOf, ValueRead, NoComma, Bare, LowerAll, Recognised, WithOption;
    ConnectionFlags(p, v);
    ItemsCons(first, last);
    ItemsCons(last, "");
    var es := Elements(v);
    assert es == [first, Strip(last)];
    assert es[1..] == [Strip(last)] && es[2..] == [];
    WithNoOption(p.flags);
    assert Effective(es) == [first];
    WithOptionsCons(p.flags, first, []);
    assert [first] + [] == [first];
    NothingSet(p.flags);
    CloseWord();
    assert Meant(last) == Known(Close);
    MeaningsAt(Items(v), 1);
    ChoicesSet(p.flags, Meanings(Items(v)), 1);
    assert SetIn(MeantFlags(p.flags, v), Known(Close));
    ClosesWhenSet(MeantFlags(p.flags, v));
  }

  lemma ClosesWhenSet(f: Flags)
    requires SetIn(f, Known(Close))
    ensures f.close
  {
  }

  /** "clo,close" does not close the connection: the sticky "clo" swallows the comma and "close". */
  lemma StickyExample(p: Parser)
    requires p.hstate == Named(Connection) && !p.flags.close
    ensures Settled(ValueRead(p, "clo,close")).flags == p.flags && MeantFlags(p.flags, "clo,close").close
  {
    hide OptionOf, ValueRead, Settled, MeantFlags, Sticky, Strip;
    StickyWord();
    assert Bare("close") == "close";
    assert "clo,close" == "clo" + ("," + "close");
    Unread(p, "clo,close", "clo", "close");
  }

  lemma StickyWord()
    ensures Sticky("clo") && OptionOf("clo") == NoOption
  {
    LowerWord("clo");
    assert Trimmed("clo") == "clo";
  }

  /** "x,\tclose" does not: the tab ends the list. */
  lemma LeadingTabExample(p: Parser)
    requires p.hstate == Named(Connection) && !p.flags.close
    ensures Settled(ValueRead(p, "x,\tclose")).flags == p.flags && MeantFlags(p.flags, "x,\tclose").close
  {
    hide OptionOf, ValueRead, Settled, MeantFlags, Sticky;
    assert OptionOf("x") == NoOption by { OtherWord(); }
    assert TrimFront("\tclose") == TrimFront("close") == "close" && TrimBack("close") == "close";
    assert "x,\tclose" == "x" + ("," + "\tclose");
    assert Token(Lower('\t')) == '\0';
    Unread(p, "x,\tclose", "x", "\tclose");
  }

  lemma OtherWord()
    ensures OptionOf("x") == NoOption
  {
    LowerWord("x");
    assert Trimmed("x") == "x";
  }

  /** "close\t" does not: after the tab it is another word. */
  lemma TrailingTabExample(p: Parser)
    requires p.hstate == Named(Connection) && !p.flags.close
    ensures Settled(ValueRead(p, "close\t")).flags == p.flags && MeantFlags(p.flags, "close\t").close
  {
    var v := "close\t";
    hide ValueRead, LowerAll, OptionOf, Recognised, WithOption;
    ConnectionFlags(p, v);
    ItemsCons(v, "");
    assert Elements(v) == [v] && Effective([v]) == [v];
    TabHides();
    WithNoOption(p.flags);
    WithOptionsCons(p.flags, v, []);
    assert [v] + [] == [v];
    MeaningsAt([v], 0);
    ChoicesSet(p.flags, Meanings([v]), 0);
    ClosesWhenSet(MeantFlags(p.flags, v));
  }

  lemma TabHides()
    ensures OptionOf("close\t") == NoOption && Meant("close\t") == Known(Close)
  {
    var v := "close\t";
    CloseWord();
    assert TrimFront(v) == v && v[..5] == "close" && TrimBack(v) == TrimBack("close") == "close";
    assert SkipSpaces(v) == v && Trimmed(v) == v;
    ItemRead(v);
  }
}
