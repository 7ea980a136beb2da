/** What a block of header lines sets, told from the lines alone: one line each is enough for a flag, and the last
    Content-Length counts. */
module HeadFlags {
  import opened Chars
  import opened ParserTypes
  import opened Names
  import opened Values
  import opened ConnectionLists
  import opened HeaderLines

  predicate Named(x: Line, name: string) {
    Lowered(x.name) == name && x.value != ""
  }

  /** An Upgrade line, whatever it names. */
  predicate AsksUpgrade(x: Line) {
    Named(x, "upgrade")
  }

  /** A Transfer-Encoding line that says chunked and nothing else. */
  predicate SaysChunked(x: Line) {
    Named(x, "transfer-encoding") && Lowered(Trimmed(x.value)) == "chunked"
  }

  /** One of the elements spells the word. */
  predicate Among(es: seq<string>, w: string) {
    exists i :: 0 <= i < |es| && Lowered(Trimmed(es[i])) == w
  }

  /** A Connection line that has this option among the elements that count. */
  predicate HasOption(x: Line, option: string) {
    && (Named(x, "connection") || Named(x, "proxy-connection"))
    && Among(Effective(Elements(x.value)), option)
  }

  predicate SaysLength(x: Line) {
    Named(x, "content-length")
  }

  /** The number that a Content-Length line gives; -1 when it gives none. */
  function LengthOf(x: Line): (r: int)
    requires x.value != ""
    ensures r >= -1
  {
    if IsNum(x.value[0]) then LengthFrom(0, x.value) else -1
  }

  // ---- one line ----

  /** What one line adds. */
  function Adds(f: Flags, x: Line): Flags {
    f.(upgrade := f.upgrade || AsksUpgrade(x), chunked := f.chunked || SaysChunked(x),
       close := f.close || HasOption(x, "close"), keepAlive := f.keepAlive || HasOption(x, "keep-alive"),
       connectionUpgrade := f.connectionUpgrade || HasOption(x, "upgrade"))
  }

  lemma AmongFirst(es: seq<string>, w: string)
    ensures Among(es, w) <==> es != [] && (Lowered(Trimmed(es[0])) == w || Among(es[1..], w))
  {
    hide Lowered, Trimmed;
    if es != [] && Among(es[1..], w) {
      var i :| 0 <= i < |es| - 1 && Lowered(Trimmed(es[1..][i])) == w;
      assert es[i + 1] == es[1..][i];
    }
    if Among(es, w) {
      var i :| 0 <= i < |es| && Lowered(Trimmed(es[i])) == w;
      if i > 0 { assert es[1..][i - 1] == es[i]; }
    }
  }

  predicate Unbroken(es: seq<string>) {
    forall i :: 0 <= i < |es| ==> NoBreak(es[i])
  }

  lemma OptionSpelled(e: string)
    requires NoBreak(e)
    ensures OptionOf(e) == Known(Close) <==> Lowered(Trimmed(e)) == "close"
    ensures OptionOf(e) == Known(KeepAlive) <==> Lowered(Trimmed(e)) == "keep-alive"
    ensures OptionOf(e) == Known(ConnectionUpgrade) <==> Lowered(Trimmed(e)) == "upgrade"
  {
    hide Spells, Lowered, Trimmed, NoBreak;
    SpellsExact("close", e);
    SpellsExact("keep-alive", e);
    SpellsExact("upgrade", e);
  }

  /** The flags of a list of elements. */
  lemma {:induction false} OptionsAdd(f: Flags, es: seq<string>)
    requires Unbroken(es)
    ensures WithOptions(f, es) ==
            f.(close := f.close || Among(es, "close"), keepAlive := f.keepAlive || Among(es, "keep-alive"),
               connectionUpgrade := f.connectionUpgrade || Among(es, "upgrade"))
    decreases |es|
  {
    hide Among, OptionOf, NoBreak, Lowered, Trimmed;
    AmongFirst(es, "close");
    AmongFirst(es, "keep-alive");
    AmongFirst(es, "upgrade");
    if es != [] {
      OptionSpelled(es[0]);
      OptionsAdd(WithOption(f, OptionOf(es[0])), es[1..]);
    }
  }

  // ---- the elements of a value hold no line break ----

  lemma {:induction false} StripUnbroken(s: string)
    requires NoBreak(s)
    ensures NoBreak(Strip(s))
    decreases |s|
  {
    if s != "" && ConnectionLists.Blank(s[0]) { StripUnbroken(s[1..]); }
  }

  lemma {:induction false} ItemsUnbroken(v: string)
    requires NoBreak(v)
    ensures Unbroken(Items(v))
    decreases |v|
  {
    var n := FirstComma(v);
    if n < |v| { ItemsUnbroken(v[n + 1..]); }
  }

  lemma {:induction false} StripAllUnbroken(xs: seq<string>)
    requires Unbroken(xs)
    ensures Unbroken(StripAll(xs))
    decreases |xs|
  {
    hide NoBreak, Strip;
    if xs != [] {
      StripUnbroken(xs[0]);
      StripAllUnbroken(xs[1..]);
    }
  }

  lemma {:induction false} EffectiveUnbroken(es: seq<string>)
    requires Unbroken(es)
    ensures Unbroken(Effective(es)) && Unbroken(Later(es))
    decreases |es|
  {
    hide NoBreak, Sticky, StartsWell;
    if es != [] {
      EffectiveUnbroken(es[1..]);
      if |es| > 1 { EffectiveUnbroken(es[2..]); }
    }
  }

  lemma ElementsUnbroken(v: string)
    requires NoBreak(v)
    ensures Unbroken(Effective(Elements(v)))
  {
    hide NoBreak, Items, StripAll, Effective;
    ItemsUnbroken(v);
    StripAllUnbroken(Items(v)[1..]);
    EffectiveUnbroken(Elements(v));
  }

  /** A line sets what it adds, and a Content-Length line its number, or is refused. */
  lemma LineAdds(f: Flags, n: nat, x: Line)
    requires IsLine(x)
    ensures EffectOf(f, n, MeaningOf(Lowered(x.name)), x.value) ==
            if !SaysLength(x) then Sets(Adds(f, x), n)
            else if 0 <= LengthOf(x) <= 0xFFFF_FFFF_FFFF_FFF9 then Sets(f, LengthOf(x))
            else Refused
  {
    hide Lowered, EffectOf, Adds, IsLine, LengthOf;
    var m := MeaningOf(Lowered(x.name));
    if x.value == "" { NoValueAdds(f, n, x); }
    else if m == Means(ContentLength) { LengthAdds(f, n, x); }
    else if m == Means(Connection) { ConnectionAdds(f, n, x); }
    else { OtherAdds(f, n, x); }
  }

  lemma NoValueAdds(f: Flags, n: nat, x: Line)
    requires x.value == ""
    ensures EffectOf(f, n, MeaningOf(Lowered(x.name)), x.value) == Sets(Adds(f, x), n)
  {
    hide Lowered;
  }

  lemma LengthAdds(f: Flags, n: nat, x: Line)
    requires Lowered(x.name) == "content-length" && x.value != ""
    ensures EffectOf(f, n, MeaningOf(Lowered(x.name)), x.value) ==
            if 0 <= LengthOf(x) <= 0xFFFF_FFFF_FFFF_FFF9 then Sets(f, LengthOf(x)) else Refused
  {
    hide Lowered, LengthFrom, IsNum;
  }

  lemma ConnectionAdds(f: Flags, n: nat, x: Line)
    requires (Lowered(x.name) == "connection" || Lowered(x.name) == "proxy-connection") && x.value != "" && IsLine(x)
    ensures EffectOf(f, n, MeaningOf(Lowered(x.name)), x.value) == Sets(Adds(f, x), n)
  {
    hide Lowered, Trimmed, Effective, Elements, WithOptions, NoBreak;
    ValueUnbroken(x);
    ElementsUnbroken(x.value);
    OptionsAdd(f, Effective(Elements(x.value)));
  }

  lemma OtherAdds(f: Flags, n: nat, x: Line)
    requires IsLine(x) && x.value != ""
    requires MeaningOf(Lowered(x.name)) != Means(ContentLength) && MeaningOf(Lowered(x.name)) != Means(Connection)
    ensures EffectOf(f, n, MeaningOf(Lowered(x.name)), x.value) == Sets(Adds(f, x), n)
  {
    hide Lowered, Trimmed, Spells, NoBreak;
    ValueUnbroken(x);
    SpellsExact("chunked", x.value);
  }

  lemma ValueUnbroken(x: Line)
    requires IsLine(x)
    ensures NoBreak(x.value)
  {
  }

  // ---- a block ----

  predicate Any(xs: seq<Line>, has: Line -> bool) {
    exists i :: 0 <= i < |xs| && has(xs[i])
  }

  lemma AnyFirst(xs: seq<Line>, has: Line -> bool)
    ensures Any(xs, has) <==> xs != [] && (has(xs[0]) || Any(xs[1..], has))
  {
    if xs != [] && Any(xs[1..], has) {
      var i :| 0 <= i < |xs| - 1 && has(xs[1..][i]);
      assert xs[i + 1] == xs[1..][i];
    }
    if Any(xs, has) {
      var i :| 0 <= i < |xs| && has(xs[i]);
      if i > 0 { assert xs[1..][i - 1] == xs[i]; }
    }
  }

  const UPGRADES: Line -> bool := x => AsksUpgrade(x)
  const CHUNKS: Line -> bool := x => SaysChunked(x)
  const CLOSES: Line -> bool := x => HasOption(x, "close")
  const KEEPS: Line -> bool := x => HasOption(x, "keep-alive")
  const SWITCHES: Line -> bool := x => HasOption(x, "upgrade")
  const BAD_LENGTH: Line -> bool := x => SaysLength(x) && !(0 <= LengthOf(x) <= 0xFFFF_FFFF_FFFF_FFF9)

  /** The number of the last Content-Length line. */
  function LastLength(n: int, xs: seq<Line>): int
    decreases |xs|
  {
    if xs == [] then n else LastLength(if SaysLength(xs[0]) then LengthOf(xs[0]) else n, xs[1..])
  }

  /** What the lines add together. */
  function BlockAdds(f: Flags, xs: seq<Line>): Flags {
    f.(upgrade := f.upgrade || Any(xs, UPGRADES), chunked := f.chunked || Any(xs, CHUNKS),
       close := f.close || Any(xs, CLOSES), keepAlive := f.keepAlive || Any(xs, KEEPS),
       connectionUpgrade := f.connectionUpgrade || Any(xs, SWITCHES))
  }

  lemma AddsFirst(f: Flags, xs: seq<Line>)
    ensures BlockAdds(f, xs) == if xs == [] then f else BlockAdds(Adds(f, xs[0]), xs[1..])
  {
    hide Any, AsksUpgrade, SaysChunked, HasOption;
    AnyFirst(xs, UPGRADES);
    AnyFirst(xs, CHUNKS);
    AnyFirst(xs, CLOSES);
    AnyFirst(xs, KEEPS);
    AnyFirst(xs, SWITCHES);
  }

  /** A block is refused exactly when one of its content lengths is none. Else each flag is set exactly when one of the
      lines sets it, and the last content length counts. */
  lemma {:induction false} BlockSets(f: Flags, n: nat, xs: seq<Line>)
    requires AreLines(xs)
    ensures var k := LastLength(n, xs);
            if Any(xs, BAD_LENGTH) then LinesEffect(f, n, xs).Refused?
            else k >= 0 && LinesEffect(f, n, xs) == Sets(BlockAdds(f, xs), k)
    decreases |xs|
  {
    hide Any, IsLine, EffectOf, MeaningOf, Lowered, Adds, SaysLength, LengthOf, BlockAdds;
    AddsFirst(f, xs);
    AnyFirst(xs, BAD_LENGTH);
    if xs != [] {
      var x := xs[0];
      LineAdds(f, n, x);
      LengthLine(f, x);
      if SaysLength(x) {
        if !BAD_LENGTH(x) { BlockSets(f, LengthOf(x), xs[1..]); }
      } else {
        BlockSets(Adds(f, x), n, xs[1..]);
      }
    }
  }

  /** A Content-Length line sets no flag. */
  lemma LengthLine(f: Flags, x: Line)
    ensures SaysLength(x) ==> x.value != "" && Adds(f, x) == f
  {
    hide Lowered, Trimmed, Effective, Elements;
  }
}
