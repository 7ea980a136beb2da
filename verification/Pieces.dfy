/** The header count over several calls, one for each piece of the input. */
module Pieces {
  import opened ParserTypes
  import opened Machine
  import opened Stream
  import opened Count

  function Join(pieces: seq<string>): string {
    if pieces == [] then "" else pieces[0] + Join(pieces[1..])
  }

  /** The count after a call on `d`. */
  function CallEnd(n: nat, c: Core, d: string, skip: Skip): nat {
    Plain(n, c, d, skip) + Extra(EndsInText(false, c, d, skip))
  }

  /** The largest count during a call on `d`. */
  function CallPeak(n: nat, c: Core, d: string, skip: Skip): nat {
    Max(Peak(n, c, d, skip), CallEnd(n, c, d, skip))
  }

  function PiecesEnd(n: nat, c: Core, pieces: seq<string>, skip: Skip): nat
    decreases |pieces|
  {
    if pieces == [] then n
    else PiecesEnd(CallEnd(n, c, pieces[0], skip), Feed(c, pieces[0], skip).c, pieces[1..], skip)
  }

  function PiecesPeak(n: nat, c: Core, pieces: seq<string>, skip: Skip): nat
    decreases |pieces|
  {
    if pieces == [] then n
    else
      Max(CallPeak(n, c, pieces[0], skip),
          PiecesPeak(CallEnd(n, c, pieces[0], skip), Feed(c, pieces[0], skip).c, pieces[1..], skip))
  }

  /** The count is set back to 0 on the way through `d`. */
  predicate Resets(c: Core, d: string, skip: Skip)
    decreases |d|, Rank(c.p.state)
  {
    d != [] &&
    (|| (ResetsCount(c.p.state) && d[0] == '\n')
     || match Dispatch(c.p, d[0]).next
        case Eat => Resets(Apply(c, d[0], skip), d[1..], skip)
        case Redo => RankFalls(c.p, d[0]); Resets(Apply(c, d[0], skip), d, skip)
        case _ => false)
  }

  /** The calls since the count was last set back that ended inside a name or value, when there were `e` before. */
  function Overcount(e: nat, c: Core, pieces: seq<string>, skip: Skip): nat
    decreases |pieces|
  {
    if pieces == [] then e
    else
      var kept := if Resets(c, pieces[0], skip) then 0 else e;
      Overcount(kept + Extra(EndsInText(false, c, pieces[0], skip)), Feed(c, pieces[0], skip).c, pieces[1..], skip)
  }

  /** An error in the count lasts until it is set back. */
  lemma {:induction false} PlainShift(k: nat, e: nat, c: Core, d: string, skip: Skip)
    ensures Plain(k + e, c, d, skip) == Plain(k, c, d, skip) + if Resets(c, d, skip) then 0 else e
    decreases |d|, Rank(c.p.state), 1
  {
    hide Dispatch, Apply, PlainByte, Feed;
    if d != [] { PlainByteShift(if ParsingHeader(c.p.state) then k + 1 else k, e, c, d, skip); }
  }

  lemma {:induction false} PlainByteShift(k: nat, e: nat, c: Core, d: string, skip: Skip)
    requires d != []
    ensures PlainByte(k + e, c, d, skip) == PlainByte(k, c, d, skip) + if Resets(c, d, skip) then 0 else e
    decreases |d|, Rank(c.p.state), 0
  {
    hide Dispatch, Apply, Plain, Feed;
    var e' := if ResetsCount(c.p.state) && d[0] == '\n' then 0 else e;
    var k' := CountAfter(c.p.state, d[0], k);
    match Dispatch(c.p, d[0]).next
    case Eat => PlainShift(k', e', Apply(c, d[0], skip), d[1..], skip);
    case Redo =>
      RankFalls(c.p, d[0]);
      ApplyState(c, d[0], skip);
      PlainByteShift(k', e', Apply(c, d[0], skip), d, skip);
    case _ =>
  }

  lemma FirstDrains(c: Core, a: string, b: string, skip: Skip)
    requires Feed(c, a + b, skip).why.Drained?
    ensures Feed(c, a, skip).why.Drained? && Feed(c, a + b, skip) == Feed(Feed(c, a, skip).c, b, skip)
  {
    hide Feed;
    FeedAppend(c, a, b, skip);
  }

  /** After calls on all the pieces the count is the true number of header bytes, and one more for each call
      since the last reset that ended inside a name or value. */
  lemma {:induction false} PiecesEndExact(k: nat, e: nat, c: Core, pieces: seq<string>, skip: Skip)
    requires Feed(c, Join(pieces), skip).why.Drained?
    ensures PiecesEnd(k + e, c, pieces, skip) == Plain(k, c, Join(pieces), skip) + Overcount(e, c, pieces, skip)
    decreases |pieces|
  {
    hide Feed, Plain, Resets, EndsInText;
    if pieces == [] {
      assert Plain(k, c, "", skip) == k by { PlainNothing(k, c, skip); }
    } else {
      var d, rest := pieces[0], Join(pieces[1..]);
      FirstDrains(c, d, rest, skip);
      PlainShift(k, e, c, d, skip);
      PlainAppend(k, c, d, rest, skip);
      var kept := if Resets(c, d, skip) then 0 else e;
      PiecesEndExact(Plain(k, c, d, skip), kept + Extra(EndsInText(false, c, d, skip)), Feed(c, d, skip).c,
        pieces[1..], skip);
    }
  }

  lemma PlainNothing(k: nat, c: Core, skip: Skip)
    ensures Plain(k, c, "", skip) == Peak(k, c, "", skip) == k
  {
  }

  /** The largest count over all calls is at least the longest header block, and larger by at most one for each
      call. */
  lemma {:induction false} PiecesPeakBounds(k: nat, e: nat, c: Core, pieces: seq<string>, skip: Skip)
    requires Feed(c, Join(pieces), skip).why.Drained?
    ensures Peak(k, c, Join(pieces), skip) <= PiecesPeak(k + e, c, pieces, skip)
         <= Peak(k, c, Join(pieces), skip) + e + |pieces|
    decreases |pieces|
  {
    hide Feed, Plain, Resets, EndsInText, Peak;
    if pieces == [] {
      PlainNothing(k, c, skip);
    } else {
      var d, rest := pieces[0], Join(pieces[1..]);
      FirstDrains(c, d, rest, skip);
      var c1, k1 := Feed(c, d, skip).c, Plain(k, c, d, skip);
      PlainShift(k, e, c, d, skip);
      PeakShift(k, e, c, d, skip);
      PeakAppend(k, c, d, rest, skip);
      AtLeast(k1, c1, rest, skip);
      var kept := if Resets(c, d, skip) then 0 else e;
      PiecesPeakBounds(k1, kept + Extra(EndsInText(false, c, d, skip)), c1, pieces[1..], skip);
    }
  }

  /** Two bytes of a header name, three bytes from the limit, are accepted in one call and refused in two. */
  lemma CutExample(c: Core, skip: Skip)
    requires c.p.state == Name(FieldText) && c.p.hstate.General?
    ensures PiecesPeak(HTTP_MAX_HEADER_SIZE - 3, c, ["ab"], skip) == HTTP_MAX_HEADER_SIZE
    ensures PiecesPeak(HTTP_MAX_HEADER_SIZE - 3, c, ["a", "b"], skip) == HTTP_MAX_HEADER_SIZE + 1
  {
    hide Feed, Plain, Peak, EndsInText;
    var n := HTTP_MAX_HEADER_SIZE - 3;
    var c1 := Feed(c, "a", skip).c;
    TextRun(n, false, c, "ab", skip);
    TextRun(n, false, c, "a", skip);
    TextRun(n + 2, false, c1, "b", skip);
    assert ["ab"][1..] == [] && ["a", "b"][1..] == ["b"] && ["b"][1..] == [];
    assert PiecesPeak(n + 2, c1, ["b"], skip) == HTTP_MAX_HEADER_SIZE + 1;
  }

  /** The run through `d` is never inside a name or value. */
  predicate Textless(c: Core, d: string, skip: Skip)
    decreases |d|, Rank(c.p.state)
  {
    && !LoopsOverText(c.p.state)
    && (d != [] ==>
          match Dispatch(c.p, d[0]).next
          case Eat => Textless(Apply(c, d[0], skip), d[1..], skip)
          case Redo => RankFalls(c.p, d[0]); Textless(Apply(c, d[0], skip), d, skip)
          case _ => true)
  }

  lemma {:induction false} TextlessEnds(c: Core, d: string, skip: Skip)
    requires Textless(c, d, skip)
    ensures !EndsInText(false, c, d, skip)
    ensures d != [] ==> !EndsByte(c, d, skip)
    decreases |d|, Rank(c.p.state)
  {
    hide Dispatch, Apply;
    if d != [] {
      match Dispatch(c.p, d[0]).next
      case Eat => TextlessEnds(Apply(c, d[0], skip), d[1..], skip);
      case Redo =>
        RankFalls(c.p, d[0]);
        ApplyState(c, d[0], skip);
        TextlessEnds(Apply(c, d[0], skip), d, skip);
      case _ =>
    }
  }

  lemma {:induction false} TextlessAppend(c: Core, a: string, b: string, skip: Skip)
    requires Feed(c, a, skip).why.Drained?
    ensures Textless(c, a + b, skip) <==> Textless(c, a, skip) && Textless(Feed(c, a, skip).c, b, skip)
    decreases |a|, Rank(c.p.state)
  {
    hide Dispatch, Apply;
    if a == [] {
      assert a + b == b;
    } else {
      assert (a + b)[0] == a[0] && (a + b)[1..] == a[1..] + b;
      match Dispatch(c.p, a[0]).next
      case Eat => TextlessAppend(Apply(c, a[0], skip), a[1..], b, skip);
      case Redo =>
        RankFalls(c.p, a[0]);
        ApplyState(c, a[0], skip);
        TextlessAppend(Apply(c, a[0], skip), a, b, skip);
      case _ =>
    }
  }

  /** Without names and values the cuts do not matter to the count. */
  lemma {:induction false} TextlessPieces(n: nat, c: Core, pieces: seq<string>, skip: Skip)
    requires Feed(c, Join(pieces), skip).why.Drained? && Textless(c, Join(pieces), skip)
    ensures PiecesPeak(n, c, pieces, skip) == Peak(n, c, Join(pieces), skip)
    decreases |pieces|
  {
    hide Feed, Plain, Peak, Textless, EndsInText;
    if pieces == [] {
      PlainNothing(n, c, skip);
    } else {
      var d, rest := pieces[0], Join(pieces[1..]);
      FirstDrains(c, d, rest, skip);
      TextlessAppend(c, d, rest, skip);
      TextlessEnds(c, d, skip);
      PeakAppend(n, c, d, rest, skip);
      PlainBelowPeak(n, c, d, skip);
      TextlessPieces(Plain(n, c, d, skip), Feed(c, d, skip).c, pieces[1..], skip);
    }
  }
}
