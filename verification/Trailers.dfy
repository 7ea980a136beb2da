/** Chunked bodies with trailer fields. */
module Trailers {
  import opened ParserTypes
  import opened Stream
  import opened Bodies
  import opened Chunked
  import opened Names
  import opened Values
  import opened ConnectionLists
  import opened HeaderLines

  /** A whole chunked body: the chunks, the last chunk, the trailer lines and the empty line. */
  function EncodeWith(xs: seq<Piece>, last: Piece, lines: seq<Line>): string {
    EncodeAll(xs) + (last.size + last.ext + CRLF + (LinesText(lines) + CRLF))
  }

  /** The parser after the last chunk's size line. */
  function Trailing(p: Parser): Parser {
    p.(contentLength := 0, flags := p.flags.(trailing := true), state := Name(FieldStart))
  }

  /** The parser inverts the chunked coding with trailers: the chunks are reported, then the last chunk, then the
      trailer fields, which set flags and content_length like any header line, then its end, and the message is
      complete on the last byte; or a trailer that is no content length is refused. */
  lemma DecodesWith(c: Core, xs: seq<Piece>, last: Piece, lines: seq<Line>, rest: string, skip: Skip)
    requires c.p.state == Chunk(SizeStart) && IsLast(last) && AreLines(lines)
    requires forall i :: 0 <= i < |xs| ==> IsPiece(xs[i])
    ensures var effect := LinesEffect(Trailing(c.p).flags, 0, lines);
            var q := LinesRead(Trailing(c.p), lines);
            var t := LinesSeen(Push(SeenAll(c.seen, xs), Note(OnChunkHeader, 0)), lines);
            var run := Feed(c, EncodeWith(xs, last, lines) + rest, skip);
            if effect.Refused? then RefusesLength(run)
            else
              && run == NextMessage(q, Push(t, Note(OnChunkComplete, q.contentLength)), rest, skip)
              && SetBy(Trailing(c.p), q, effect)
  {
    hide Feed, Reads, Push, NextMessage, IsPiece, IsLast, EncodeAll, SeenAll, LinesText, LinesRead, LinesSeen,
      LinesEffect, RefusesLength, AreLines;
    var c1 := Core(if xs == [] then c.p else c.p.(contentLength := 0), SeenAll(c.seen, xs));
    ReadsAll(c, xs, skip);
    LastHead(c1, last, skip);
    var c2 := Core(Trailing(c.p), Push(c1.seen, Note(OnChunkHeader, 0)));
    ReadsMore(c, EncodeAll(xs), c1, last.size + last.ext + CRLF, c2, skip);
    var tail := LinesText(lines) + (CRLF + rest);
    ReadsThen(c, EncodeAll(xs) + (last.size + last.ext + CRLF), c2, tail, skip);
    assert EncodeWith(xs, last, lines) + rest == EncodeAll(xs) + (last.size + last.ext + CRLF) + tail;
    HeaderBlock(c2, lines, CRLF + rest, skip);
    if LinesEffect(c2.p.flags, 0, lines).Sets? {
      LinesKeep(c2.p.flags, c2.p.contentLength, lines);
      BlankLine(Core(LinesRead(c2.p, lines), LinesSeen(c2.seen, lines)), rest, skip);
    }
  }

  /** A header line touches neither F_TRAILING nor F_SKIPBODY, and does not clear F_CHUNKED. */
  predicate Kept(f: Flags, g: Flags) {
    g.trailing == f.trailing && g.skipBody == f.skipBody && (f.chunked ==> g.chunked)
  }

  lemma EffectKeeps(f: Flags, n: nat, m: Meaning, v: string)
    ensures var e := EffectOf(f, n, m, v); e.Sets? ==> Kept(f, e.flags)
  {
    hide Effective, Elements, LengthFrom, Spells, WithOptions;
    OptionsKeep(f, Effective(Elements(v)));
  }

  lemma {:induction false} LinesKeep(f: Flags, n: nat, lines: seq<Line>)
    ensures var e := LinesEffect(f, n, lines); e.Sets? ==> Kept(f, e.flags)
    decreases |lines|
  {
    if lines != [] {
      hide Lowered, MeaningOf, EffectOf;
      var m, v := MeaningOf(Lowered(lines[0].name)), lines[0].value;
      EffectKeeps(f, n, m, v);
      match EffectOf(f, n, m, v)
      case Refused =>
      case Sets(f', n') => LinesKeep(f', n', lines[1..]);
    }
  }

  lemma {:induction false} OptionsKeep(f: Flags, es: seq<string>)
    ensures Kept(f, WithOptions(f, es))
    decreases |es|
  {
    hide OptionOf;
    if es != [] { OptionsKeep(WithOption(f, OptionOf(es[0])), es[1..]); }
  }
}
