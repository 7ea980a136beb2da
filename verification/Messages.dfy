/** Whole bodies through the mutable parser: whatever the cuts, the callbacks get the body that was sent. */
module Messages {
  import opened ParserTypes
  import opened Machine
  import opened Stream
  import opened Invariant
  import opened Bulk
  import opened Count
  import opened Pieces
  import opened Passes
  import opened HttpParserObject
  import opened Bodies
  import opened Chunked
  import opened ChunkCount
  import Clients

  /** The callbacks of a chunked body, up to the end of the message. */
  function ChunkedHistory(t: History, xs: seq<Piece>): History {
    Push(Push(Push(SeenAll(t, xs), Note(OnChunkHeader, 0)), Note(OnChunkComplete, 0)), Note(OnMessageComplete, 0))
  }

  /** A chunked body in any pieces is accepted exactly when every size line is within the header limit. Then the
      callbacks get, for each chunk, its chunk_header, its data and its chunk_complete, the same without data for the
      last chunk, and one message_complete; and the parser is before the next message. */
  method ReceiveChunks(parser: HttpParser, app: Application, pieces: seq<string>, ghost xs: seq<Piece>,
    ghost last: Piece)
    returns (ok: bool)
    requires Clients.Idle(parser, app) && app.Willing()
    requires parser.fields.state == Chunk(SizeStart) && !parser.fields.upgrade
    requires forall i :: 0 <= i < |pieces| ==> pieces[i] != []
    requires IsLast(last) && (forall i :: 0 <= i < |xs| ==> IsPiece(xs[i])) && Join(pieces) == Encode(xs, last)
    modifies parser, app
    ensures ok <==> LinesFit(xs, last)
    ensures if ok then
              var q := old(parser.fields).(contentLength := 0, flags := old(parser.fields).flags.(trailing := true));
              && Merged(app.signals) == ChunkedHistory(old(Merged(app.signals)), xs)
              && parser.fields == q.(state := Lead(NewMessage(q)))
            else parser.fields.errno.HpeHeaderOverflow?
    ensures ok ==> Collected(OnBody, Merged(app.signals)) == old(Collected(OnBody, Merged(app.signals))) + Payload(xs)
  {
    hide Feed, Ready, IsLast, IsPiece, Encode, SeenAll, Payload, Collected, Push, LinesFit, Textless, NewMessage,
      Peak, Plain;
    ghost var c := Clients.At(parser, app);
    ChunksDrain(c, xs, last, app.Skips());
    ChunksFit(c, pieces, xs, last, app.Skips());
    PayloadKept(c.seen, xs);
    ok := Clients.ExecutePieces(parser, app, pieces);
  }

  lemma ChunksDrain(c: Core, xs: seq<Piece>, last: Piece, skip: Skip)
    requires c.p.state == Chunk(SizeStart) && !c.p.upgrade && IsLast(last)
    requires forall i :: 0 <= i < |xs| ==> IsPiece(xs[i])
    ensures var q := c.p.(contentLength := 0, flags := c.p.flags.(trailing := true));
            Reads(c, Encode(xs, last), skip, Core(q.(state := Lead(NewMessage(q))), ChunkedHistory(c.seen, xs)))
  {
    hide IsLast, IsPiece, Encode, SeenAll, Feed, Push, NewMessage;
    var d := Encode(xs, last);
    assert d + "" == d;
    Decodes(c, xs, last, "", skip);
    var q := c.p.(contentLength := 0, flags := c.p.flags.(trailing := true));
    Completed(q, Push(Push(SeenAll(c.seen, xs), Note(OnChunkHeader, 0)), Note(OnChunkComplete, 0)), skip);
  }

  lemma ChunksFit(c: Core, pieces: seq<string>, xs: seq<Piece>, last: Piece, skip: Skip)
    requires c.p.state == Chunk(SizeStart) && !c.p.upgrade && IsLast(last)
    requires (forall i :: 0 <= i < |xs| ==> IsPiece(xs[i])) && Join(pieces) == Encode(xs, last)
    requires Feed(c, Join(pieces), skip).why.Drained?
    ensures PiecesPeak(0, c, pieces, skip) <= HTTP_MAX_HEADER_SIZE <==> LinesFit(xs, last)
  {
    hide IsLast, IsPiece, Encode, Feed, Textless, Peak, PiecesPeak, LineLength;
    EncodeCounts(c, xs, last, skip);
    TextlessPieces(0, c, pieces, skip);
    LongestFits(xs);
  }

  lemma PayloadKept(t: History, xs: seq<Piece>)
    ensures Collected(OnBody, ChunkedHistory(t, xs)) == Collected(OnBody, t) + Payload(xs)
  {
    hide SeenAll, Payload, Collected, Push;
    PayloadSeen(t, xs);
    var t1 := SeenAll(t, xs);
    var t2 := Push(t1, Note(OnChunkHeader, 0));
    CollectedPush(OnBody, t1, Note(OnChunkHeader, 0));
    CollectedPush(OnBody, t2, Note(OnChunkComplete, 0));
    CollectedPush(OnBody, Push(t2, Note(OnChunkComplete, 0)), Note(OnMessageComplete, 0));
  }

  /** The end of a message at the end of the data. */
  lemma Completed(p: Parser, t: History, skip: Skip)
    requires !p.upgrade
    ensures NextMessage(p, t, "", skip) ==
            Outcome(Core(p.(state := Lead(NewMessage(p))), Push(t, Note(OnMessageComplete, p.contentLength))), "",
              Drained)
  {
  }

  /** A body of announced length in any pieces is always accepted: on_body gets exactly its bytes, as one text once
      merged, and there is one message_complete. */
  method ReceiveSized(parser: HttpParser, app: Application, pieces: seq<string>)
    requires Clients.Idle(parser, app) && app.Willing()
    requires parser.fields.state == State.Body(Identity) && !parser.fields.upgrade
    requires forall i :: 0 <= i < |pieces| ==> pieces[i] != []
    requires |Join(pieces)| == parser.fields.contentLength
    modifies parser, app
    ensures Merged(app.signals) == Push(Push(old(Merged(app.signals)), Text(OnBody, Join(pieces))),
            Note(OnMessageComplete, 0))
    ensures var q := old(parser.fields).(contentLength := 0); parser.fields == q.(state := Lead(NewMessage(q)))
  {
    hide Feed, Ready, Push, NewMessage, PiecesPeak, Plain;
    ghost var c := Clients.At(parser, app);
    assert Inv(c.p) by { ReadyInv(c); }
    SizedDrains(c, Join(pieces), app.Skips());
    SizedPeak(parser.nread, c, pieces, app.Skips());
    var _ := Clients.ExecutePieces(parser, app, pieces);
  }

  lemma ReadyInv(c: Core)
    requires Ready(c, false)
    ensures Inv(c.p)
  {
    hide Inv;
  }

  lemma SizedDrains(c: Core, d: string, skip: Skip)
    requires c.p.state == State.Body(Identity) && !c.p.upgrade && Inv(c.p) && |d| == c.p.contentLength
    ensures var q := c.p.(contentLength := 0);
            Reads(c, d, skip, Core(q.(state := Lead(NewMessage(q))),
              Push(Push(c.seen, Text(OnBody, d)), Note(OnMessageComplete, 0))))
  {
    hide Feed, Inv, Push, NewMessage;
    IdentityBody(c, d, skip);
    assert d[..|d|] == d && d[|d|..] == "";
    Completed(c.p.(contentLength := 0), Push(c.seen, Text(OnBody, d)), skip);
  }

  /** A body of announced length is not counted. */
  lemma {:induction false} SizedPeak(n: nat, c: Core, pieces: seq<string>, skip: Skip)
    requires c.p.state == State.Body(Identity) && !c.p.upgrade && 0 < c.p.contentLength && n <= HTTP_MAX_HEADER_SIZE
    requires |Join(pieces)| == c.p.contentLength && forall i :: 0 <= i < |pieces| ==> pieces[i] != []
    ensures PiecesPeak(n, c, pieces, skip) <= HTTP_MAX_HEADER_SIZE
    decreases |pieces|
  {
    hide Feed, Counts, Plain, Peak, EndsInText, Push;
    var d, rest := pieces[0], pieces[1..];
    CountsExact(n, false, c, d, skip);
    if |d| < c.p.contentLength {
      PartCounts(n, c, d, skip);
      IdentityPart(c, d, skip);
      SizedPeak(n, Core(c.p.(contentLength := c.p.contentLength - |d|), Appended(c.seen, OnBody, d)), rest, skip);
    } else {
      WholeCounts(n, c, d, skip);
      NothingJoined(rest);
    }
  }

  lemma NothingJoined(pieces: seq<string>)
    requires forall i :: 0 <= i < |pieces| ==> pieces[i] != []
    ensures Join(pieces) == "" ==> pieces == []
  {
  }

  lemma PartCounts(n: nat, c: Core, d: string, skip: Skip)
    requires c.p.state == State.Body(Identity) && |d| < c.p.contentLength && n <= HTTP_MAX_HEADER_SIZE
    ensures Counts(n, false, c, d, skip) == Within(n)
  {
    hide Dispatch, Push;
    CountedCounts(n, c, d, |d|, skip);
    assert d[|d|..] == "";
  }

  lemma WholeCounts(n: nat, c: Core, d: string, skip: Skip)
    requires c.p.state == State.Body(Identity) && !c.p.upgrade && 0 < |d| == c.p.contentLength
             && n <= HTTP_MAX_HEADER_SIZE
    ensures Counts(n, false, c, d, skip) == Within(n)
  {
    hide Dispatch, Push, Counts;
    CountedCounts(n, c, d, |d| - 1, skip);
    assert d[|d| - 1..] == [d[|d| - 1]];
    LastCounts(n, Core(c.p.(contentLength := 1), Appended(c.seen, OnBody, d[..|d| - 1])), d[|d| - 1], skip);
  }

  /** The last byte of a body, read and looked at again. */
  lemma LastCounts(n: nat, c: Core, ch: char, skip: Skip)
    requires c.p.state == State.Body(Identity) && c.p.contentLength == 1 && !c.p.upgrade && n <= HTTP_MAX_HEADER_SIZE
    ensures Counts(n, false, c, [ch], skip) == Within(n)
  {
    hide Push, LeadByte, ResponseByte, MethodByte, UrlByte, RequestByte, NameByte, DiscardByte, ValueByte, EndByte,
      ChunkByte, NewMessage;
    var c1 := Apply(c, ch, skip);
    assert c1.p == c.p.(contentLength := 0, state := State.Body(MessageDone));
    var c2 := Apply(c1, ch, skip);
    assert [ch][1..] == "";
    assert CountsByte(n, c1, [ch], skip) == Counts(n, false, c2, "", skip);
    assert CountsByte(n, c, [ch], skip) == CountsByte(n, c1, [ch], skip);
  }
}
