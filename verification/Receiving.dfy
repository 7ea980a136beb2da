/** Whole messages through the mutable parser. */
module Receiving {
  import opened ParserTypes
  import opened Machine
  import opened Stream
  import opened Invariant
  import opened Count
  import opened Pieces
  import opened Passes
  import opened HttpParserObject
  import opened Bodies
  import opened StartLines
  import opened WholeMessages
  import opened HeadCounts
  import opened KeepAlive
  import Clients
  import Messages

  /** A whole message in any pieces: the callbacks get its parts, texts merged, and the parser is where the message
      leaves it; or some call has counted too many header bytes. It does so if the head is longer than the header
      limit, and only if the message, with one byte for each piece, is. */
  method Receive(parser: HttpParser, app: Application, pieces: seq<string>, ghost x: Message) returns (ok: bool)
    requires Clients.Idle(parser, app) && app.Willing() && IsMessage(x) && AwaitsStart(parser.fields, x.start)
    requires Acceptable(Clients.At(parser, app), x, app.Skips()) && !LeavesHttp(x)
    requires Join(pieces) == MessageText(x) && forall i :: 0 <= i < |pieces| ==> pieces[i] != []
    modifies parser, app
    ensures ok <==> old(PiecesPeak(parser.nread, Clients.At(parser, app), pieces, app.Skips())) <= HTTP_MAX_HEADER_SIZE
    ensures old(parser.nread) + |MessageText(x)| + |pieces| <= 81920 ==> ok
    ensures ok ==> old(parser.nread) + |HeadText(x)| <= 81920
    ensures if ok then
              && Merged(app.signals) == old(MessageSeen(Clients.At(parser, app), x, app.Skips()))
              && parser.fields ==
                 old(MessageEnded(ContentRead(HeadRead(Clients.At(parser, app), x, app.Skips()).p, x.content)))
            else parser.fields.errno.HpeHeaderOverflow?
  {
    hide Feed, Ready, HeadRead, IsMessage, Acceptable, HeadEffect, MessageText, HeadText, PiecesPeak, Count.Plain,
      AwaitsStart, ContentRead, MessageSeen, NewMessage, Inv, LeavesHttp;
    ghost var c := Clients.At(parser, app);
    assert Inv(c.p) by { Messages.ReadyInv(c); }
    ReceiveFacts(parser.nread, c, pieces, x, app.Skips());
    ok := Clients.ExecutePieces(parser, app, pieces);
  }

  lemma ReceiveFacts(n: nat, c: Core, pieces: seq<string>, x: Message, skip: Skip)
    requires IsMessage(x) && AwaitsStart(c.p, x.start) && Inv(c.p) && Acceptable(c, x, skip) && !LeavesHttp(x)
    requires Join(pieces) == MessageText(x)
    ensures Feed(c, Join(pieces), skip) ==
            Outcome(Core(MessageEnded(ContentRead(HeadRead(c, x, skip).p, x.content)), MessageSeen(c, x, skip)), "",
              Drained)
    ensures n + |HeadText(x)| <= PiecesPeak(n, c, pieces, skip) <= n + |MessageText(x)| + |pieces|
  {
    hide Feed, HeadRead, IsMessage, Acceptable, HeadEffect, MessageText, HeadText, PiecesPeak, Count.Plain, AwaitsStart,
      ContentRead, MessageSeen, NewMessage, Inv, LeavesHttp, Peak;
    AcceptableSets(c, x, skip);
    MessageDrains(c, x, skip);
    PiecesPeakBounds(n, 0, c, pieces, skip);
    PeakShort(n, c, Join(pieces), skip);
    MessagePeak(n, c, x, skip);
  }
}
