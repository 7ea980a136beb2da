/** The parser object's fields, the callbacks it signals and the trace they leave. */
module ParserTypes {

  /** The limits.h constant, also the "no Content-Length" sentinel. */
  const ULLONG_MAX: nat := 0xFFFF_FFFF_FFFF_FFFF
  const HTTP_MAX_HEADER_SIZE: nat := 80 * 1024

  /** The enum `http_parser_type`. */
  datatype Kind = HttpRequest | HttpResponse | HttpBoth

  /** The enum `http_method`. */
  datatype Method =
    | Delete | Get | Head | Post | Put | Connect | Options | Trace | Copy | Lock | MkCol | Move | PropFind
    | PropPatch | Search | Unlock | Report | MkActivity | Checkout | Merge | MSearch | Notify | Subscribe
    | Unsubscribe | Patch | Purge | MkCalendar

  /** The table method_strings. */
  function MethodString(m: Method): (s: string)
    ensures 3 <= |s| <= 11
  {
    match m
    case Delete => "DELETE"
    case Get => "GET"
    case Head => "HEAD"
    case Post => "POST"
    case Put => "PUT"
    case Connect => "CONNECT"
    case Options => "OPTIONS"
    case Trace => "TRACE"
    case Copy => "COPY"
    case Lock => "LOCK"
    case MkCol => "MKCOL"
    case Move => "MOVE"
    case PropFind => "PROPFIND"
    case PropPatch => "PROPPATCH"
    case Search => "SEARCH"
    case Unlock => "UNLOCK"
    case Report => "REPORT"
    case MkActivity => "MKACTIVITY"
    case Checkout => "CHECKOUT"
    case Merge => "MERGE"
    case MSearch => "M-SEARCH"
    case Notify => "NOTIFY"
    case Subscribe => "SUBSCRIBE"
    case Unsubscribe => "UNSUBSCRIBE"
    case Patch => "PATCH"
    case Purge => "PURGE"
    case MkCalendar => "MKCALENDAR"
  }

  /** The bit set `flags`. */
  datatype Flags = Flags(
    chunked: bool,
    keepAlive: bool,
    close: bool,
    connectionUpgrade: bool,
    trailing: bool,
    upgrade: bool,
    skipBody: bool)

  const NO_FLAGS := Flags(false, false, false, false, false, false, false)

  // The enum `state`, by its groups.

  /** s_dead, s_start_req_or_res, s_res_or_resp_H, s_start_res, s_start_req */
  datatype LeadState = Dead | StartReqOrRes | ResOrRespH | StartRes | StartReq

  /** s_res_H up to s_res_line_almost_done */
  datatype ResponseState =
    | ResH | ResHT | ResHTT | ResHTTP | ResFirstMajor | ResMajor | ResFirstMinor | ResMinor
    | ResFirstStatusCode | ResStatusCode | ResStatusStart | ResStatus | ResLineAlmostDone

  /** s_req_spaces_before_url (UrlStart), s_req_schema up to s_req_fragment, and the s_dead that
      parse_url_char returns */
  datatype UrlState =
    | UrlDead | UrlStart | Schema | SchemaSlash | SchemaSlashSlash | ServerStart | Server | ServerWithAt
    | Path | QueryStart | Query | FragmentStart | Fragment

  /** s_req_http_start up to s_req_line_almost_done */
  datatype RequestState =
    | ReqHttpStart | ReqH | ReqHT | ReqHTT | ReqHTTP | ReqFirstMajor | ReqMajor | ReqFirstMinor | ReqMinor
    | ReqLineAlmostDone

  /** s_header_field_start, s_header_field */
  datatype NameState = FieldStart | FieldText

  /** s_header_value_discard_ws, .._ws_almost_done, .._lws */
  datatype DiscardState = DiscardWs | DiscardWsAlmostDone | DiscardLws

  /** s_header_value_start, s_header_value, s_header_almost_done, s_header_value_lws */
  datatype ValueState = ValueStart | ValueText | ValueAlmostDone | ValueLws

  /** s_headers_almost_done, s_headers_done */
  datatype EndState = HeadersAlmostDone | HeadersDone

  /** s_chunk_size_start up to s_chunk_size_almost_done, s_chunk_data up to s_chunk_data_done */
  datatype ChunkState =
    | SizeStart | Size | SizeParameters | SizeAlmostDone | ChunkData | ChunkDataAlmostDone | ChunkDataDone

  /** s_body_identity, s_body_identity_eof, s_message_done */
  datatype BodyState = Identity | IdentityEof | MessageDone

  datatype State =
    | Lead(lead: LeadState)
    | Response(res: ResponseState)
    | ReqMethod
    | Url(url: UrlState)
    | Request(req: RequestState)
    | Name(name: NameState)
    | Discard(discard: DiscardState)
    | Value(value: ValueState)
    | End(end: EndState)
    | Chunk(chunk: ChunkState)
    | Body(body: BodyState)

  /** PARSING_HEADER: every state that the enum places up to s_headers_done. */
  predicate ParsingHeader(s: State) {
    !s.Body? && !(s.Chunk? && (s.chunk.ChunkData? || s.chunk.ChunkDataAlmostDone? || s.chunk.ChunkDataDone?))
  }

  // The enum `header_states`, by its groups.

  /** h_C up to h_matching_upgrade: a name that may still become a known one */
  datatype Naming =
    | NameC | NameCO | NameCON | NameConnection | NameProxyConnection | NameContentLength
    | NameTransferEncoding | NameUpgrade

  /** h_connection up to h_upgrade: a known name */
  datatype Header = Connection | ContentLength | TransferEncoding | Upgrade

  /** h_matching_transfer_encoding_chunked up to h_matching_connection_token */
  datatype Valuing = MatchChunked | TokenStart | MatchKeepAlive | MatchClose | MatchUpgrade | AnyToken

  /** h_transfer_encoding_chunked up to h_connection_upgrade: a known value */
  datatype Option = Chunked | KeepAlive | Close | ConnectionUpgrade

  datatype HState =
    | General
    | Naming(naming: Naming)
    | Named(header: Header)
    | Valuing(valuing: Valuing)
    | Valued(option: Option)

  /** The callback slots of http_parser_settings. */
  datatype Hook =
    | OnMessageBegin | OnUrl | OnStatus | OnHeaderField | OnHeaderValue | OnHeadersComplete | OnBody
    | OnMessageComplete | OnChunkHeader | OnChunkComplete

  /** The errno values that the parser itself can set. */
  datatype Errno =
    | HpeOk
    | HpeCallback(hook: Hook)
    | HpeInvalidEofState | HpeHeaderOverflow | HpeClosedConnection | HpeInvalidVersion | HpeInvalidStatus
    | HpeInvalidMethod | HpeInvalidUrl | HpeLfExpected | HpeInvalidHeaderToken | HpeInvalidContentLength
    | HpeInvalidChunkSize | HpeInvalidConstant | HpeStrict | HpePaused

  /** Every field of struct http_parser except `nread` and the opaque `data`. */
  datatype Parser = Parser(
    kind: Kind,
    flags: Flags,
    state: State,
    hstate: HState,
    index: nat,
    contentLength: nat,
    httpMajor: nat,
    httpMinor: nat,
    statusCode: nat,
    httpMethod: Method,
    errno: Errno,
    upgrade: bool)

  /** One callback: a data callback with its text, or a notification with the content_length the
      callback can read from the parser (the chunk size, for on_chunk_header). */
  datatype Event = Text(hook: Hook, text: string) | Note(hook: Hook, length: nat)

  /** A history of callbacks, the latest last. */
  datatype History = Nothing | Then(past: History, last: Event)

  /** Appends a callback to a history in which adjacent texts of the same hook are merged. */
  function Push(t: History, e: Event): History {
    if e.Text? && Ends(t, e.hook) then Then(t.past, Text(e.hook, t.last.text + e.text)) else Then(t, e)
  }

  predicate Ends(t: History, h: Hook) {
    t.Then? && t.last.Text? && t.last.hook == h
  }

  /** The history of callbacks with adjacent texts of the same hook merged. */
  function Merged(raw: History): History {
    match raw
    case Nothing => Nothing
    case Then(past, e) => Push(Merged(past), e)
  }

  lemma PushText(t: History, h: Hook, a: string, b: string)
    ensures Push(Push(t, Text(h, a)), Text(h, b)) == Push(t, Text(h, a + b))
  {
    if Ends(t, h) {
      assert t.last.text + a + b == t.last.text + (a + b);
    }
  }

  lemma PushEnds(t: History, h: Hook, s: string)
    ensures Ends(Push(t, Text(h, s)), h)
  {
  }

  lemma PushNothing(t: History, h: Hook)
    requires Ends(t, h)
    ensures Push(t, Text(h, "")) == t
  {
    assert t.last.text + "" == t.last.text;
  }

  /** Reports a piece of text, when there is one. */
  function Appended(t: History, h: Hook, s: string): History {
    if s == "" then t else Push(t, Text(h, s))
  }

  lemma AppendedMore(t: History, h: Hook, s: string, ch: char)
    ensures Appended(Push(t, Text(h, [ch])), h, s) == Push(t, Text(h, [ch] + s))
  {
    if s != "" { PushText(t, h, [ch], s); } else { assert [ch] + s == [ch]; }
  }
}
