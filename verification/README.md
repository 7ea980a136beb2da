# A verified model of the HTTP parser, its URL splitter and the DNS name expander

The project models the three parsers that do the hard work of this packet dumper, and proves what they promise.

**The streaming HTTP parser** (`src/dissectors/http/http-parser.c`). `Machine.Dispatch` is the switch of
`http_parser_execute` as a pure function: the fields after one pass over one byte, whether the byte is field text,
which callback it triggers, and whether the byte is consumed, looked at again, an error or the upgrade exit.
`Stream.Feed` runs it strictly one byte at a time with callbacks that never stop it; this is the reference machine. Its
history of callbacks keeps adjacent pieces of text of one callback merged.
`HttpParserObject.HttpParser` is the mutable parser as the source has it: the main loop with `goto reexecute`, the marks
that live inside one call, the inner loops over names and values, the `memchr` skip with its window, the jumps over
bodies, the header counter, and callbacks that may fail, pause the parser or ask to skip the body. Its `Execute` is
proved to agree with the reference machine in every case: success, the upgrade exit, a stop by a callback (reading on from
the returned byte gives the reference run), a parse error (same fields, same byte, and at most the open text unreported)
and the header overflow (where the count of the source, its own loops included, passes the limit, and only there).

On top of that stand results about whole runs. Printing a message and parsing it, in any pieces, gives its parts back
(`WholeMessages`, with the first lines in `StartLines`; `Receiving` for the mutable parser), and what it leaves behind is
told from the message alone: whether another message may follow, the connection is at its end, or HTTP is left
(`KeepAlive`). Any input cut into any pieces, and runs with any pauses, end like
the one-byte run, whether that ends in success, in an error or in an upgrade (`Clients`, `Upgrades`), and the header count
of any cut is known exactly (`Count`, `Pieces`, for heads `HeadCounts`). What is refused, where and with which errno, is
told place by place (`Refusals`), over byte classes listed as in the standards (`Alphabets`). The invariant behind the source's assertions holds on every run
(`Invariant`). The callbacks come in order (`Grammar`), and for any sequence of calls it is known exactly when they do not
(`Sessions`, `SessionExample`). Bodies are framed by length and by chunks (`Bodies`, `Chunked`, with trailer fields
`Trailers`), also through the mutable parser in any pieces, with the header limit decided (`ChunkCount`, `Messages`). A
header line, and a block of them, sets what its name and value mean to the parser (`Names`, `Values`, `ConnectionLists`,
`HeaderLines`), a block sets what its lines say (`HeadFlags`), and printed numbers are read as what they were
(`Numerals`); exactly when that is what a Connection line, or a folded line, should mean is proved in `ConnectionOptions`
and `Folds`. There remain the method matcher (`Methods`), the request target (`Target`), and the dissector that runs the
parser twice (`Dissector`).

**The URL splitter** (same file). `UrlLayout` and `UrlHost` cut a URL at its delimiters, without any automaton.
`UrlParser.HttpParserUrl` has the two loops of the source and is proved to accept exactly the URLs whose parts are legal, and to
set exactly the fields of those parts. `UrlPrint` and `UrlRoundTrip` say what that means: fields in order and disjoint,
nothing lost but delimiters, and printing followed by splitting gives every component back. `UrlConnect` says exactly which
targets of CONNECT are accepted, and which of them are a host and a port.

**dn_expand** (`src/dissectors/dns/dns.c`). `Dns.DnExpand` works on a message and an output array as the source does, and
succeeds exactly when the walk over labels and pointers ends within the counted steps and the text fits. `DnsNames` proves the
counter sound by a pigeonhole argument, that cycles fail, and that expanding inverts encoding; `DnsText` that the text, cut
at its dots, is the labels, and that every name of at most 255 octets fits.

## How the model is built

- A byte is a `char` below 256 in the HTTP modules and an `Octet` in the DNS modules. Numbers are unbounded; the 64-bit
  `content_length` is proved never to exceed its bounds, so its arithmetic never wraps.
- The struct's fields, except `nread`, are one record in one field, `fields`: the reference machine works on the same
  record. The states are grouped as the enum groups them.
- The five mark variables are one `Mark`: `Cursor.DispatchTidy` proves that the text read in a state is always that of a
  single callback, and that a mark is gone before another can be set.
- `Application` stands for the settings: the installed callbacks and what they answer. They decide from the history of
  signals; whether `on_headers_complete` returns 1 depends on the merged history, so that it is a property of the message and
  not of how the input was cut.
- `HTTP_PARSER_STRICT` is 1 (`includes/dissectors/http/http-parser.h:51-53`) and `HTTP_MAX_HEADER_SIZE` is 80 KiB.

## Where the code is not what one would expect

- A Connection element that is a proper prefix of an option, right before a comma, swallows the comma and the next element:
  "clo,close" does not close the connection (`ConnectionOptions.StickyExample`). The first element after a comma that does
  not start with a token byte ends the list: an empty one, or one with a tab before it, as in "x,\tclose"
  (`ConnectionOptions.LeadingTabExample`), because the test for a tab (`src/dissectors/http/http-parser.c:1621`) looks at a
  byte whose bit 5 is set. A tab after an option hides it: "close\t" (`ConnectionOptions.TrailingTabExample`). A NUL before
  an option after a comma is skipped like a space. `ConnectionOptions.ConnectionExact` says, for every value, exactly when a
  line sets what its elements mean, spaces and tabs around them aside.
- A line break before a response signals on_message_begin, one for each break and once more for the response
  (`src/dissectors/http/http-parser.c:749-770`): `KeepAlive.BreaksBeforeResponse`. Before a request it signals nothing.
- A version whose minor number is 0, and so HTTP/2.0 like HTTP/1.0, closes the connection unless it says keep-alive
  (`src/dissectors/http/http-parser.c:2114-2126`): `KeepAlive.MessageEnds`.
- A continuation line makes the parser forget what the value so far was about to set: "chunked", folded before a line of one
  space, is not chunked (`Folds.FoldExample`). `Folds.FoldExact` says, for every header, exactly when a folded line sets
  what the same text on one line sets.
- A CONNECT target should be "hostname:port" only (`src/dissectors/http/http-parser.c:2385`), but "a:1?" and "@a:1" are
  accepted: `UrlConnect.ConnectTargets`, `UrlConnect.ConnectExact` and `UrlConnect.ConnectExample`.
- `dn_expand`'s counter does cut off names whose items overlap: `DnsNames.CounterCutsOverlaps`.
- The end of the connection completes a body that is read until then, but leaves the parser in the middle of that body. A
  further call completes it again, or adds to it: `Sessions.CallAgain`, and `SessionExample.ToldTwice` on
  "HTTP/1.1 200\n\n". `Sessions.Session` proves that this is the only way to get callbacks out of order.
- A header name or value that runs into the end of a call is counted once too often: `Count.CountsExact`,
  `Count.OvercountExample`. A long header block may so be refused in two pieces and accepted in one
  (`Pieces.CutExample`); `Clients.ExecutePieces` says exactly when. A pause counts the byte again that the call looked at,
  and a pause on the CR after a value loses the count of that value's bytes in the call, since the source returns before it
  counts them (`src/dissectors/http/http-parser.c:1525-1530` and 1697).

## Model

| member | source | states |
|---|---|---|
| HttpParserObject.HttpParser.Execute | src/dissectors/http/http-parser.c:626-2084 | A call agrees with the reference run of its data: on HPE_OK it has read everything or up to the upgrade, with the same fields, merged callbacks and count; after a pausing or failing callback, reading on from the returned byte gives the reference run, with the header blocks that are left and at most one byte counted twice; a parse error has the reference error, fields and position, with only open text unreported; a header overflow comes exactly where the count, taken as the source takes it, passes the limit, with the fields and at the byte reached there. The parser is paused, or has failed on a callback, exactly because the last callback it ran did so. A failed parser is left alone, and a call on no data is spelled out in every state. Every call keeps the parser valid, and every call but one on no data in a body read until EOF keeps the callbacks in order |
| HttpParserObject.HttpParser.ExecuteData | src/dissectors/http/http-parser.c:664-2084 | The same for a non-empty piece: the main loop keeps what is read, marked and counted on the way to the reference run |
| HttpParserObject.HttpParser.Turn | src/dissectors/http/http-parser.c:693-700 | One turn of the main loop counts its byte and re-executes until a break or a return; the rank of the state falls on every re-execution, and the count is 1 where a chunk size starts |
| HttpParserObject.HttpParser.Pass | src/dissectors/http/http-parser.c:699-2052 | Every branch of the switch, single passes, inner loops and jumps alike, ends at a byte from which the reference run goes on |
| HttpParserObject.HttpParser.Step | src/dissectors/http/http-parser.c:80-152 | A pass sets the mark, runs its callback on the marked text and returns at the byte after or at the byte itself, as the callback macros do |
| HttpParserObject.HttpParser.Callback | src/dissectors/http/http-parser.c:80-133 | A callback that pauses sets HPE_PAUSED, and one that fails the errno of its hook, and both change nothing else; the answer 1 of on_headers_complete sets F_SKIPBODY and is no error |
| HttpParserObject.HttpParser.CountHeader | src/dissectors/http/http-parser.c:154-161 | The count grows by n, and the call fails exactly when it passes HTTP_MAX_HEADER_SIZE |
| HttpParserObject.HttpParser.NameLoop | src/dissectors/http/http-parser.c:1316-1443 | The inner loop over a name reads what single steps read, counts its bytes at once, and ends on the byte that is no token |
| HttpParserObject.HttpParser.GeneralSkip | src/dissectors/http/http-parser.c:1546-1565 | The skip over a general value reads what single steps read, or the call overflows at the end of the data |
| HttpParserObject.HttpParser.ValueScan | src/dissectors/http/http-parser.c:1518-1693 | The inner loop over a value, with the skip over general values, reads what single steps read up to the line break, or the header is too long in any case |
| HttpParserObject.HttpParser.ValueReturn | src/dissectors/http/http-parser.c:1525-1530 | A CR is read and reported before the bytes of the value are counted |
| HttpParserObject.HttpParser.ValueLoop | src/dissectors/http/http-parser.c:1518-1702 | With the line break, and the count of the value's bytes |
| HttpParserObject.Memchr | src/dissectors/http/http-parser.c:1550-1551 | The first occurrence of a byte in a window, or that there is none |
| HttpParserObject.SkipValue | src/dissectors/http/http-parser.c:1546-1565 | The skip ends at the first line break or the end of the data; if the window misses a break, more than HTTP_MAX_HEADER_SIZE bytes are skipped |
| HttpParserObject.HttpParser.IdentityBody | src/dissectors/http/http-parser.c:1875-1909 | The jump over a body of known length reads what single steps read, and the last byte is looked at again |
| HttpParserObject.HttpParser.ChunkBody | src/dissectors/http/http-parser.c:2008-2029 | The jump over chunk data reads what single steps read |
| HttpParserObject.HttpParser.EofBody | src/dissectors/http/http-parser.c:1912-1916 | The jump to the end of the data reads what single steps read |
| HttpParserObject.HttpParser.SetPaused | src/dissectors/http/http-parser.c:2405-2417 | Pausing and unpausing switch the errno between HPE_PAUSED and HPE_OK and do nothing to a failed parser |
| HttpParserObject.HttpParser.constructor | src/dissectors/http/http-parser.c:2137-2146 | A new parser has cleared fields, the start state of its type, and is ready |
| Clients.ExecutePieces | src/dissectors/http/http-parser.c:626-2084 | Input fed in any non-empty pieces is refused with a header overflow exactly when the count of some call passes the limit; otherwise it ends with the fields and merged callbacks of the whole run, and nread is the number of header bytes plus the number of calls since the last reset that ended inside a name or value |
| Clients.ExecuteAll | src/dissectors/http/http-parser.c:626-2084 | Any input whatsoever, fed in any non-empty pieces until the parser fails or leaves HTTP, ends like the reference run of the whole: the same fields, at the same byte, with the same end, be it an error, an upgrade or the end of the input, and the same merged callbacks, but for text that is open at an error; or some call's count passes the limit |
| Clients.ExecuteThroughPauses | src/dissectors/http/http-parser.c:80-133 | Whatever callbacks pause, unpausing and going on from the returned byte terminates, and ends with the fields and merged callbacks of the unpaused run, unless a callback fails, or a header block and the calls since the count was last set back, and one more, are together longer than the limit |
| Clients.AnyCut | src/dissectors/http/http-parser.c:626-2084 | Two parsers in the same state, one fed in one call and one in pieces, both get through exactly when the counts of both stay within the limit, and then they end with equal fields and equal merged callbacks |
| Upgrades.FeedFits | src/dissectors/http/http-parser.c:1834-1843 | A run ends in an upgrade exactly as a message completes with the upgrade flag set, so that a client can tell it from a run that has read everything |
| Stream.FeedAppend | src/dissectors/http/http-parser.c:693-2052 | The reference machine does not depend on where the input is cut |
| Stream.RankFalls | src/dissectors/http/http-parser.c:66-67 | Every goto reexecute leads to a state of lower rank |
| Cursor.DispatchTidy | src/dissectors/http/http-parser.c:2055-2074 | A pass goes on with the open text, opens one when there is none, or reports it before it closes: at most one mark is ever set, and errors signal nothing |
| Cursor.PassSeen | src/dissectors/http/http-parser.c:99-144 | The callbacks run so far, with the text under the mark, are the callbacks of the reference machine |
| Invariant.DispatchKeeps | src/dissectors/http/http-parser.c:693-2052 | Every pass keeps the invariant: bounds on content_length by state, F_CHUNKED in chunk states, the word matchers inside their words and in step with the state, the type decided, version and status below 1000 |
| Invariant.FeedKeeps | src/dissectors/http/http-parser.c:693-2052 | The invariant holds wherever a run stops other than on an error |
| Invariant.AssertionsHold | src/dissectors/http/http-parser.c:1880-1881 | On every run: F_CHUNKED in chunk states, a length that is neither 0 nor the sentinel in counted bodies, 0 after chunk data, and no header state outside the listed ones |
| Refusals.RefusedExact | src/dissectors/http/http-parser.c:702-2052 | At every place of a message exactly the bytes listed for it may stand, and any other is refused with the errno of the place; but a method, a target and a content length, which have results of their own |
| Refusals.ResultErrno | src/dissectors/http/http-parser.c:986-1597 | In a method, a target and a content length the errno names the place, too |
| Refusals.BadMethod | src/dissectors/http/http-parser.c:945-984 | A letter that starts no method is refused with HPE_INVALID_METHOD, and leaves method 0 and index 1 |
| Refusals.RefusedRun | src/dissectors/http/http-parser.c:2055-2084 | A refused byte ends the run: it is left unread, and nothing more is signalled |
| Refusals.SpacesSkipped | src/dissectors/http/http-parser.c:861-875 | More than one space before a target, a protocol or a status code is as good as one |
| Alphabets.TokenExact | src/dissectors/http/http-parser.c:183-221 | The table `tokens` holds exactly the token bytes of section 3.2.6 of RFC 7230, with the letters in lower case |
| Alphabets.UnhexExact | src/dissectors/http/http-parser.c:224-233 | The table `unhex` gives a hexadecimal digit, small or capital, its place among the sixteen, and any other byte -1 |
| Alphabets.HexExact | src/dissectors/http/http-parser.c:414 | IS_HEX holds of the same sixteen digits, small or capital |
| Alphabets.LowerExact | src/dissectors/http/http-parser.c:410 | LOWER sets bit 5 of a byte: it makes lower case of letters, and a letter of nothing else |
| Alphabets.NumExact | src/dissectors/http/http-parser.c:412 | IS_NUM holds of the ten digits |
| Alphabets.UserinfoExact | src/dissectors/http/http-parser.c:415-420 | IS_USERINFO_CHAR holds of letters, digits, the marks of RFC 2396 and nine more bytes |
| Alphabets.HostExact | src/dissectors/http/http-parser.c:427 | IS_HOST_CHAR holds of letters, digits, '.' and '-' |
| Alphabets.UrlExact | src/dissectors/http/http-parser.c:243-276 | IS_URL_CHAR holds of every visible byte but '#' and '?' |
| Passes.WindowOver | src/dissectors/http/http-parser.c:1550-1564 | A general value without a line break in a window of HTTP_MAX_HEADER_SIZE bytes that does not reach the end of the data makes the header too long |
| Passes.CountedGoal | src/dissectors/http/http-parser.c:1889-1890 | A jump of k body bytes is k single steps, for the run and for the header count |
| Passes.SizeStartEntry | src/dissectors/http/http-parser.c:1927-1930 | A chunk size starts only after the LF that sets nread back to 0 |
| Count.CountsExact | src/dissectors/http/http-parser.c:154-161 | The count of a call is the true number of header bytes, and one more exactly when the last byte was read inside a name or value; the call overflows exactly when that, or the longest header block on the way, is over the limit |
| Count.OvercountExample | src/dissectors/http/http-parser.c:1428-1433 | Five bytes inside a header name, up to the end of the call, are counted as six |
| Count.PlainAppend | src/dissectors/http/http-parser.c:1428-1433 | The true number of header bytes does not depend on the cuts |
| Count.PeakAppend | src/dissectors/http/http-parser.c:696-697 | Neither does the length of the longest header block |
| Pieces.PiecesEndExact | src/dissectors/http/http-parser.c:1428-1433 | Over any pieces the overcounts add up, one for each call that ends inside a name or value, and a reset of nread forgets them |
| Pieces.PiecesPeakBounds | src/dissectors/http/http-parser.c:154-161 | The largest count of any call on the pieces is between the longest header block and that plus one for each piece |
| Pieces.CutExample | src/dissectors/http/http-parser.c:1428-1433 | Two bytes of a name, three bytes from the limit, are accepted in one call and refused in two |
| Grammar.PhaseMerged | src/dissectors/http/http-parser.c:106-128 | Cutting texts into pieces does not change where a history is in the order of callbacks |
| Grammar.DispatchFits | src/dissectors/http/http-parser.c:699-2052 | No pass signals a callback that is out of order for the state the parser is in |
| Grammar.FeedInOrder | src/dissectors/http/http-parser.c:702-2045 | The callbacks of every run, whatever the bytes, follow message_begin, url or status, fields and values in turn, headers_complete, then body or chunks with trailers, then message_complete; a request has one message_begin |
| Grammar.DeadIsSilent | src/dissectors/http/http-parser.c:702-710 | In s_dead no byte signals anything, and the parser stays there |
| Grammar.LastMessage | src/dissectors/http/http-parser.c:1918-1925 | A completion that kills the parser ends the signals of the connection; KeepAlive.LastMessage says which messages do so, and their completion by the end of the connection is Sessions.TellEnd |
| KeepAlive.MessageEnds | src/dissectors/http/http-parser.c:2089-2126 | After a printed message that has been read, the parser awaits the next start line if and only if both numbers of the version are positive and no line or trailer says close, or one of them is 0 and one says keep-alive, and the body does not end with the connection; else it is dead |
| KeepAlive.TwoMessages | src/dissectors/http/http-parser.c:448-452 | Two messages of one kind, one after the other, are read as two messages if and only if the connection goes on after the first; else the first byte of the second is refused with HPE_CLOSED_CONNECTION |
| KeepAlive.LastMessage | src/dissectors/http/http-parser.c:1918-1925 | After a printed message that does not keep the connection nothing is signalled any more, whatever follows |
| KeepAlive.UpgradeEnds | src/dissectors/http/http-parser.c:1792-1843 | The run of a message and what follows ends Upgraded with exactly what follows unread if and only if the method's name is CONNECT, or the head has an Upgrade line and the upgrade option |
| KeepAlive.BreaksSkipped | src/dissectors/http/http-parser.c:702-720 | Line breaks before a request, before a first message of either kind, and after the last message are skipped |
| KeepAlive.BreaksBeforeResponse | src/dissectors/http/http-parser.c:749-770 | Line breaks before a response are skipped, and each signals on_message_begin |
| KeepAlive.DeadRefuses | src/dissectors/http/http-parser.c:702-710 | After the last message any other byte is refused with HPE_CLOSED_CONNECTION |
| Sessions.Session | src/dissectors/http/http-parser.c:646-653 | For every sequence of calls and pauses on one parser, the callbacks are in order exactly when no call is accepted after one on no data was accepted in a body read until EOF |
| Sessions.TellEnd | src/dissectors/http/http-parser.c:646-653 | The end of the connection completes the message in order, and leaves the parser alive in the middle of the body it has completed |
| Sessions.CallAgain | src/dissectors/http/http-parser.c:646-653 | After that, any call that is accepted breaks the order: it completes the message again, or delivers its data as more of the completed body |
| SessionExample.ToldTwice | src/dissectors/http/http-parser.c:646-653 | A new parser reads "HTTP/1.1 200\n\n", is told the end, which completes the message in order, and is called again: a second message_complete, or body text, is out of order |
| Bodies.IdentityBody | src/dissectors/http/http-parser.c:1875-1925 | A body of N bytes delivers exactly the next N bytes, completes the message on the N-th, and leaves the next byte to the next message |
| Bodies.IdentityPart | src/dissectors/http/http-parser.c:1875-1892 | A shorter piece of the stream is body as a whole, and the rest of the length is still to come |
| Bodies.LengthFramed | src/dissectors/http/http-parser.c:1829-1925 | For a message framed by Content-Length N > 0, on_body delivers exactly the N bytes after the header block's last LF |
| Bodies.SizeDigits | src/dissectors/http/http-parser.c:1943-1978 | A chunk size is the true value of its digits up to 2^64 - 17 and is refused beyond |
| Chunked.Decodes | src/dissectors/http/http-parser.c:1927-2045 | The parser inverts the chunked coding of section 4.1 of RFC 7230, for sizes in any spelling and with extensions: one chunk_header and chunk_complete for each chunk and the last, then message_complete on the coding's last byte; Trailers.DecodesWith adds trailer fields |
| Numerals.HexNumeral | src/dissectors/http/http-parser.c:1932-1978 | A number printed in base 16 is the size it is read as |
| Numerals.PrintedDecodes | src/dissectors/http/http-parser.c:1927-2045 | Chunks whose sizes are printed in base 16, in small or capital letters, written out as text: each is announced with its size, delivered and ended, and the message is complete on the last byte |
| Numerals.NoSize | src/dissectors/http/http-parser.c:1932-1941 | A size that starts with any other byte is refused with HPE_INVALID_CHUNK_SIZE |
| Numerals.DecimalNumeral | src/dissectors/http/http-parser.c:1484-1597 | A number printed in base 10 is read as itself: as a content length, as a version number or status code, and as a port |
| Numerals.LengthNumeral | src/dissectors/http/http-parser.c:1574-1597 | A Content-Length line with a printed number sets content_length to it up to 2^64 - 7, and is refused beyond |
| Chunked.PayloadSeen | src/dissectors/http/http-parser.c:2008-2037 | The on_body texts of a decoded body are the chunks' data, in order |
| Chunked.ReadsPiece | src/dissectors/http/http-parser.c:1932-2045 | One encoded chunk signals its size, delivers its data, signals its end, and leaves the parser before the next size |
| Trailers.DecodesWith | src/dissectors/http/http-parser.c:1927-2045 | The same with trailer fields of any number after the last chunk: each is reported, and sets flags and content_length like a header line, before the end of the chunk and of the message; or a trailer that is no content length is refused |
| ChunkCount.EncodeCounts | src/dissectors/http/http-parser.c:1927-1930 | The header count over a chunked body is the length of its longest size line with its extension, and no call can overcount in it |
| Messages.ReceiveChunks | src/dissectors/http/http-parser.c:1927-2045 | A chunked body fed in any pieces is accepted exactly when each of its size lines is within the header limit; the merged callbacks are then, for each chunk, its chunk_header, its data and its chunk_complete, those of the last chunk, and one message_complete, and on_body got the chunks' data in order |
| Messages.ReceiveSized | src/dissectors/http/http-parser.c:1875-1925 | A body of announced length fed in any pieces is always accepted, and the merged callbacks are one text with exactly its bytes and one message_complete |
| Names.NameLine | src/dissectors/http/http-parser.c:1266-1443 | A header name is reported whole, and is recognised as one of the five names, in any case of its letters, or as none |
| Names.NameExact | src/dissectors/http/http-parser.c:1266-1443 | A header name, up to its colon, is accepted if and only if each of its bytes is a token byte of section 3.2.6 of RFC 7230; else the first that is none is refused with HPE_INVALID_HEADER_TOKEN |
| Names.KnownNames | src/dissectors/http/http-parser.c:1320-1420 | The five names are tokens in every spelling |
| Values.ValueLine | src/dissectors/http/http-parser.c:1445-1739 | A value of one line, ended by CR LF or LF, is reported whole and leaves the parser at the next line with the flags of its value |
| Values.TransferEncodingFlags | src/dissectors/http/http-parser.c:1475-1608 | A Transfer-Encoding line sets F_CHUNKED exactly when its value, without trailing spaces, is "chunked" in any case |
| Values.SpellsExact | src/dissectors/http/http-parser.c:1573-1608 | A value spells a word, as the matchers compare it, exactly when it is that word in any case of its letters, trailing spaces aside |
| Values.PlainFlags | src/dissectors/http/http-parser.c:1469-1514 | An Upgrade line sets F_UPGRADE, and a line of any unknown name sets nothing |
| Values.ContentLengthLine | src/dissectors/http/http-parser.c:1484-1597 | A Content-Length line gives the true value of its digits, spaces skipped, up to 2^64 - 7, and is refused beyond, or on any other byte |
| ConnectionLists.ConnectionFlags | src/dissectors/http/http-parser.c:1494-1687 | A Connection line, whatever its value, sets exactly the flags of the options that its effective elements name |
| ConnectionLists.ItemsExact | src/dissectors/http/http-parser.c:1659-1673 | The elements that this is stated over are the value cut at its commas |
| ConnectionLists.NothingSkipped | src/dissectors/http/http-parser.c:1610-1657 | Every element is effective if none before the last is a proper prefix of an option, and all after the first start with a token byte |
| ConnectionOptions.ConnectionExact | src/dissectors/http/http-parser.c:1508-1687 | A Connection line, whatever its value, sets exactly what its elements mean, each without the spaces and tabs around it and in any case, if and only if the option of each element that is swallowed, never read or next to a tab is set by another element or an earlier line, and nothing else is read behind a NUL |
| ConnectionOptions.StickyExample | src/dissectors/http/http-parser.c:1640-1647 | "clo,close" sets nothing, and means close |
| ConnectionOptions.LeadingTabExample | src/dissectors/http/http-parser.c:1621-1625 | "x,\tclose" sets nothing, and means close |
| ConnectionOptions.TrailingTabExample | src/dissectors/http/http-parser.c:1669-1687 | "close\t" sets nothing, and means close |
| ConnectionLists.ListEnds | src/dissectors/http/http-parser.c:1610-1627 | Where an element starts with a byte that is no token byte and no blank, a second comma or a tab for instance, nothing of the list is recognised any more |
| HeaderLines.HeaderLine | src/dissectors/http/http-parser.c:1266-1777 | A whole header line: name, colon, any spaces, tabs and folds, a value or none, CR LF or LF. Name and value are reported without the white space between them; F_UPGRADE, F_CHUNKED, the three connection flags and content_length become what the name, in any case, and the value mean; nothing else of the parser changes but its word matchers; or a content length that is none is refused |
| HeaderLines.EmptyValue | src/dissectors/http/http-parser.c:1748-1777 | A line that ends before its value starts reports an empty value and leaves the parser at the next line; that it sets nothing is part of HeaderLine |
| HeaderLines.Continuation | src/dissectors/http/http-parser.c:1704-1739 | A line that starts with a space or tab is reported as more text of the value before it, and drops what that value was about to set, unless that ended in a comma; a content length cannot be continued |
| Folds.FoldedLine | src/dissectors/http/http-parser.c:1266-1739 | A whole header line with a line that continues it reports the two as one value, and sets what FoldedEffect says: nothing for Transfer-Encoding, for Connection the elements before the last one and, where an element was yet to start, those of the second line; and a continued content length is refused |
| Folds.FoldExact | src/dissectors/http/http-parser.c:1712-1739 | A folded header line sets what the same text on one line sets if and only if: for Transfer-Encoding, the text is not "chunked" or chunked is set already; for Connection, every option that the one line sets from the fold's element on is set already, or, where an element was yet to start, the fold is a space or every option behind the tab is set already; for Content-Length, the one line is refused, too; and always for Upgrade and any other name |
| Folds.FoldExample | src/dissectors/http/http-parser.c:1712-1739 | "chunked" folded before a space is not chunked, and on one line is |
| HeaderLines.HeaderBlock | src/dissectors/http/http-parser.c:1266-1777 | A block of header lines reports every line in order, and sets what its lines set one after the other |
| HeadFlags.BlockSets | src/dissectors/http/http-parser.c:1266-1777 | A block of lines is refused exactly when one of its content lengths is none; else each flag is set exactly when one of its lines sets it, told from the line's name and value alone, and the last content length counts |
| HeaderLines.BlockEnds | src/dissectors/http/http-parser.c:1266-1827 | The empty line, CR LF or LF, signals on_headers_complete with the content_length and flags that the block has set; KeepAlive.UpgradeEnds says when it also upgrades; the LF is then looked at for the body |
| StartLines.StartReads | src/dissectors/http/http-parser.c:712-1264 | A request line with a method, a target, a version, or a status line with a version, a code and a reason, ended by CR LF or LF, is accepted exactly when its numbers are at most 999 (a request's major version not starting with 0) and its target is legal; then target or reason are reported whole, and method, version and status_code are those that were sent, the numbers as the values of their digits |
| StartLines.EmptyReason | src/dissectors/http/http-parser.c:907-943 | A space after the status code may end the line |
| WholeMessages.HeadExact | src/dissectors/http/http-parser.c:702-1827 | A start line and a header block are accepted exactly when the start line is and no content length is refused; all of it has then been reported, and the flags and content_length are what the lines set |
| WholeMessages.HeadFacts | src/dissectors/http/http-parser.c:1779-1827 | At the end of a printed head the parser has the flags and the length that its lines set, F_SKIPBODY exactly if on_headers_complete asks for it, the upgrade flag exactly for CONNECT or for an upgrade asked for in both headers, and the version, the type and the status of the start line |
| WholeMessages.MessageRoundTrip | src/dissectors/http/http-parser.c:702-2045 | Printing a whole message and parsing it gives its parts back: start line, header lines, on_headers_complete, the body that the head announces (by length, in chunks with trailers, or none: after a skip, for CONNECT, for length 0, for a request without a length, and for the statuses 1xx, 204 and 304), and one message_complete on the last byte; what follows is left to the next message or, after an upgrade, to the caller |
| WholeMessages.BodyUntilEof | src/dissectors/http/http-parser.c:1829-1916 | After the head of a response that announces no length, where one could follow, everything is body |
| Receiving.Receive | src/dissectors/http/http-parser.c:626-2084 | The same through the mutable parser in any pieces: the exact merged callbacks and fields, unless the count of some call passes the limit, which it does if the head is longer than 81920 bytes, and only if the message and its number of pieces are |
| HeadCounts.HeadPeak | src/dissectors/http/http-parser.c:696-697 | Every byte of a head is counted: its longest header block is the head |
| Methods.MethodExact | src/dissectors/http/http-parser.c:945-1069 | A parser of requests accepts the first word of a request exactly when it is one of 27 listed method names, with that method |
| Methods.MethodExactBoth | src/dissectors/http/http-parser.c:712-747 | So does a parser that does not know yet whether it reads a request or a response, the one the dissector uses, also where HEAD starts like a response |
| Methods.MethodNames | src/dissectors/http/http-parser.c:174-179 | The table method_strings holds exactly the 27 listed names |
| Methods.AcceptsOnlyNames | src/dissectors/http/http-parser.c:986-1069 | The bytes read so far are the start of the method's name, so whatever the in-place matcher accepts is the name of its method |
| Methods.AcceptsName | src/dissectors/http/http-parser.c:996-1064 | The switches between methods lead every name to its method |
| Target.TargetExact | src/dissectors/http/http-parser.c:1071-1142 | A request target, ended by a space, or by CR or LF as in HTTP/0.9, is accepted exactly when the splitter's first pass accepts it and it goes on after "schema://", if it starts with a schema; on_url then delivers it whole |
| Dissector.Handles | src/dissectors/http/http.c:138-154 | A packet is supported exactly when it is well formed and the parser gets through its data without error |
| Dissector.Dump | src/dissectors/http/http.c:160-173 | What is printed is, for an accepted packet, what its reference run signals to on_url, on_status, on_header_field, on_header_value and on_body, and nothing for an empty packet or any other |
| Dissector.Observe | src/dissectors/http/http.c:138-173 | The run without callbacks and the run with printing callbacks end with the same fields, the same errno and the same number of bytes, on any packet |
| UrlLayout.ScanExact | src/dissectors/http/http-parser.c:478-624 | The URL automaton is, at every byte, in the state that belongs to the part the delimiters cut there, and dies exactly on the first illegal byte |
| UrlHost.HostStep | src/dissectors/http/http-parser.c:2168-2232 | The same for each byte of the host automaton |
| UrlHost.HostEndExact | src/dissectors/http/http-parser.c:2290-2303 | The end states are exactly those of an authority with a host, and digits after its colon |
| UrlParser.HttpParserUrl.Scan | src/dissectors/http/http-parser.c:2315-2375 | The first loop fails exactly on an illegal byte, and else sets exactly the non-empty parts with their slices; found_at says whether the authority has an '@' |
| UrlParser.HttpParserUrl.ParseHost | src/dissectors/http/http-parser.c:2233-2304 | The second pass accepts exactly the well-formed authorities, sets user information, host and port to their parts, and touches no other field |
| UrlParser.HttpParserUrl.ParseUrl | src/dissectors/http/http-parser.c:2306-2403 | A URL is accepted exactly when its parts are legal, its authority is well formed, its port is at most 65535, and, for CONNECT, only host and port are there; then a field is set exactly when its part is not empty, to exactly its slice, and port is the decimal value |
| UrlParser.Strtoul | src/dissectors/http/http-parser.c:2390-2392 | The decimal value of the port's digits |
| UrlPrint.InOrder | src/dissectors/http/http-parser.c:2253-2288 | The fields are disjoint and in the order schema, user information, host, port, path, query, fragment |
| UrlPrint.NothingLost | src/dissectors/http/http-parser.c:2319-2383 | Every byte of an accepted URL is in a field or is a delimiter |
| UrlPrint.SchemaHasHost | src/dissectors/http/http-parser.c:2377-2383 | A set schema implies a set host, and the port fits 16 bits |
| UrlRoundTrip.AbsoluteRoundTrip | src/dissectors/http/http-parser.c:2306-2403 | Printing an absolute URL, with user information, a name or bracketed host, a port, a path, a query and a fragment where present, and splitting it gives exactly those components and the port's value |
| UrlRoundTrip.LocalRoundTrip | src/dissectors/http/http-parser.c:2306-2403 | The same for a URL that starts with its path |
| UrlConnect.ConnectRoundTrip | src/dissectors/http/http-parser.c:2306-2403 | The same for the host and port of a CONNECT request |
| UrlConnect.ConnectTargets | src/dissectors/http/http-parser.c:2306-2403 | For CONNECT exactly these are accepted: an authority with a host and a port of at most 65535 and without user information, behind an '@' or not, with a '?' and any number of '#' after it or not |
| UrlConnect.ConnectExact | src/dissectors/http/http-parser.c:2385-2388 | An accepted CONNECT target is a host and a port and nothing else exactly when it has neither '?' nor '@' |
| UrlConnect.ConnectFields | src/dissectors/http/http-parser.c:2385-2388 | An accepted CONNECT target sets exactly host and port |
| UrlConnect.ConnectExample | src/dissectors/http/http-parser.c:2385-2388 | "a:1?" and "@a:1" are accepted for CONNECT |
| Dns.DnExpand | src/dissectors/dns/dns.c:91-120 | Expansion succeeds exactly when the walk ends within the counted steps and the text fits; the output is then the labels joined by dots and a NUL, nothing else of the buffer changes, and the result is the length of the name at src; nothing is ever written past min(space, 254) |
| DnsText.ExpandText | src/dissectors/dns/dns.c:91-120 | Any name is expanded exactly when its walk ends within the counted steps and its text and a NUL fit into the buffer and into 254 bytes; the text, cut at its '.' bytes, is then the labels, if none of them holds a '.', and the NUL follows it |
| DnsText.PiecesExact | src/dissectors/dns/dns.c:108 | Cutting a dotted name at its dots gives the labels back exactly when none of them holds a dot |
| Dns.ReadLabel | src/dissectors/dns/dns.c:108-112 | A label is copied behind a dot, if there is text before it, exactly when it fits into the message and the buffer |
| DnsNames.SpelledExact | src/dissectors/dns/dns.c:99-100 | A name is spelled within the counted steps exactly when its walk ends within them |
| DnsNames.CounterIsSound | src/dissectors/dns/dns.c:99-100 | A name whose labels, pointers and terminator occupy disjoint bytes is never cut off: it is expanded exactly when its text fits |
| DnsNames.CyclesFail | src/dissectors/dns/dns.c:99-119 | A walk that comes back to a byte never ends, and expansion fails |
| DnsNames.CounterCutsOverlaps | src/dissectors/dns/dns.c:99-100 | A message of six bytes whose walk ends after five overlapping items, and is cut off after three |
| DnsNames.EncodeExpands | src/dissectors/dns/dns.c:108-117 | A name encoded as in section 3.1 of RFC 1035 expands to its labels, wherever it stands |
| DnsNames.ChainExpands | src/dissectors/dns/dns.c:99-117 | A name in any number of disjoint parts, each but the last ending in a pointer to the next, as section 4.1.4 of RFC 1035 allows, expands to all their labels, and its length is that of its first part |
| DnsNames.CompressedExpands | src/dissectors/dns/dns.c:100-117 | The common case of one pointer |
| DnsText.ExpandChain | src/dissectors/dns/dns.c:91-120 | The same for an encoded name in any number of disjoint parts, whose labels are then the text between the dots, and whose length is that of its first part |
| DnsText.RoomForNames | src/dissectors/dns/dns.c:93-97 | Every name of at most 255 octets fits, if the buffer has 254 bytes |

## Left out

- HttpParserObject.HttpParser.Execute: the 32-bit wrap-around of nread, which needs nread + len of 2^32 or more; nread is a
  natural number here.
- HttpParserObject.HttpParser.Execute: callbacks that write the parser's private fields; a callback answers, pauses, fails or
  asks to skip the body.
- Clients.ExecuteThroughPauses: the exact header count after a pause, which can be one too high or, on the CR after a value,
  too low; only the bound that overflow needs is proved.
- Clients.ExecuteAll: where a header overflow ends a run in pieces; Execute says it for the call that overflows.
- Folds.FoldExact: several continuation lines of one value; Continuation says what each of them does.
- UrlParser.Strtoul: strtoul reading past the end of a buffer that is not terminated, and its clamping of values over the
  range of unsigned long, which are refused in any case.
- UrlParser.HttpParserUrl.ParseUrl: URLs over 65535 bytes, whose 16-bit offsets the source truncates.
- The lenient mode (HTTP_PARSER_STRICT 0), the version and name-string tables, http_body_is_final and the data pointer.
- RFC rules that the source does not enforce, such as ignoring Content-Length on a 204.
- The printing itself and the packet and session structures around the HTTP dissector.
- The DNS records and dump routines around dn_expand, which print.
- All other dissectors, raw sockets, signals and time: fixed-offset copies and I/O.
- src/utils/inaddr.c: thin wrappers over libc.
