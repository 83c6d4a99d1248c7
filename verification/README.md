# Verification of the api and http libraries

This project models the parts of the two libraries whose correctness is hardest to see, and
proves what they promise.

* **The HTTP/1.x parser** (in strict mode).  `HttpSwitch` is the switch of `http_parser_execute`, one pass
  over one byte, as a case analysis.  `HttpReference` feeds it one byte at a time and merges data deliveries
  of the same kind; it is the reference.  `HttpParser` is `http_parser_execute` itself: a call over a buffer,
  with marks, bodies skipped in bulk, bytes looked at again and early returns; its contract says that it does
  what the reference does.  That no assertion fires is proved in `HttpRun`.  From this follow split invariance
  (`HttpSplit`) and what calls at the end of the input do (`HttpEnds`, `HttpEof`).  Over the reference are proved the
  conservation of bodies and the exactness of lengths (`HttpBody`), the undoing of the chunked coding
  (`HttpChunks`), the recognisers of methods, header names and values (`HttpNames`, `HttpValues`), the parsing
  of first lines and heads in every spelling (`HttpLine`, `HttpHead`), and the parsing of whole requests, streams
  of them, and responses, with trailers, whose ends are where section 4.4 of RFC 2616 puts them (`HttpMessage`).
  That nothing else is accepted is proved for the heads of requests (`HttpAccepted`) and of responses
  (`HttpReplied`) and for chunked bodies (`HttpCoded`), on the header lines that they share (`HttpItems`), and that
  messages end nowhere else (`HttpExact`);
  `HttpRefused` tells with which error a byte is refused.
* **URLs** (`HttpUrl`, `HttpUrlGrammar`, `HttpHostGrammar`, `HttpUrlExact`, `HttpUrlLayout`, `HttpUrlDelivered`):
  `http_parser_parse_url`, the grammars of exactly the URLs and servers that it takes, its result, and that URLs
  delivered by the parser are accepted by its scan.
* **Requests** (`HttpRequest`, `HttpSecond`, `HttpReads`): the callbacks of `http_parse.c` and its growing
  buffer, what they do when the parser goes on into what was read with a head, and the read loop, over any
  bytes; `HttpExamples` has inputs byte for byte.
* **The red-black tree** (`RbShape`, `RbTree`, `RbWalk`): objects with parent pointers.  `RbShape` has trees as
  values, paths to a place in them, and the links that the objects must have; `RbTree` has the operations, and
  `RbWalk` which nodes the walk by `next` comes to.
* **The queue and its signal** (`Mpscq`, `Async`): one step for each access to shared memory, steps in any
  order, history variables for what was pushed and popped.
* **The timer index** (`Timer`, `Requests`): on the tree, with the lists of timers as sequences; `Requests` has what
  the tasks woken by timers ask for, and what becomes of it.
* **The list** (`List`) and **the transfer of a stream** (`Transfer`).

Callbacks of the parser are a log of events; what `on_headers_complete` answers is a function of the
parser's fields.  Reads, clock readings, what woken tasks ask for and how steps interleave are parameters,
and everything is proved for all of them.

Where the code does less than it is for, the project says so, with an input and the exact condition:

* the overflow test of lengths: `HttpBody.WrapMissed`, `HttpBody.WrapAccepted`; exactly `HttpBody.StoredExactly`;
* messages completed twice: `HttpEnds.EndsTwice`, `HttpEnds.BareEndless`; exactly `HttpEnds.OnlyAfterEnd`;
* a response begun several times: exactly `HttpMessage.BegunOnce`;
* a request refused for what was read with its head, its body above all: `HttpExamples.BodyRefused`; exactly
  `HttpReads.HeadParsed`;
* a second request in one read, whose callbacks write through a null pointer or mix the two:
  `HttpExamples.TwoInOneRead`, `HttpExamples.MixedInOneRead`; exactly `HttpSecond.SecondHead`,
  `HttpSecond.MixedRequest` and, on the callbacks, `HttpSecond.NullPointer`;
* the walk over the tree, which passes nodes over, and with them lists of elapsed timers:
  `RbWalk.FirstAndThird`, `Timer.MiddlePassedOver`; exactly `RbTree.RbTree.Next`, `RbWalk.WalkUnique`,
  `RbWalk.AllVisited` and `Timer.SameShapes`;
* the wake-up that a transfer consumes inside a write: `Transfer.MissedWakeup`; exactly `Transfer.WakeupArrives`;
* the total that a transfer reports: `Transfer.OneByteIsTwo`, `Transfer.ThreeBytesAreTwo`,
  `Transfer.PartNotReported`; exactly `Transfer.TotalIsBytes` and `Transfer.FailedTotal`.

## Model

| member | source | states |
|---|---|---|
| HttpParser.HttpParser.Execute | src/http/src/http_parser/http_parser.c:572-1872 | One call: for bytes, the fields, the count returned and the merged callbacks are those of the reference fed byte by byte, but that a call that fails may drop the data collected last; no assertion fires; an empty call is the end of the input; after an error nothing changes; callbacks are only added |
| HttpParser.HttpParser.Look | src/http/src/http_parser/http_parser.c:654-1857 | The passes over one byte: it ends before a later byte with the rest of the call still to come, or with exactly the reference's fields, count and callbacks |
| HttpParser.HttpParser.TakeBody | src/http/src/http_parser/http_parser.c:1671-1712 | All the body bytes present are taken in one step, and what is still to come is what the byte-at-a-time reference has still to come |
| HttpParser.HttpParser.DeliverRest | src/http/src/http_parser/http_parser.c:1844-1862 | At most one mark is left when the bytes run out, and its data is delivered |
| HttpParser.Skip | src/http/src/http_parser/http_parser.c:1689-1712 | Taking n bytes of a body at once equals taking them one by one |
| HttpParser.SkipToEnd | src/http/src/http_parser/http_parser.c:1671-1705 | The whole rest of a fixed-length body at once equals taking its bytes one by one, the last one being looked at again |
| HttpDelivery.NextKeeps | src/http/src/http_parser/http_parser.c:84-116 | Collecting data between a mark and the current byte delivers what the reference, which delivers each byte, has merged |
| HttpDelivery.AgainKeeps | src/http/src/http_parser/http_parser.c:1456-1460 | A pass that looks at its byte again leaves no mark behind |
| HttpMarks.SwitchMarks | src/http/src/http_parser/http_parser.c:654-1842 | In every state the switch sets, flushes and keeps only the mark of that state, and the looks at one byte come to an end |
| HttpRun.SwitchGood | src/http/src/http_parser/http_parser.c:654-1842 | No assertion in the switch fires from a good state, and every pass that goes on leads to a good state: recogniser indices, lengths, counters and chunk flags stay tied to the state |
| HttpReference.RunFine | src/http/src/http_parser/http_parser.c:632-1857 | Over any bytes no assertion of the parser fires |
| HttpReference.RunConcat | src/http/src/http_parser/http_parser.c:632-1842 | The reference is a fold over the bytes |
| HttpSplit.Cut | src/http/src/http_parser/http_parser.c:572-1872 | A call on a and, if it takes all of a, a call on b give fields, error, total count and merged callbacks of a call on a + b; if it ends early, so does the call on a + b, in the same way |
| HttpSplit.CutAnywhere | src/http/src/http_parser/http_parser.c:572-1872 | Split invariance for any number of pieces that are not empty and any start |
| HttpSplit.SameBytesSameCalls | src/http/src/http_parser/http_parser.c:572-1872 | Two ways of cutting the same bytes into pieces that are not empty cannot be told apart |
| HttpSplit.CallsSafe | src/http/src/http_parser/http_parser.c:572-1872 | From a fresh parser, any bytes cut in any way: no assertion fires, no call takes more than it got, and the errno tells exactly whether the run failed |
| HttpBody.BodyConservation | src/http/src/http_parser/http_parser.c:1671-1835 | Over any run of any number of messages, body bytes delivered plus those still owed equal the content lengths and chunk sizes announced |
| HttpBody.CompleteOwesNothing | src/http/src/http_parser/http_parser.c:1640-1717 | message_complete is announced only when no body byte is owed |
| HttpBody.StoredExactly | src/http/src/http_parser/http_parser.c:1474-1497 | A string of digits is accepted and stored as the number it stands for if and only if that number is below 2^64 - 1 |
| HttpBody.DigitExact | src/http/src/http_parser/http_parser.c:1484-1496 | One more digit is added exactly if and only if the number stays below 2^64 - 1 |
| HttpBody.WrapMissed | src/http/src/http_parser/http_parser.c:1489-1493 | The overflow test misses some wraps: 21 and eighteen zeros is accepted and stored as 2553255926290448384 |
| HttpBody.WrapAccepted | src/http/src/http_parser/http_parser.c:1420-1497 | The parser, too, reads these twenty bytes of a Content-Length without an error and stores 2553255926290448384 |
| HttpBody.LengthRun | src/http/src/http_parser/http_parser.c:1420-1427 | Digits of a Content-Length value, fed to the parser: refused, or stored as the digit arithmetic says, with the value delivered whole |
| HttpBody.ContentLengthExact | src/http/src/http_parser/http_parser.c:1474-1497 | The parser accepts a Content-Length value and stores the number it stands for if and only if that is below 2^64 - 1 |
| HttpChunks.ChunkSizeExact | src/http/src/http_parser/http_parser.c:1719-1770 | The same for a chunk size in hexadecimal |
| HttpChunks.ChunkedRoundTrip | src/http/src/http_parser/http_parser.c:1719-1835 | Section 3.6.1 of RFC 2616: any list of chunks, with any spelling of the sizes, any extensions and any headers after the last chunk, is delivered as the concatenation of their data and then those headers, followed by message_complete at the last byte; the headers add to what those of the head say about the connection, and the bytes of the trailer stay counted against the header limit |
| HttpCoded.ExactlyCoded | src/http/src/http_parser/http_parser.c:1719-1835 | The chunked coding, both ways: message_complete is announced at the last of some bytes, and not before, if and only if they are chunks, each with a size as the parser stores it, an extension and as many bytes, a last chunk, and a trailer, of which lines may lack a colon, with at most 81920 bytes in the trailer and in the first line of each chunk |
| HttpChunks.LineStored | src/http/src/http_parser/http_parser.c:1719-1770 | A chunk size below 2^64 - 1 is stored as the number it stands for, however it is written |
| HttpChunks.ChunkRun | src/http/src/http_parser/http_parser.c:1719-1835 | One chunk is delivered as its data and leaves the parser at the next chunk |
| HttpChunks.IdentityBody | src/http/src/http_parser/http_parser.c:1671-1717 | A body of known length is delivered as it is and completes the message with its last byte |
| HttpNames.MethodRecognised | src/http/src/http_parser/http_parser.c:882-1004 | From the start of a request: the bytes before the first space are taken as a method if and only if they are the name of one of the 26 methods, and then that one is recorded |
| HttpNames.EitherMethod | src/http/src/http_parser/http_parser.c:667-702 | The same from the start of a parser of both kinds, where HEAD shares its first letter with the word HTTP of a response, and no status line is taken for a request |
| HttpNames.MethodAccepted | src/http/src/http_parser/http_parser.c:882-1004 | After any beginning of a method's name the parser is on the way to it: the method recorded, the index, the callbacks |
| HttpNames.OtherMethodSpells | src/http/src/http_parser/http_parser.c:945-998 | Where the method recorded is changed, both names agree so far |
| HttpNames.HeaderNameRecognised | src/http/src/http_parser/http_parser.c:1201-1363 | At the colon, for names of any length, the header state is connection, content_length, transfer_encoding or upgrade if and only if the lower-cased name is one of theirs; the name is delivered whole |
| HttpNames.NameStep | src/http/src/http_parser/http_parser.c:1259-1361 | The recogniser's state is at every byte what the name read so far says |
| HttpTypes.TokenTable | src/http/src/http_parser/http_parser.c:145-178 | The token table accepts exactly the tokens of section 2.2 of RFC 2616, and lower-cases them |
| HttpHead.HeadRun | src/http/src/http_parser/http_parser.c:882-1660 | A request head, with empty lines before it, any number of spaces, no version or one of several digits, both ends of lines and values of several lines, leads to message_begin, its URL, its headers in order, headers_complete and, when the callback wants no body or the connection is upgraded, message_complete; it takes all its bytes, records method and version, ends the call if it upgrades the connection, and leaves the parser at a next request if and only if the connection is to be kept |
| HttpHead.NotBefore | src/http/src/http_parser/http_parser.c:1580-1626 | For such heads headers_complete is announced at the last byte, not before |
| HttpAccepted.ExactlyHeads | src/http/src/http_parser/http_parser.c:882-1626 | The grammar of heads, both ways: from the start of a request, the parser announces the end of the headers at the last of some bytes, and not before, if and only if they are a head of at most 81920 bytes, in any of these spellings, with header lines that may also lack a colon and then, after CR LF, go on like values |
| HttpAccepted.RunFollows | src/http/src/http_parser/http_parser.c:882-1626 | Until then, as long as nothing is refused, the bytes are the beginning of such a head, and the parser's state tells which part of it is being read, with the method, the version, the recogniser and the length as read so far |
| HttpAccepted.ColonHead | src/http/src/http_parser/http_parser.c:1201-1578 | Such a head in which every header line has a colon is one of those whose callbacks are told above |
| HttpReplied.ExactlyReplies | src/http/src/http_parser/http_parser.c:704-1626 | The grammar of the heads of responses, both ways: the end of the headers is announced at the last of some bytes, and not before, if and only if they are a status line, after any number of line ends, and header lines, with or without a colon, of at most 81920 bytes |
| HttpReplied.ReplyFollows | src/http/src/http_parser/http_parser.c:704-1626 | Until then, as long as nothing is refused, the bytes are the beginning of such a head, and the parser's state tells which part of it is being read, with the version and the status code as read so far |
| HttpReplied.EitherReply | src/http/src/http_parser/http_parser.c:667-702 | A parser of both kinds reads whatever begins with HT as a parser of responses does, to the last field and callback |
| HttpItems.OneHeader | src/http/src/http_parser/http_parser.c:1201-1626 | One byte of the headers, of a request, a response or a trailer: refused, or one place further in them, or their end, which only a line feed where a line may begin can be |
| HttpHead.HeaderRun | src/http/src/http_parser/http_parser.c:1201-1578 | One header, on one line or several, is delivered as its name and the joined texts of its lines without the blanks before them, and changes the flags and the length as its name and value say |
| HttpHead.ValueRun | src/http/src/http_parser/http_parser.c:1381-1543 | The text of a line is delivered whole, and the recogniser is at its end where the text says |
| HttpHead.AfterTold | src/http/src/http_parser/http_parser.c:1381-1578 | Of a value of several lines only the first is looked at, but for a content length, where the last line before an empty one stays |
| HttpHead.HeadersEnd | src/http/src/http_parser/http_parser.c:1580-1668 | At the end of the headers the callback decides about the parser it is asked with, and then section 4.4 of RFC 2616: by upgrade, that answer, chunked coding, which overrides a length, the length, and whether a response may last until the end of the input |
| HttpValues.NextValueState | src/http/src/http_parser/http_parser.c:1448-1543 | The recogniser of chunked, keep-alive and close is at every byte where the text so far says: the word in any case with nothing but spaces after it, a proper beginning of it, or neither |
| HttpLine.RequestLineRun | src/http/src/http_parser/http_parser.c:882-1199 | A request line is taken and announced with its URL; method and version are recorded, 0.9 if there is none |
| HttpLine.StatusLineRun | src/http/src/http_parser/http_parser.c:704-880 | A status line is taken and its version and code are recorded; each byte of the empty lines before it announces a message, and its end is announced if it is CR LF and not if it is LF |
| HttpMessage.RequestRun | src/http/src/http_parser/http_parser.c:882-1835 | A request, whole: a head and the content that its headers and the callback's answer call for (nothing, also when it upgrades the connection, a body of that length, or chunks with a trailer, whatever the length) lead to the callbacks of the head, the body, the trailer and message_complete, and to a next request if and only if the headers and the trailer together keep the connection |
| HttpMessage.NotCompleteBefore | src/http/src/http_parser/http_parser.c:1580-1835 | message_complete is announced at the last byte of a request, not before |
| HttpMessage.Pipeline | src/http/src/http_parser/http_parser.c:572-1872 | Any number of requests after each other in one stream lead to the callbacks of each, in order, as long as each fits into the header limit together with the trailer of the one before |
| HttpMessage.ReplyRun | src/http/src/http_parser/http_parser.c:704-1918 | A response, whole, by its status code, its headers, its trailer and whether a body is wanted: the same, or a body for as long as there are bytes |
| HttpMessage.BegunOnce | src/http/src/http_parser/http_parser.c:704-730 | message_begin comes once for a response and once more for each byte of the empty lines before it: exactly once if and only if there are none |
| HttpExact.ExactlyRequests | src/http/src/http_parser/http_parser.c:1580-1835 | Where a request ends, both ways: for any head and any bytes after it, message_complete is announced at the last byte, and not before, if and only if the bytes after the head are what its headers, its method and the callback's answer call for: nothing, bytes of that number, or a chunked body |
| HttpExact.ExactlyResponses | src/http/src/http_parser/http_parser.c:1580-1918 | The same for responses, by the status code as well; a body that lasts until the end of the input is completed by no byte |
| HttpEnds.OnlyAfterEnd | src/http/src/http_parser/http_parser.c:572-1872 | Over any calls, with and without bytes: body data after message_complete, or message_complete again for the same message, come if and only if the end of the input was met in a body that lasts until it and another call was made |
| HttpEnds.CompletedOnce | src/http/src/http_parser/http_parser.c:572-1872 | The same from a fresh parser of any kind |
| HttpEnds.EndsTwice | src/http/src/http_parser/http_parser.c:590-605 | Such a run, made on the parser: a response, the end of the input, which completes the message and leaves the state, more bytes, delivered as its body, and the end, which completes it again |
| HttpEnds.BareEndless | src/http/src/http_parser/http_parser.c:590-605 | A status line of version 1.1 and code 200 alone is such a response, byte for byte |
| HttpEnds.Serve | src/http/src/http_parser/http_parser.c:572-1872 | Any calls made on a parser, empty ones too, lead to the fields and the merged callbacks of the specification Session, but for the data that a call that fails may drop |
| HttpEof.EndOfRequests | src/http/src/http_parser/http_parser.c:590-608 | The end of the input on a parser of requests, after any bytes: unless they were refused, it is accepted if and only if every message begun has been completed, with the answer 0 and no error; otherwise the error is HPE_INVALID_EOF_STATE and the answer 1; it adds no callback |
| HttpEof.RequestCutOff | src/http/src/http_parser/http_parser.c:590-608 | A request cut off anywhere, and then the end of the input: HPE_INVALID_EOF_STATE and 1, unless no more than line ends were there or the whole of it; no callback is added |
| HttpEof.ReplyCutOff | src/http/src/http_parser/http_parser.c:590-608 | The same for a response; once the head of one whose body lasts until the end has been read, the end completes it, with one message_complete, 0 and no error |
| HttpRefused.RefusedWith | src/http/src/http_parser/http_parser.c:654-1842 | Which error a refused byte gives: that of the headers being too long, or one of the part of the message in which it stands |
| HttpLine.UrlRun | src/http/src/http_parser/http_parser.c:1006-1077 | A URL that the automaton accepts is delivered whole |
| HttpUrl.Url.Parse | src/http/src/http_parser/http_parser.c:2086-2183 | The record after the call, and the answer, are those of the specification ParseUrl; its error cases are the scan, the host, the shape of CONNECT and the port |
| HttpUrl.Url.ParseHost | src/http/src/http_parser/http_parser.c:2013-2084 | The host is split as the specification HostParsed says, or refused |
| HttpUrl.ScanFollowsWalk | src/http/src/http_parser/http_parser.c:2098-2132 | The scan fails only where the URL automaton dies: the branch for unexpected states is never reached |
| HttpUrlGrammar.TakenExactly | src/http/src/http_parser/http_parser.c:424-570 | The grammar of URLs on the bytes, both ways and for any length: the URL automaton is alive if and only if the bytes begin a URL, which is a path that begins with / or *, or letters, :// and the bytes of a server, without two @ after each other, then a path that begins with /, a query after ?, and after a path or a query any number of # and a fragment; for CONNECT it begins with the server; white space may end it if and only if a server, a path or a ? is there |
| HttpHostGrammar.SplitExactly | src/http/src/http_parser/http_parser.c:1948-2084 | The grammar of servers, both ways: the host is split if and only if the bytes are user information and @, if an @ was found, a name or an address in brackets, and a colon with the digits of a port or neither; the fields set are then where these are |
| HttpUrlExact.ParsedExactly | src/http/src/http_parser/http_parser.c:2086-2183 | At most 65535 bytes are parsed into some fields and a port if and only if they are a URL of the grammar with these fields and this port: a path with what follows it, or a server that is whole after a schema, with a port of 16 bits; for CONNECT a host and a port and nothing else, but that an @ before them and ? and # after them may stand for nothing |
| HttpUrlExact.LineExactly | src/http/src/http_parser/http_parser.c:1006-1077 | A request line may have exactly the URLs of the grammar that white space may end |
| HttpUrlExact.Star | src/http/src/http_parser/http_parser.c:440-446 | An OPTIONS for * is a request line, and * is parsed as a path |
| HttpUrlExact.NameAndPort | src/http/src/http_parser/http_parser.c:1978-1982 | example.com:443 is the target of a CONNECT, parsed into host and port 443 |
| HttpUrlLayout.ParseLaysOut | src/http/src/http_parser/http_parser.c:1948-2183 | On success for at most 65535 bytes: fields are not empty, inside the buffer, in order and apart; every other byte is one of : / ? # @ [ ]; a schema implies a host; the port is the number of its digits and at most 65535; a CONNECT target has a host and a port and nothing else |
| HttpUrlLayout.ScanRecorded | src/http/src/http_parser/http_parser.c:2098-2132 | After every byte of the scan: which fields are recorded in which state of the automaton, and where they lie |
| HttpUrlLayout.HostAllRecorded | src/http/src/http_parser/http_parser.c:2026-2069 | After every byte of the host: where user information, host and port lie |
| HttpUrlDelivered.DeliveredUrlScans | src/http/src/http_parser/http_parser.c:1006-1077 | In any run from the start, a URL that is delivered can be parsed again, as a CONNECT target exactly for the method CONNECT, without the scan failing |
| HttpRequest.Buffer.Concat | src/http/src/http_parse.c:98-134 | The text grows by the bytes given, as a C string; the buffer has always room for the closing NUL: used + 1 <= alloc |
| HttpRequest.Strncpy | src/http/src/http_parse.c:98-134 | Copies up to the first NUL and fills up with NULs, and nothing else of the target changes |
| HttpRequest.Context.AddUrl | src/http/src/http_parse.c:141-148 | The url callback, as its specification OnUrl |
| HttpRequest.Context.AddField | src/http/src/http_parse.c:155-192 | The header field callback: the header before goes to the front of the list; as its specification OnField |
| HttpRequest.Context.AddValue | src/http/src/http_parse.c:194-211 | The header value callback, as its specification OnValue |
| HttpRequest.Context.CompleteHeaders | src/http/src/http_parse.c:213-235 | The headers complete callback, as its specification OnHeadersComplete |
| HttpRequest.HandleMerged | src/http/src/http_parse.c:141-235 | The request built does not depend on how the data was cut into callbacks |
| HttpRequest.SameRequest | src/http/src/http_parse.c:141-235 | Whatever the bytes, two ways of reading them build the same request, or both write through a null pointer |
| HttpSecond.NullPointer | src/http/src/http_parse.c:155-211 | Callbacks write through a null pointer if and only if some header data goes astray: a name after headers that ended with a value, or a value without a name |
| HttpSecond.SecondHead | src/http/src/http_parse.c:363-386 | A second head in the same read as the first makes them do so if and only if the connection lives on after the first, does not change its protocol, and both heads have headers |
| HttpSecond.MixedRequest | src/http/src/http_parse.c:363-386 | Otherwise, two heads in one read: the request has the URL, method and version of the second and the headers of both, unless the first upgrades the connection or closes it, when the parser refuses the second; it stands for the first head if and only if one of these holds or the second has the same URL and no headers |
| HttpSecond.RestRefused | src/http/src/http_parse.c:363-386 | A complete request is refused when the first byte after its head, and after line ends, begins no method or comes after the connection is to be closed: its body, read with the head, as well as anything else |
| HttpSecond.RequestFromAnyCut | src/http/src/http_parse.c:363-386 | End to end, for a head and what was read with it up to the first byte that is no line end, cut in any way: the calls fail if and only if that byte is refused, and the callbacks build the request of the head, its URL and its headers in reverse order, each value joined from its lines; the method recorded is that of the head unless that byte has begun another |
| HttpReads.UrlWhenDone | src/http/src/http_parse.c:141-235 | Whatever the bytes, when the headers are done there is a URL, no null pointer is met before, and the parser does not stop before |
| HttpReads.ReadHead | src/http/src/http_parse.c:363-386 | The read loop, whatever the bytes and the reads: it ends with the first read after which the parser has failed or the headers are done, or when nothing can be read; the error, the null pointer, the request and the bytes put back are what the parser's run over the bytes read says |
| HttpReads.ParseRequest | src/http/src/http_parse.c:333-398 | http_request_parse, whatever the bytes and the reads: the loop, and the second parse of the URL by the method recorded |
| HttpReads.HeadParsed | src/http/src/http_parse.c:363-386 | For a well-formed head and whatever follows it: reading ends with the read that completes the head; the request is refused if the first byte in that read after the head and line ends is refused; if nothing comes after that byte it is refused only then, and otherwise it is the request of the head, with what follows put back if and only if the connection is upgraded |
| HttpReads.StandsUrl | src/http/src/http_parse.c:396-398 | The URL of a request that stands for a head passes the scan of the second parse: with the method of the head it can be refused only for its host, the shape of CONNECT or its port |
| HttpExamples.TwoInOneRead | src/http/src/http_parse.c:155-192 | Two short requests in one read, byte for byte, write through a null pointer |
| HttpExamples.MixedInOneRead | src/http/src/http_parse.c:141-235 | Two others, byte for byte, give the URL of the second with the header of the first |
| HttpExamples.BodyRefused | src/http/src/http_parse.c:363-374 | A POST with its body of one byte in the read that ends its head, byte for byte, is refused |
| RbTree.RbTree.Insert | src/api/src/api_rbtree.c:317-357 | A valid tree stays valid; its in-order sequence is the old one with the node after every element not greater than it and before the greater ones |
| RbTree.RbTree.InsertBal | src/api/src/api_rbtree.c:105-149 | From a tree that is red-black but for a red node under a red parent: a valid one with the same contents; the recursion ends by the distance to the root |
| RbTree.RbTree.Remove | src/api/src/api_rbtree.c:359-436 | A valid tree stays valid; its in-order sequence is the old one without exactly that node, the phantom is nowhere in it, and the node's links are null |
| RbTree.RbTree.RemoveBal | src/api/src/api_rbtree.c:151-224 | From a tree in which every way through the node lacks one black node: a valid one with the same contents, also by the recolouring at 201-207 that is no mirror of 193-200 |
| RbTree.RbTree.BorrowFromNephew | src/api/src/api_rbtree.c:191-223 | The branch with a red nephew restores the rules and keeps the contents |
| RbTree.RbTree.Swap | src/api/src/api_rbtree.c:226-279 | Two nodes exchange their places in all links of all nodes and their colours, also when the second is a child of the first |
| RbTree.RbTree.MoveDown | src/api/src/api_rbtree.c:373-386 | A node with two children is exchanged with its predecessor, also when that is its left child, and has then at most one |
| RbTree.RbTree.Splice | src/api/src/api_rbtree.c:388-414 | The node's only child, or the phantom, stands where it stood |
| RbTree.RbTree.DropPhantom | src/api/src/api_rbtree.c:424-435 | No link to the phantom remains |
| RbTree.RbTree.RotateLeft | src/api/src/api_rbtree.c:55-78 | The shape turned left at a node, in all links, with the same order |
| RbTree.RbTree.RotateRight | src/api/src/api_rbtree.c:80-103 | The shape turned right at a node, in all links, with the same order |
| RbTree.RotatedContents | src/api/src/api_rbtree.c:55-103 | A rotation keeps the in-order sequence and the nodes |
| RbTree.RbTree.Search | src/api/src/api_rbtree.c:438-460 | Finds a node exactly when one of an equal key is in the tree, in at most 2 log2(n + 1) steps |
| RbTree.RbTree.First | src/api/src/api_rbtree.c:304-315 | The first node in order, null for the empty tree |
| RbTree.RbTree.Next | src/api/src/api_rbtree.c:281-302 | The first node of the right subtree, or without one the first of the right sibling's, or null: a node later in the order, the very next one if and only if the node has a right child or is the last |
| RbWalk.WalkUnique | src/api/src/api_rbtree.c:281-315 | The walk from first by next over a tree that stays as it is, is the list WalkOf: the node and the walk of its right subtree if it has no left child, the left child in its place if that has no children, and otherwise the walk of its left subtree alone |
| RbWalk.PassedOver | src/api/src/api_rbtree.c:281-315 | It never comes to a node that has a left child |
| RbWalk.AllVisited | src/api/src/api_rbtree.c:281-315 | It comes to every node if and only if none has a left child |
| RbWalk.AllOfTwo | src/api/src/api_rbtree.c:281-315 | In a red-black tree there are then at most two nodes |
| RbWalk.AtMostFour | src/api/src/api_rbtree.c:281-315 | Over a red-black tree it has at most four nodes, however many there are |
| RbWalk.FirstAndThird | src/api/src/api_rbtree.c:281-315 | Over three nodes it is the first and the third |
| RbShape.HeightBound | src/api/src/api_rbtree.c:438-460 | A tree of height h with n nodes that keeps the rules has n + 1 >= 2^((h+1)/2) |
| RbShape.PlugRedBlack | src/api/src/api_rbtree.c:105-224 | A tree keeps the rules exactly when each part does and the parts fit at the seam |
| Mpscq.StepInv | src/api/src/unix/api_mpscq.h:35-84 | Every step of every pusher and of the popper keeps the chain from tail to head, with a link missing only where one process is about to make it, and the stub in it at most once |
| Mpscq.RunInv | src/api/src/unix/api_mpscq.h:35-84 | The same over every interleaving of any length |
| Mpscq.FirstInFirstOut | src/api/src/unix/api_mpscq.h:42-84 | In every interleaving, the nodes pushed, in the order of their exchanges, are those popped followed by those in the queue; no node, not even the stub, is in the queue twice |
| Mpscq.NullPop | src/api/src/unix/api_mpscq.h:51-84 | A pop returns nothing only if the queue was empty at a moment of the call, or some push was between its exchange and its link at a moment of it |
| Mpscq.PopEnds | src/api/src/unix/api_mpscq.h:51-84 | A pop is over after at most ten of its own steps, whatever steps of pushes come between them |
| Mpscq.FirstReturned | src/api/src/unix/api_mpscq.h:51-84 | After any run, while no pop is under way and no push is between its exchange and its link, a pop alone returns the first node of the queue in at most ten steps and takes exactly it out, or returns nothing from an empty queue |
| Mpscq.PushEnds | src/api/src/unix/api_mpscq.h:35-49 | A push takes its three steps whatever the others do in between; from the second on its node is the last of the queue |
| Async.StepInv | src/api/src/unix/api_async.c:102-121 | Each step of a producer, of the counter and of the drain loop keeps the invariant that nothing is left behind unpromised |
| Async.NoLostWakeup | src/api/src/unix/api_async.c:102-227 | While the queue holds a node, the counter is positive, or the loop is draining, or a producer is between its exchange and its eventfd_write |
| Async.AllHandled | src/api/src/unix/api_async.c:102-227 | With the counter zero, the loop at rest and no producer under way, every node posted was popped, in order |
| Async.LoopDrains | src/api/src/unix/api_async.c:102-121 | Woken up while no push is between its exchange and its link, the loop alone handles all that the queue holds, in order, and comes to rest with the counter cleared |
| Async.CounterIs | src/api/src/unix/api_async.c:102-227 | The counter is the number of signals since the loop last woke up |
| List.List.PushHead | src/api/src/api_list.h:35-51 | The list with the node before all others, all links right |
| List.List.PushTail | src/api/src/api_list.h:53-69 | The list with the node after all others, all links right |
| List.List.PopHead | src/api/src/api_list.h:71-88 | The first node, or null from the empty list; the rest stays |
| List.List.PopTail | src/api/src/api_list.h:90-107 | The last node, or null from the empty list; the rest stays |
| List.List.Remove | src/api/src/api_list.h:109-121 | The list without the node at that place, be it the first, the last or between others |
| List.WithoutOthers | src/api/src/api_list.h:109-121 | Removal keeps all other nodes and loses exactly the one |
| Timer.Timers.Set | src/api/src/api_timer.c:54-104 | Timers with their periods are a map: the timer set gets the period, or leaves for 0, no other changes; one list for each period, in the tree exactly while it has timers; versions increase along each list; issue times do not decrease under a clock that does not run back |
| Timer.Timers.Add | src/api/src/api_timer.c:40-52 | To the tail of the list, with the next version and, for sleep and timeout, the clock's reading |
| Timer.Timers.Leave | src/api/src/api_timer.c:73-83 | A list that is empty then leaves the tree, unless timers are being processed |
| Timer.Timers.FindList | src/api/src/api_timer.c:90-101 | The one list of a period, created only if there is none |
| Timer.PartedRuns | src/api/src/api_timer.c:61-84 | Leaving a list takes away one timer from the map and nothing else |
| Timer.Timers.Process | src/api/src/api_timer.c:158-229 | Of each list a first part fires, all of them elapsed, marked, set before the call, each once, and the count is their number; timers set during the call stay; lists not visited lose none; visited ones end at a timer that has not elapsed and, if issue times do not decrease and are not after the given time, keep none that has; the lists visited are those of the walk from the first, by the shapes of the tree, their periods increase, and they are WalkOf of the tree if nothing fires; emptied lists leave the tree, and the index is valid again; what the woken tasks ask for takes effect: of the tasks of the timers that fired, and of no others, the requests are answered one after another as FireAll says, so that a timer that was not set runs afterwards with the period of the first request for it, of a later version, and only timers asked for join those ever set |
| Timer.SameShapes | src/api/src/api_timer.c:158-229 | While no timer fires, the lists visited are exactly those of WalkOf, whatever has elapsed on the others |
| Timer.MiddlePassedOver | src/api/src/api_timer.c:54-229 | Three timers of periods 1, 2 and 3, set and all elapsed: one call of process fires the first and the third and leaves the second where it is |
| Timer.Timers.ProcessList | src/api/src/api_timer.c:174-214 | The inner loop over one list, with wake-ups that set any timers not set, in this list as in others |
| Timer.Timers.Fire | src/api/src/api_timer.c:193-207 | One timer leaves its list, is marked, and its task is woken: the list has lost its first timer, later ones are added, and the timers are afterwards as its requests make them |
| Requests.AllReplied | src/api/src/api_timer.c:54-104 | What requests come to, of which those of one task follow the firing of one timer: a timer that is set stays as it is; one that is not set, or has fired, is set by the first request made for it from then on, with its period and, for sleep and timeout, its clock reading, or stays unset; nothing else joins the timers ever set |
| Requests.FiredAnswers | src/api/src/api_timer.c:158-210 | For a timer that fires: the first request from its own task on decides |
| Timer.ElapsedExactly | src/api/src/api_timer.c:184-192 | The unsigned difference: a sleeping timer has elapsed if and only if its period has gone by since it was set or, if the clock has run back by d since then, its period is at most 2^64 - d |
| Timer.EarlyBreak | src/api/src/api_timer.c:177-213 | The early break leaves no elapsed older timer in a visited list, if issue times do not decrease and are not after the given time; Process applies it |
| Timer.FiredMore | src/api/src/api_timer.c:206-228 | The number of timers fired is the number cut off the lists: no timer is counted twice |
| Timer.Timers.NextList | src/api/src/api_timer.c:170-223 | The walk goes on to the list that the tree's step leads to, of a longer period and in the tree |
| Transfer.WrittenIsRead | src/api/src/api_stream_common.c:126-246 | In every run the bytes written are the first of the bytes read; after a return without a failed write they are all of them, and the source is at its end |
| Transfer.CountersInStep | src/api/src/api_stream_common.c:155-201 | num_wakeup_done <= num_wakeup_req <= num_wakeup_done + 1, always; every wake-up asked for has been counted by the writer, is under way, or came to a writer that did not sleep, which happens once at most |
| Transfer.WakeupArrives | src/api/src/api_stream_common.c:155-201 | A writer that sleeps with bytes waiting, or after the reader has ended, has a wake-up on its way if and only if none was consumed inside a write |
| Transfer.SleepsForever | src/api/src/api_stream_common.c:197-231 | If one was, no step ever wakes the writer again or writes a byte |
| Transfer.MissedWakeup | src/api/src/api_stream_common.c:155-231 | Such a run exists: the second wake-up comes during the first write, and two buffers are never written |
| Transfer.TotalIsBytes | src/api/src/api_stream_common.c:203-243 | Of every run that returns without a failed write: the total reported is the number of bytes transferred if and only if the bytes skipped in rounds that found several buffers are as many as those added again by rounds that found none |
| Transfer.FailedTotal | src/api/src/api_stream_common.c:203-243 | Of every run with a failed write: the total lacks the bytes of that write and those skipped, and has those added again; it is the number of bytes written if and only if these are as many |
| Transfer.AfterFailure | src/api/src/api_stream_common.c:126-246 | After a failed write no step writes a byte or changes the total, and the reader stops with its next read |
| Transfer.BuffersFreed | src/api/src/api_stream_common.c:232-241 | A transfer that returns leaves no buffer behind, but for one that is read after a failed write |
| Transfer.FailsAtOnce | src/api/src/api_stream_common.c:203-243 | One byte is written and then none of another: one is reported |
| Transfer.PartNotReported | src/api/src/api_stream_common.c:203-243 | One byte of two is written: none is reported |
| Transfer.ThreeBytesAreTwo | src/api/src/api_stream_common.c:203-243 | Two buffers wait at one wake-up: of three bytes, two are reported |
| Transfer.OneByteIsTwo | src/api/src/api_stream_common.c:203-243 | The most ordinary transfer, one byte and the end of the source, reports two bytes |
| Transfer.StepInv | src/api/src/api_stream_common.c:126-246 | Each step of the reader, of the loop that delivers wake-ups and of the writer keeps bytes, counters and totals |

## Left out

- Pausing the parser, callbacks that fail, and the non-strict mode of the parser.
- HttpParser.HttpParser.Execute: whether a call that fails drops the data collected last, which the source does not deliver then, is not told.
- HttpUrlLayout.ParseLaysOut: for more than 65535 bytes offsets and lengths are cut to 16 bits, in the model as in the source, and nothing is said about the layout.
- HttpUrlExact.ParsedExactly: for more than 65535 bytes the same cut applies; which bytes the automaton takes is told for any length by `HttpUrlGrammar.TakenExactly`.
- HttpUrl.Url.Parse: the record is zeroed before the call, as all callers do.
- HttpReads.HeadParsed: when more has been read after the head than the first byte of another request, the result is that of `HttpReads.ParseRequest`; it is told in terms of the requests only for a whole second head.
- HttpRequest.Context.AddField: strings handed over to the request are kept as their text, not as pointers into the buffer.
- HttpCoded.ExactlyCoded: of chunked bodies whose trailer has a line without a colon, it tells that they are accepted, but not what their callbacks are.
- HttpHead.HeadRun: of heads in which a header line has no colon `HttpAccepted` tells that they are accepted, but not what their callbacks are.
- `decode_query`, `parse_query` and the filling of the request's uri fields: string work.
- `api_pool`: allocation always succeeds, and freeing is not modelled.
- RbTree.RbTree.Insert: the compare callback orders nodes by an integer key that does not change.
- Timer.Timers.Process: woken tasks set timers that are not set; tasks that remove or reset other timers meanwhile are not covered, for the saved successor may then be gone.
- Timer.Timers.Set: the lists are sequences, whose pointers `List` has; versions do not wrap at 2^64.
- `api_timer_terminate` and `api_timers_nearest_event`.
- Mpscq.RunInv: steps are sequentially consistent; a node is pushed only while it is in no queue and in no other push.
- Async.NoLostWakeup: the counter does not reach its limit, eventfd_write does not fail, and the end of the loop is not modelled.
- Transfer.WrittenIsRead: the record shared by the two tasks outlives the writer; allocation succeeds.
- Task switching, epoll, sockets, files, TLS, events and the Windows sources: system calls decide what they do.
