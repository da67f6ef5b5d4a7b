# Verified models of the parser, the buffers and the work queue

The server in this repository is small; most of its behaviour comes from two libraries it carries in source form,
http_parser 2.5.0 and libevent 2.0, and from its own work queue. This project models seven parts of them in Dafny and
proves what they promise.

| part | modules | shape of the model |
|---|---|---|
| HTTP/1.x push parser | `HttpTypes`, `HttpStep`, `HttpRun`, `HttpFeed`, `HttpExecute`, `HttpSplit`, `HttpCut`, `HttpBody`, `HttpConserve`, `HttpLength`, `HttpHead`, `HttpFirst`, `HttpNext`, `HttpMatchers`, `HttpValues` | a function for one byte, and a class with the marks and the bulk scans that refines it |
| URL splitter | `HttpUrlText`, `HttpUrl` | the two byte machines as functions, where the fields are by the text alone, a class with the loops |
| evbuffer and its searches | `EvBuffer`, `EvSearch` | chains over arrays, updated in place; the abstract value is one byte sequence |
| interest map, changelist, epoll | `EvMap` | the counters and the changelist of a base, over a kernel table that refuses wrong operations |
| DNS name compression | `DnsNames` | array encoder with a label table, array decoder |
| common timeouts | `CommonTimeouts` | a base with a heap, an active queue and timeout queues |
| rate limits | `RateLimit` | buckets, bufferevents and groups as classes; runs over them |
| tagged data | `Tagging` | encoders and decoders over an `EvBuffer` |
| work queue | `WorkQueue` | any number of workers and callers as a state machine, and a class over the real linked lists that performs it step by step |

The HTTP parser is proved in four layers. `HttpStep` gives what one byte does. `HttpRun` proves the invariant that makes
every assertion in the C code true. `HttpExecute` proves that one call of `http_parser_execute`, with its
mark pointers, its `memchr` scans and its block skips, has the effect of its bytes one by one. The other modules prove
what the parser promises about messages for the one-byte form: splitting, first lines, names, values, lengths, bodies, and
what the connection does behind a message. Callbacks are
observed as a trace in which data callbacks of the same kind that follow each other are joined, because the parser does
not promise where it cuts them.

`dafny verify dfyconfig.toml` checks the project.

## Findings

Properties one would expect that do not hold of the code. Each has an input or a run that shows it, and the exact condition.

- **Splitting input and errors.** Cutting the input changes the joined callbacks exactly when the parser stops with an
  error inside a string that began before the cut: the first call has handed over a part that a single call would drop
  (`goto error` skips the flush at http_parser.c:2077-2089). `HttpSplit.CutInPath` is a request from a fresh parser: `GET /`,
  `a`, then a control byte. `HttpCut.CutExactly` tells from the bytes behind the cut when it makes no difference: a URL has
  to go on as a URL, a name with token characters up to its colon, a length with digits and spaces that do not become too
  large, and a chunk has to have its CR behind it; other header values, reason phrases and bodies are never dropped.
- **Versions and empty lines.** A version with a minor number of 0 counts as HTTP/1.0, also 2.0: behind such a message the
  connection persists only if `keep-alive` is heard (`HttpNext.OneMessage`). A `Connection` line among the trailers counts,
  too. In front of a response each byte of an empty line announces a message of its own (`HttpFirst.EmptyLineAnnounces`).
- **The bandwidth of a group.** burst + T*rate + min_share bounds every run exactly when the group starts without tokens
  or has room for those of the ticks that have passed and have not been added yet. Otherwise a late refill comes on top
  (`RateLimit.BoundedExactly`, with the run in `RateLimit.LateRefill`).
- **Tokens of a group.** An unsuspended group always has tokens exactly if min_share is at least 1
  (`RateLimit.TokensExactly`). With 0, which `bufferevent_rate_limit_group_set_min_share` accepts, a refill timer that fires
  before the first tick lifts the suspension of a group that has used up its tokens (`RateLimit.NoTokens`). The bounds hold
  all the same.
- **The port of a URL.** `strtoul` reads on behind `buflen`. The result is that of the URL alone exactly
  if the byte behind it is no digit, or the URL does not end in its port, or its port is too large anyway, or all that is
  read has the value 0 (`HttpUrl.PortIsOfUrl`). `a:80` with a length of 3 gives port 80 (`HttpUrl.StrayPort`).
- **Connection tokens.** The comma right behind a token that is an unfinished `keep-alive`, `close` or `upgrade` is
  swallowed, and the token behind it is not heard: `k,close` does not close (`HttpValues.CloseUnseen`). A tab behind a comma,
  or a later token that starts with an underscore, ends the hearing. `HttpValues.Heard` tells from the list which tokens are
  heard, and `HttpValues.ListMeans` is the equivalence: a list sets what its tokens ask for if and only if each of the three
  names that is in it, and whose flag is not set yet, is heard at least once.
- **A failed `evbuffer_prepend`** may leave the end of its data in front of the buffer: the part that fits the first chain
  is copied before the new chain is asked for. If no block can be had, the buffer is as it was if and only if its first chain
  has no room in front (`EvBuffer.PrependAndFail`). `EvBuffer.PrependLeavesPart` is a buffer of one byte with room for four,
  and data above the limit of a block.
- **The byte at `buf_len`.** `dnsname_to_labels` writes its final zero byte without a look at the length, so the byte at
  `buf_len` is written exactly when the result is `buf_len + 1`. The callers pass `sizeof(buf)`
  (src/libevent/evdns.c:1879-1937), so for them that byte lies outside. The name `a` at the start of a buffer with a length
  of 2 does it (`DnsNames.ZeroBehindEnd`).
- **Compression offsets.** A suffix stored at an offset of 0x4000 or more is pointed at wrongly; exactly those below are
  not (`DnsNames.PointerExactly`).
- **Tagged payloads** above INT_MAX can be marshalled and not unmarshalled, and exactly those (`Tagging.StreamRoundTrip`,
  `Tagging.PassItems`). `evtag_peek_length` is the size of an item exactly for items below 2^32 bytes
  (`Tagging.PeekExactly`).
- **Shutting down the work queue.** A worker that leaves its loop keeps the mutex (src/workqueue.c:41,56). So a shutdown may
  return with all workers told to terminate, one of them gone and the others stuck, whichever one and however many
  (`WorkQueue.GetsStuck`), and no further step lets another one leave (`WorkQueue.StaysStuck`) or changes the list
  (`WorkQueue.StepProgresses`). All workers can leave if and only if there is at most one (`WorkQueue.AllLeaveExactly`).

## Model

| member | source | states |
|---|---|---|
| HttpRun.InitInv | http_parser.c:2150-2158 | a fresh parser satisfies the invariant and has no error |
| HttpRun.StepKeepsInv | http_parser.c:698-2071 | every byte in every reachable state keeps the invariant, so that no assertion can fail: header_state fits the outer state, F_CHUNKED is set in all chunk states, a length inside a body is neither 0 nor the "absent" marker, match indexes stay in their strings, numbers below 1000 |
| HttpFeed.StepMarks | http_parser.c:670-693 | after every byte at most one data mark is open, and it is the one the state calls for; none is overwritten or lost |
| HttpFeed.FeedAppend | http_parser.c:697-2071 | the one-byte form has no memory but its state: reading a + b is reading a, then b |
| HttpExecute.HttpParser.Execute | http_parser.c:628-2097 | one call, with marks, bulk scans and flush, leaves the parser, the joined callbacks and the returned count of the one-byte form; unless the header limit of 80 kB may be passed. Also the calls with a parser in error and with no data |
| HttpExecute.ChunkStartResets | http_parser.c:1940-1943 | every way into chunk-size start resets nread, so that `nread == 1` holds there |
| HttpExecute.HttpParser.ScanField | http_parser.c:1329-1456 | the inner loop over a header name, and the early way out at the colon, reach what the one-byte form reaches |
| HttpExecute.HttpParser.ScanValue | http_parser.c:1531-1715 | the inner loop over a header value, with the memchr jump for plain values, does too |
| HttpExecute.HttpParser.ScanIdentity | http_parser.c:1888-1922 | so does the block skip of an identity body, with the step back that lets message_done see the last byte |
| HttpExecute.HttpParser.ScanChunk | http_parser.c:2021-2042 | so does the block skip of a chunk |
| HttpExecute.HttpParser.ScanToEof | http_parser.c:1925-1929 | so does the jump to the end of a body without a length |
| HttpSplit.SplitInvariance | http_parser.c:628-2097 | input cut anywhere gives the same parser, the same bytes consumed and the same error; the same joined callbacks if and only if the parser does not stop with an error in a string begun before the cut |
| HttpSplit.CleanCut | http_parser.c:670-693 | a cut that leaves no data pending changes nothing at all, error or not |
| HttpSplit.AnyCuts | http_parser.c:628-2097 | input that is accepted to its last byte, also when that byte ends an upgrade message, is accepted in any number of pieces with the same parser and callbacks |
| HttpSplit.CutBeforeError | http_parser.c:2077-2097 | in a path, a cut before a bad byte makes a difference: the part before it is handed over |
| HttpCut.CutExactly | http_parser.c:628-2097 | told from the input: a cut changes nothing, parser and joined callbacks, if and only if the bytes behind it let the string that was cut end well |
| HttpCut.StringOne | http_parser.c:670-693 | inside a string, in every state that collects one, a byte ends it, is refused, or is its next byte, as the bytes' own grammar says |
| HttpSplit.CutInPath | http_parser.c:2077-2097 | the same for a request read by a fresh parser from its first byte |
| HttpBody.UnhexExactly | http_parser.c:224-241 | the unhex table gives each hexadecimal digit its value, and nothing else one |
| HttpBody.ChunkSizeExact | http_parser.c:1945-1991 | the size of a chunk is the hexadecimal value of all its digits; a value that 64 bits or the marker could not take is refused, and only such a value |
| HttpBody.ContentLengthExact | http_parser.c:1497-1610 | the same for Content-Length and its decimal digits |
| HttpBody.MessageCompletes | http_parser.c:2100-2140 | a byte completes a message if and only if the parser is then ready for the next one, or closed; ready if and only if the message told where it ends (a request, a status without a body, chunks, a length) and the connection persists: from 1.1 on without `close`, before with `keep-alive` |
| HttpBody.HeadersEnd | http_parser.c:1792-1886 | which of the ways the end of the headers goes: chunks, a length, until the connection ends, over at once, another protocol, refused by the callback; each if and only if flags, length, method and callback say so |
| HttpBody.IdentityBody | http_parser.c:1888-1938 | the next content_length bytes are one body, then the message is complete, and the parser ready or closed |
| HttpBody.IdentityDelivered | http_parser.c:1888-1922 | a call with fewer bytes than are left delivers them and counts them; with more it delivers just those left and completes the message |
| HttpBody.ChunkedDelivered | http_parser.c:1940-2058 | a chunked body delivers its payloads in order, with a header and a complete callback for each chunk, then completes the message |
| HttpBody.ChunkedInPieces | http_parser.c:1940-2058 | it does so however it is cut, and the body handed over is the concatenation of the payloads; upgrades included |
| HttpConserve.BodyGrows | http_parser.c:1888-2058 | from any state inside a body, trailers included, on any bytes, finished or not, well-formed or not: what on_body has been given or is about to be grows by exactly the bytes an independent decoder calls payload, and the parser is where the decoder is |
| HttpConserve.BodyInPieces | http_parser.c:628-2097 | the same over any number of calls |
| HttpConserve.PayloadInPieces | http_parser.c:628-2097 | what on_body has been given after any number of calls is the payload; a prefix of it after an error |
| HttpConserve.PayloadIs | http_parser.c:1940-2058 | the decoder agrees with the chunk grammar of section 3.6.1 of RFC 2616 read line by line: size, parameters, data, CR LF |
| HttpConserve.IdentityIs | http_parser.c:1888-1929 | with a length it delivers the first so many bytes, without one all of them |
| HttpConserve.ChunksInPieces | http_parser.c:1940-2058 | any bytes fed to a chunked body, in any pieces, hand over what the chunk grammar says; a prefix of it after an error |
| HttpConserve.IdentityInPieces | http_parser.c:1888-1938 | bytes up to the announced length, in any pieces, are the body, and complete the message when they are all there; what lies behind is read as the next message, or not at all after an upgrade |
| HttpHead.LineRead | http_parser.c:1279-1790 | any header line, framing or not: its name and its value are handed over, and the flags and the length are what the line means |
| HttpHead.SectionRead | http_parser.c:1279-1790 | any number of them, in any order |
| HttpHead.FoldedValue | http_parser.c:1725-1752 | a value of no special header that goes on on the next line is handed over as one value |
| HttpHead.HeadDecides | http_parser.c:1792-1886 | how the message goes on is decided by what all lines together mean and by the callback |
| HttpHead.LengthMessage | http_parser.c:1279-1938 | end to end: any header lines with a Content-Length among them, the empty line and as many bytes as it says give the header callbacks in order, headers-complete, that body and message-complete; then ready or closed as the message tells |
| HttpHead.TooLong | http_parser.c:1585-1610 | too large a length is refused, whatever lines are in front of it |
| HttpHead.ChunkedMessage | http_parser.c:1279-2058 | end to end: any header lines that make the message chunked, chunks, the last chunk, any trailer lines and the empty line give the callbacks of each in order, then message-complete, and ready or closed as header and trailer lines tell; with an upgrade the call returns there |
| HttpHead.MessageInPieces | http_parser.c:628-2097 | the same however the message is cut, and the body is the payloads, nothing of headers or trailers |
| HttpFirst.NumberExact | http_parser.c:794-907 | major, minor and status code are the decimal values of all their digits; refused exactly above 999, or if the major version of a request begins with a zero |
| HttpFirst.FirstLineRead | http_parser.c:704-1277 | a request line or a status line sets method, version and status as written, forgets flags and length of the message before, and hands over the URL or the reason |
| HttpFirst.EitherKind | http_parser.c:714-749 | a parser for both kinds goes on like one for the kind of the line it reads |
| HttpFirst.BareLf | http_parser.c:840-1790 | wherever a line can end, LF alone does what CR LF does |
| HttpFirst.NumberRefused | http_parser.c:794-907 | a number without a digit, or followed by what cannot end it, is refused |
| HttpFirst.ProtocolRefused | http_parser.c:751-792 | so is any other byte inside `HTTP/` |
| HttpFirst.LfMissing | http_parser.c:942-945 | so is a CR at the end of a line without its LF |
| HttpFirst.UrlRefused | http_parser.c:1084-1155 | so is a URL of a request line, with HPE_INVALID_URL, in which a byte cannot stand where it stands, or that ends before its host |
| HttpFirst.NameRefused | http_parser.c:1279-1456 | so is a header name with a byte that is no token character |
| HttpFirst.LengthRefused | http_parser.c:1497-1610 | so is a Content-Length with anything but digits and spaces |
| HttpFirst.OldRequestLine | http_parser.c:1125-1155 | a URL with the end of the line behind it makes the version 0.9 |
| HttpFirst.MoreSpace | http_parser.c:863-1168 | in front of a URL, a version and a status code there may be more than one space |
| HttpFirst.EmptyLine | http_parser.c:704-722 | empty lines in front of a request, and behind the last message, are skipped |
| HttpFirst.EmptyLineAnnounces | http_parser.c:751-772 | in front of a response each byte of one announces a message |
| HttpNext.OneMessage | http_parser.c:628-2097 | a whole message, first line, header lines, no body, one of known length or chunks with trailers: its callbacks in order, and then the parser is ready for another one if and only if the version and the tokens in its lines say that the connection persists; otherwise closed |
| HttpNext.Pipeline | http_parser.c:628-2140 | any number of messages in one stretch of input: delivered one after the other up to the first behind which the connection does not persist; the next one is refused at its first byte with HPE_CLOSED_CONNECTION |
| HttpNext.TwoMessages | http_parser.c:628-2140 | two of them: both are delivered, or the second is refused |
| HttpNext.PipelineInPieces | http_parser.c:628-2097 | the same however the input is cut |
| HttpNext.TwoGets | http_parser.c:2125-2140 | `GET /a HTTP/1.1` and `GET /b HTTP/1.1` are both delivered to a fresh parser; with 1.0 the second is refused |
| HttpMatchers.TokenExactly | http_parser.c:189-222 | the tokens table knows all printable characters but the separators of section 2.2 of RFC 2616, letters made small |
| HttpMatchers.LetterExactly | http_parser.c:412-416 | setting bit 5 makes letters small, leaves digits alone and makes nothing else a letter |
| HttpMatchers.MethodExact | http_parser.c:947-1082 | a word and a space take the parser to the URL with method m if and only if the word is the name of m |
| HttpMatchers.SwitchSound | http_parser.c:990-1082 | where the matcher changes its mind about the method, the new method starts with all that has been read |
| HttpMatchers.HeaderNameExact | http_parser.c:1279-1456 | at the colon header_state marks connection, content-length, transfer-encoding or upgrade exactly if the name is one of those names, or proxy-connection, whatever its case |
| HttpValues.ChunkedExact | http_parser.c:1487-1742 | a Transfer-Encoding value sets F_CHUNKED if and only if it is "chunked", whatever its case, and spaces |
| HttpValues.ConnectionExact | http_parser.c:1506-1750 | exactly which of keep-alive, close and upgrade a list of tokens with any white space sets |
| HttpValues.HeardSets | http_parser.c:1623-1700 | each flag is set if and only if it was, or its token is in the list and heard |
| HttpValues.ListMeans | http_parser.c:1623-1700 | a list sets what its tokens ask for if and only if each name in it that is not set yet is heard |
| HttpValues.ConnectionMeans | http_parser.c:1506-1750 | the same for a Connection value that the parser reads byte by byte |
| HttpValues.PlainList | http_parser.c:1623-1700 | so it does if no token swallows a comma or ends the hearing |
| HttpValues.CloseUnseen | http_parser.c:1642-1672 | `k,close` sets no flag |
| HttpValues.LineSetsFlag | http_parser.c:1725-1750 | the flag is set at the end of the line |
| HttpUrlText.OuterByText | http_parser.c:480-626 | by the text alone: the schema runs to the first `:`, the authority behind `://` to the first `/` or `?`, the path to the first `?` or `#`, the query to the first `#`, the fragment is what follows it and any `#` right behind it; the byte machine dies if and only if a byte cannot stand where it stands, and otherwise gives every byte the field of its place |
| HttpUrlText.InnerByText | http_parser.c:2179-2260 | the same inside an authority: user info to the first `@`, host in brackets to the `]` or else to the first `:`, port behind it |
| HttpUrl.ShapeByText | http_parser.c:2342-2429 | so the URLs of the right shape are told by their text |
| HttpUrl.RecordedInPlace | http_parser.c:2342-2444 | and each field is recorded with the offset and length of its place, if that is not empty |
| HttpUrl.ParsedUrl.SplitOuter | http_parser.c:2342-2410 | the outer loop refuses exactly the URLs on which the byte machine dies, and records each field as one run |
| HttpUrl.ParsedUrl.ParseHost | http_parser.c:2262-2340 | the loop over the authority refuses exactly what its byte machine does not end well on, and splits the rest into user info, host and port, each one run |
| HttpUrl.ParsedUrl.ParseUrl | http_parser.c:2342-2444 | accepts exactly the URLs whose text is of the right shape and whose port, the digits in memory from its place on, is at most 65535; then every field is recorded in its place, and no other; CONNECT has exactly host and port |
| HttpUrl.ParsedUrl.ReadPort | http_parser.c:2431-2441 | the port is the decimal value of the digits in memory from the port field on |
| HttpUrl.PortIsOfUrl | http_parser.c:2431-2441 | when verdict and port are those of the URL alone: the exact condition |
| HttpUrl.StrayPort | http_parser.c:2431-2441 | the input that shows it: port 80 for a URL with port 8 |
| HttpUrl.OutsideIsDelimiter | http_parser.c:480-626 | in an accepted URL every byte outside the fields is a delimiter |
| HttpUrl.SchemaNeedsHost | http_parser.c:2412-2417 | a schema comes with a nonempty host, also after the authority has been split |
| EvBuffer.ChainNew | src/libevent/buffer.c:155-190 | a new chain is empty, has room for size bytes and is refused only above the block limit |
| EvBuffer.EvBuffer.ChainInsert | src/libevent/buffer.c:291-319 | a chain appended puts its bytes behind the others; an empty only chain is replaced |
| EvBuffer.EvBuffer.LastWithDataIsDocumented | src/libevent/evbuffer-internal.h:84-99 | last_with_datap designates the last chain with data, or the first one if there is none, in every valid buffer |
| EvBuffer.EvBuffer.AdvanceLastWithData | src/libevent/buffer.c:654-667 | from any earlier slot it finds that one |
| EvBuffer.EvBuffer.Add | src/libevent/buffer.c:1544-1634 | appends data, filling, realigning or adding chains; refuses frozen ends and sizes that overflow, and then changes nothing |
| EvBuffer.EvBuffer.AddChain | src/libevent/buffer.c:1600-1625 | the split over the last chain and a new one |
| EvBuffer.EvBuffer.Prepend | src/libevent/buffer.c:1637-1717 | puts data in front; on failure exactly which part of it stays |
| EvBuffer.PrependAndFail | src/libevent/buffer.c:1673-1695 | a prepend that fails for want of a block leaves nothing if and only if the first chain has no room in front |
| EvBuffer.PrependLeavesPart | src/libevent/buffer.c:1637-1717 | a failed prepend that leaves four bytes of its data |
| EvBuffer.Chain.Align | src/libevent/buffer.c:1720-1731 | realigning moves the bytes to the start of the block and keeps them |
| EvBuffer.EvBuffer.Drain | src/libevent/buffer.c:959-1027 | drops the first len bytes, all if there are fewer; keeps the documented pointer |
| EvBuffer.EvBuffer.CopyOut | src/libevent/buffer.c:1044-1091 | the first bytes arrive in order, the rest of the output array and the buffer stay |
| EvBuffer.EvBuffer.Remove | src/libevent/buffer.c:1030-1041 | copies out and drains the same bytes; the result is an int |
| EvBuffer.SignedExactly | src/libevent/buffer.c:1030-1041 | a size returned as an int or an ev_ssize_t has its value modulo the width, in the range of the type |
| EvBuffer.EvBuffer.AddBuffer | src/libevent/buffer.c:867-910 | all bytes move behind those of the other buffer, none is lost or doubled; itself, empty and frozen buffers as documented |
| EvBuffer.EvBuffer.PrependBuffer | src/libevent/buffer.c:913-956 | the same in front |
| EvBuffer.EvBuffer.AppendChain | src/libevent/buffer.c:835-847 | APPEND_CHAIN keeps both lists and the pointer |
| EvBuffer.EvBuffer.PrependChains | src/libevent/buffer.c:849-864 | PREPEND_CHAIN does too, whether or not the front buffer has one chain only |
| EvBuffer.EvBuffer.RemoveBuffer | src/libevent/buffer.c:1094-1181 | moves the first datlen bytes over, whole chains where it can and the rest by copy; what one buffer loses the other gains |
| EvBuffer.EvBuffer.Pullup | src/libevent/buffer.c:1184-1293 | the contents stay; a pointer is given if and only if there are so many bytes, and the first n bytes lie behind it in one block |
| EvBuffer.EvBuffer.Gather | src/libevent/buffer.c:1226-1287 | pulling chains together keeps every byte, drops only chains that were emptied and sets the pointer |
| EvSearch.FindEolChar | src/libevent/buffer.c:1328-1353 | in blocks of 128 bytes, the first CR or LF |
| EvSearch.FindFrom | src/libevent/buffer.c:1306-1375 | the first byte searched for, across chains, and its place in them |
| EvSearch.PtrSet | src/libevent/buffer.c:2450-2495 | a position is set if and only if there is a byte at it; else the pointer is unusable, or as it was if the sum overflows |
| EvSearch.PtrMemcmp | src/libevent/buffer.c:2501-2534 | equal if and only if the bytes at the pointer, across chains, are those given; not if there are fewer |
| EvSearch.SearchRange | src/libevent/buffer.c:2543-2605 | the leftmost match between start and end, across chains; not found if and only if there is none |
| EvSearch.StrSpn | src/libevent/buffer.c:1377-1415 | the length of the longest run of bytes of the set |
| EvSearch.SearchEol | src/libevent/buffer.c:1426-1499 | the first line end of each of the four styles, and its length |
| EvSearch.Readln | src/libevent/buffer.c:1501-1537 | old contents are line, terminator and new contents, the terminator being the first of its style; without one nothing changes |
| EvMap.Epoll.ApplyOneChange | src/libevent/epoll.c:174-330 | whatever is registered, a change leaves exactly its net effect, with the retries on ENOENT and EEXIST; if its idea of what is registered is right, the kernel refuses nothing |
| EvMap.AddIsCoalesced | src/libevent/evmap.c:655-683 | recording an add on top of recorded changes adds to their net effect |
| EvMap.DelIsCoalesced | src/libevent/evmap.c:686-734 | so does recording a delete, also one that cancels an add |
| EvMap.EventBase.GetOrConstruct | src/libevent/evmap.c:624-652 | finds the one change of a descriptor or makes it; idxplus1 and the changes stay inverse |
| EvMap.EventBase.ChangelistAdd | src/libevent/evmap.c:655-683 | edits that change only |
| EvMap.EventBase.ChangelistDel | src/libevent/evmap.c:686-734 | edits that change only |
| EvMap.RecordKeeps | src/libevent/evmap.c:535-565 | a recorded change that fits keeps counters, indexes and net effect in step for every descriptor |
| EvMap.EventBase.NoChangelistAdd | src/libevent/epoll.c:352-367 | makes the change at once, with an operation the kernel accepts |
| EvMap.EventBase.NoChangelistDel | src/libevent/epoll.c:370-383 | the same |
| EvMap.WantsExactly | src/libevent/evmap.c:264-341 | counters above zero mean exactly that one of the listed events waits for reading, or for writing |
| EvMap.EventBase.IoAdd | src/libevent/evmap.c:264-341 | the event is listed and its interest on the way to the kernel; the result says whether the interest of the descriptor changed; above 65535 events refused without a trace |
| EvMap.EventBase.IoDel | src/libevent/evmap.c:344-395 | one entry of the list is gone and it was that event; all others stay in their order, none is listed twice; the result says whether the interest of the descriptor changed |
| EvMap.EventBase.ApplyChanges | src/libevent/epoll.c:333-349 | applies every change, refused none |
| EvMap.EventBase.RemoveAll | src/libevent/evmap.c:568-586 | forgets the changes and resets idxplus1 |
| EvMap.EventBase.Dispatch | src/libevent/epoll.c:386-458 | after it the kernel has, for each descriptor, exactly the interest of its events |
| EvMap.Replay | src/libevent/evmap.c:264-395 | any sequence of add, delete and dispatch, given to a base with the changelist and to one without: both end with the same events and the same registrations, and the kernel refuses neither. An event is listed if and only if the last request for it that was accepted was an add; an add is accepted exactly if the event is not listed, on a descriptor that has less than 65535 of its kind, and a delete if it is; a descriptor is registered for reading exactly if one of its events waits for that |
| DnsNames.ProperExactly | src/libevent/evdns.c:1586-1649 | the names that survive encoding: no empty label, no dot at the end |
| DnsNames.NameParse | src/libevent/evdns.c:944-997 | reads any encoding, however many pointers: succeeds if and only if the name fits, writes it with its zero byte and ends behind it; the pointer count never cuts it off |
| DnsNames.PointerExactly | src/libevent/evdns.c:1611-1616 | a pointer begins with two one bits, and reads back as its offset if and only if the offset is below 0x4000 |
| DnsNames.LabelTable.GetPos | src/libevent/evdns.c:1546-1555 | finds a suffix if and only if it is there |
| DnsNames.LabelTable.Add | src/libevent/evdns.c:1558-1583 | appends unless the table is full |
| DnsNames.DnsnameToLabels | src/libevent/evdns.c:1586-1649 | exactly when it fails, and with which code; else the name is encoded at j in bytes before the result, pointers go backwards only, each suffix that is written out as labels has been put into the table as far as that has room, every suffix in the table still decodes where the table says, nothing before j changes and behind buf_len at most the zero byte |
| DnsNames.WriteTwice | src/libevent/evdns.c:1586-1649 | a name written twice takes two bytes the second time, if the table can remember it and pointers reach that far, and is encoded both times |
| DnsNames.ZeroBehindEnd | src/libevent/evdns.c:1641-1649 | a name whose zero byte is written behind the buffer |
| DnsNames.ShortFits | src/libevent/evdns.c:1586-1649 | names with labels up to 63 bytes and two bytes to spare are never refused |
| DnsNames.EncodesFrame | src/libevent/evdns.c:944-997 | an encoding depends on the bytes before its end only, so that later writing does not break it |
| DnsNames.PackNames | src/libevent/evdns.c:1586-1649 | many names into one packet: each is encoded at its start and all stay so |
| DnsNames.RoundTrip | src/libevent/evdns.c:1586-1649 | what name_parse reads back from them are the names |
| CommonTimeouts.AddIsLater | src/libevent/include/event2/util.h:382-390 | evutil_timeradd adds microseconds: the carry is right |
| CommonTimeouts.SubIsEarlier | src/libevent/include/event2/util.h:391-399 | evutil_timersub takes them away: the borrow is right |
| CommonTimeouts.LeIsEarlier | src/libevent/include/event2/util.h:411-414 | comparing proper times is comparing moments |
| CommonTimeouts.CommonTag | src/libevent/event.c:1103-1113 | a time is common if and only if its tag names an existing queue |
| CommonTimeouts.SameTag | src/libevent/event.c:2586-2613 | within a queue comparing tagged times is comparing times |
| CommonTimeouts.SubKeepsOrder | src/libevent/event.c:2466-2515 | clock correction keeps the order |
| CommonTimeouts.EventBase.InsertionPoint | src/libevent/event.c:2586-2613 | searched from the end: behind the last event that is not later |
| CommonTimeouts.EventBase.InsertCommon | src/libevent/event.c:2586-2613 | the event comes behind those of its queue that are not later and in front of the others: events of the same time stay in the order in which they were added |
| CommonTimeouts.EventBase.Insert | src/libevent/event.c:2615-2650 | a timer goes into its queue or the heap, and a new queue head reschedules the shared timer; nobody else's timeout changes |
| CommonTimeouts.EventBase.Schedule | src/libevent/event.c:1145-1154 | the shared timer waits in the heap for the queue head, and the base is whole again |
| CommonTimeouts.EventBase.EventAdd | src/libevent/event.c:2050-2206 | the event is pending; its time in microseconds is the one given, plus that of now if it is relative, normalised, with the tag of the one given, never before now for a timeout that is not negative; it stays active unless it was active for its timeout; the other events of callers are as before and no pending timeout is lost |
| CommonTimeouts.EventBase.EventDelete | src/libevent/event.c:2240-2311 | the event is neither pending nor active, all others are as before |
| CommonTimeouts.EventBase.ActiveNolock | src/libevent/event.c:2332-2370 | active once, however often it is activated |
| CommonTimeouts.EventBase.TimeoutProcess | src/libevent/event.c:2519-2543 | exactly the events of the heap that are due become active and leave it |
| CommonTimeouts.EventBase.Callback | src/libevent/event.c:1157-1177 | exactly the due front of its queue becomes active, and the shared timer is scheduled for the rest |
| CommonTimeouts.EventBase.ProcessDue | src/libevent/event.c:2519-2543 | timeout_process and then the active events until there are none: it ends, and nothing pending, in heap or queue, is due |
| CommonTimeouts.NothingDue | src/libevent/event.c:1145-1177 | why: with nothing active and no due time in the heap, no queue has a due event |
| CommonTimeouts.EventBase.TimeoutCorrect | src/libevent/event.c:2466-2515 | when time jumps back all pending times are earlier by exactly as many microseconds, normalised, tags kept; otherwise nothing changes |
| CommonTimeouts.MoveKeeps | src/libevent/event.c:2466-2515 | moving all of them keeps the base whole |
| CommonTimeouts.EventBase.InitCommonTimeout | src/libevent/event.c:1182-1252 | the queue of a duration, normalised to the same number of microseconds, is found again if there is one, otherwise made, with its index as its tag; refused only if there are 256 |
| CommonTimeouts.NoLostTimeout | src/libevent/event.c:1145-1177 | every pending timeout is in the heap, or in a sorted queue whose shared timer is active, running, or in the heap at a time no later |
| RateLimit.RefillExact | src/libevent/bufferevent_ratelim.c:73-110 | the division test and the wrapping arithmetic give min(maximum, limit + n*rate), also from negative limits, and overflow nowhere |
| RateLimit.TicksOfTime | src/libevent/bufferevent_ratelim.c:126-139 | the ticks counted between two moments are those that passed if and only if they fit an int; backwards none |
| RateLimit.TokenBucket.Init | src/libevent/bufferevent_ratelim.c:49-70 | a bucket starts with its rate; one that is reinitialised keeps what it has, up to the maximum |
| RateLimit.TokenBucket.Update | src/libevent/bufferevent_ratelim.c:73-110 | both limits are refilled for the ticks that have passed, wrapped or not; none falls |
| RateLimit.Bufferevent.Suspend | src/libevent/bufferevent.c:66-99 | adds the reason; the backend is armed exactly if enabled without a reason |
| RateLimit.Bufferevent.Unsuspend | src/libevent/bufferevent.c:78-111 | takes it away; the same |
| RateLimit.Bufferevent.Enable | src/libevent/bufferevent.c:407-427 | the same for enabling |
| RateLimit.Bufferevent.Disable | src/libevent/bufferevent.c:498-510 | the same for disabling |
| RateLimit.Bufferevent.DecrementBuckets | src/libevent/bufferevent_ratelim.c:275-348 | the bytes are charged or refunded, and the direction is suspended exactly if no tokens are left; while one is, the timer is pending |
| RateLimit.Bufferevent.DecrementLimit | src/libevent/bufferevent_ratelim.c:901-954 | the same by hand: suspended where the tokens run out, released where they come back, otherwise as before; the other direction untouched |
| RateLimit.Bufferevent.RefillCallback | src/libevent/bufferevent_ratelim.c:396-441 | suspended afterwards exactly if suspended before and still without tokens, and then the timer is pending again |
| RateLimit.Bufferevent.SetRateLimit | src/libevent/bufferevent_ratelim.c:559-635 | setting, changing and clearing a limit never leave a suspension without its timer or tokens with one |
| RateLimit.Bufferevent.Transfer | src/libevent/bufferevent_ratelim.c:200-348 | asking for the maximum, moving no more and charging it is one step of the specification |
| RateLimit.Bufferevent.Run | src/libevent/bufferevent_ratelim.c:200-441 | over every run of transfers, refills and ticks on the objects: bytes moved at most burst + T*rate |
| RateLimit.BandwidthBound | src/libevent/bufferevent_ratelim.c:73-110 | the bound for the specification, sharper by what the bucket holds at the start |
| RateLimit.Group.constructor | src/libevent/bufferevent_ratelim.c:638-666 | a new group is sound: unsuspended and with tokens |
| RateLimit.Group.SetMinShare | src/libevent/bufferevent_ratelim.c:700-718 | the share is kept at or below both rates; too large a one is refused |
| RateLimit.Group.SuspendAll | src/libevent/bufferevent_ratelim.c:352-393 | every member that can be locked is suspended for the group, other reasons stay |
| RateLimit.Group.UnsuspendAll | src/libevent/bufferevent_ratelim.c:487-525 | wherever the round starts, every member that can be locked is released; a retry is pending if and only if one could not |
| RateLimit.Group.Decrement | src/libevent/bufferevent_ratelim.c:275-348 | the group is charged, and suspended exactly if no tokens are left |
| RateLimit.Group.RefillCallback | src/libevent/bufferevent_ratelim.c:528-556 | suspended afterwards exactly if suspended before and still below min_share |
| RateLimit.Group.AddMember | src/libevent/bufferevent_ratelim.c:732-776 | a member joins with the suspensions of the group; the group stays sound |
| RateLimit.Group.RemoveMember | src/libevent/bufferevent_ratelim.c:785-815 | a member leaves without them |
| RateLimit.Group.RlimMax | src/libevent/bufferevent_ratelim.c:200-260 | a member gets exactly the lesser of its own refilled limit and the larger of its share and min_share; nothing while the group is suspended, and it is suspended then too |
| RateLimit.Group.Run | src/libevent/bufferevent_ratelim.c:200-556 | over every run of transfers by any members, refills and ticks on the objects, with any min_share: the group stays sound, and bytes moved stay below tokens + (late ticks + T)*rate + min_share, or do not pass it if min_share is 0 |
| RateLimit.SolventStays | src/libevent/bufferevent_ratelim.c:275-348 | after every step an unsuspended group has tokens, and a suspended one owes less than min_share; with a min_share of 0 none owes any |
| RateLimit.GroupBandwidthBound | src/libevent/bufferevent_ratelim.c:200-556 | that bound for the specification, and with no refill late burst + T*rate + min_share |
| RateLimit.BoundedExactly | src/libevent/bufferevent_ratelim.c:200-556 | burst + T*rate + min_share bounds every run if and only if the group starts without tokens or has room for the ticks that are due |
| RateLimit.TokensExactly | src/libevent/bufferevent_ratelim.c:528-556 | in every run from a new group an unsuspended group has tokens, if and only if min_share is at least 1 |
| RateLimit.NoTokens | src/libevent/bufferevent_ratelim.c:528-556 | the run that shows it for 0 |
| RateLimit.LateRefill | src/libevent/bufferevent_ratelim.c:528-556 | else a run in no time that moves more |
| Tagging.IntRoundTrip | src/libevent/event_tagging.c:115-148 | nibble integers of 32 and 64 bits read back, whatever follows |
| Tagging.TagRoundTrip | src/libevent/event_tagging.c:172-233 | so do base-128 tags |
| Tagging.TagFits | src/libevent/event_tagging.c:172-192 | a tag of 32 bits takes at most 5 bytes |
| Tagging.HeaderRoundTrip | src/libevent/event_tagging.c:429-442 | the header of a marshalled item gives its tag and length and ends where the payload starts |
| Tagging.StreamRoundTrip | src/libevent/event_tagging.c:248-471 | a marshalled list reads back as that list with the bytes behind it if and only if no payload is above INT_MAX |
| Tagging.EncodeIntInternal | src/libevent/event_tagging.c:115-148 | the macro, nibble by nibble into zeroed bytes, writes the encoding and nothing before it |
| Tagging.EncodeInt | src/libevent/event_tagging.c:151-164 | appends it, or leaves the buffer as it is if it takes no more |
| Tagging.EncodeTag | src/libevent/event_tagging.c:172-192 | appends the tag, 7 bits a byte, or leaves the buffer as it is |
| Tagging.DecodeTagInternal | src/libevent/event_tagging.c:195-233 | reads a tag, draining it if asked to; an unfinished one changes nothing |
| Tagging.DecodeIntInternal | src/libevent/event_tagging.c:306-364 | reads an integer at an offset; fails exactly if it is cut off or too wide |
| Tagging.DecodeInt | src/libevent/event_tagging.c:367-384 | the same, drained |
| Tagging.GivenWhole | src/libevent/event_tagging.c:248-254 | an item goes in whole if and only if there is room for all of it; the code does not look whether each of its three parts did |
| Tagging.Marshal | src/libevent/event_tagging.c:248-254 | appends the item, without the parts that the buffer refuses |
| Tagging.MarshalInt | src/libevent/event_tagging.c:268-288 | the same for a payload that is an integer |
| Tagging.MarshalTimeval | src/libevent/event_tagging.c:298-304 | the same for a payload of two, cut to 32 bits |
| Tagging.UnmarshalHeader | src/libevent/event_tagging.c:429-442 | drains the header; -1 exactly if it is no header or the payload is not all there, or its length is not an int |
| Tagging.Unmarshal | src/libevent/event_tagging.c:458-471 | moves the payload to the other buffer, or fails and adds nothing to it |
| Tagging.UnmarshalAll | src/libevent/event_tagging.c:458-471 | n items in a row: succeeds if and only if no payload is above INT_MAX, and then gives tags, lengths, payloads in order and leaves what follows |
| Tagging.PassItems | src/libevent/event_tagging.c:248-471 | marshalling a list through one buffer and unmarshalling it: the same for the whole way |
| Tagging.PeekLength | src/libevent/event_tagging.c:393-426 | the length of the payload or of the item, the buffer unchanged |
| Tagging.PeekExactly | src/libevent/event_tagging.c:393-408 | the length of the item is its size if and only if that is below 2^32 |
| Tagging.Consume | src/libevent/event_tagging.c:445-455 | drops exactly one item |
| Tagging.UnmarshalInt | src/libevent/event_tagging.c:476-527 | the integer of an item with the wanted tag |
| Tagging.IntItemRoundTrip | src/libevent/event_tagging.c:476-527 | an integer item reads back |
| Tagging.UnmarshalTimeval | src/libevent/event_tagging.c:571-596 | the two fields of a timeval item with the wanted tag |
| Tagging.TimevalRoundTrip | src/libevent/event_tagging.c:571-596 | a timeval item reads back |
| WorkQueue.StepKeeps | src/workqueue.c:26-112 | every step of any worker or caller, in any interleaving, keeps the invariant |
| WorkQueue.StepProgresses | src/workqueue.c:26-112 | what no step undoes: submissions only move forward, a worker told to terminate takes no further job, and once a worker has left with the mutex the list never changes |
| WorkQueue.RunKeeps | src/workqueue.c:26-112 | both over whole runs |
| WorkQueue.OnePlace | src/workqueue.c:26-112 | after every run each submission is in exactly one place: waiting in the list, with one worker, finished, or dropped by a shutdown; called once if it has started and not at all otherwise |
| WorkQueue.OneHolder | src/workqueue.c:26-112 | the mutex has one holder, and a worker that has left its loop still is it |
| WorkQueue.GetsStuck | src/workqueue.c:26-104 | for any workers and any one of them there is a run in which a shutdown is called and returns, that one leaves, and the others, told to terminate, wait for the mutex |
| WorkQueue.StaysStuck | src/workqueue.c:41-56 | after one worker has left, no run lets another one leave |
| WorkQueue.AllLeaveExactly | src/workqueue.c:26-104 | some run starts exactly these workers and ends with all of them gone, if and only if there is at most one |
| WorkQueue.CallsAreSubmitted | src/workqueue.c:53-53 | if every call belongs to a different submission of its job, no job is called more often than it was submitted |
| WorkQueue.CalledAtMostAsAdded | src/workqueue.c:26-112 | after every run no job has been called more often than it was added |
| WorkQueue.NoLostWakeup | src/workqueue.c:26-112 | after every run, if a job waits, then not all workers sleep; unless none was started, a signal is next, or one has left with the mutex |
| WorkQueue.NobodyOversleeps | src/workqueue.c:89-104 | after every run, once no shutdown is before its broadcast, no worker that was told to terminate sleeps or is about to |
| WorkQueue.StepAttends | src/workqueue.c:26-104 | why: a worker that was told to terminate and sleeps was found by a shutdown that will still wake everybody; every step keeps that |
| WorkQueue.NewestFirst | src/workqueue.c:43-46 | of all jobs that wait a worker takes the one that was added last |
| WorkQueue.ShutdownClears | src/workqueue.c:98-103 | after every run, a shutdown that is about to return has left no job on the list, and none of the workers it found on the other |
| WorkQueue.ShutdownMarks | src/workqueue.c:89-104 | a shutdown that is past its loop has marked every worker it found, whoever is started meanwhile |
| WorkQueue.WorkQueue.Remove | src/workqueue.c:19-24 | LL_REMOVE unlinks an item from both neighbours and the head |
| WorkQueue.WorkQueue.PopHead | src/workqueue.c:19-24 | LL_REMOVE of the head is a pop, although LL_ADD never sets prev of the old head |
| WorkQueue.WorkQueue.PushHead | src/workqueue.c:13-17 | LL_ADD is a push |
| WorkQueue.WorkQueue.StartOne | src/workqueue.c:71-84 | starting and linking a worker is the step StartWorker |
| WorkQueue.WorkQueue.LockByWorker | src/workqueue.c:32-32 | locking is the step WorkerLock |
| WorkQueue.WorkQueue.TestWaiting | src/workqueue.c:33-33 | the test of the list reads the real head and is the step TestTheList |
| WorkQueue.WorkQueue.TestFlag | src/workqueue.c:35-41 | the tests of the flag read the real flag and are the step TestTerminate |
| WorkQueue.WorkQueue.CondWait | src/workqueue.c:37-37 | waiting gives up the mutex and is the step Sleep |
| WorkQueue.WorkQueue.TakeHead | src/workqueue.c:43-46 | the worker gets the newest job of the real list, which loses it: the step TakeJob |
| WorkQueue.WorkQueue.CallFunction | src/workqueue.c:53-53 | the job called is the one taken: the step CallJob |
| WorkQueue.WorkQueue.LinkOne | src/workqueue.c:109-109 | the job is in front of the real list: the step LinkJob |
| WorkQueue.WorkQueue.SignalOne | src/workqueue.c:110-110 | at most one sleeping worker wakes: the step Signal |
| WorkQueue.WorkQueue.MarkWorker | src/workqueue.c:93-95 | one turn of the loop over the real list of workers, without the mutex: the step MarkOne |
| WorkQueue.WorkQueue.ForgetJobs | src/workqueue.c:101-101 | the real list is empty, its jobs dropped: the step DropJobs |
| WorkQueue.WorkQueue.WakeEverybody | src/workqueue.c:102-102 | every sleeping worker wakes: the step WakeAll |

## Left out

HTTP parser

- HttpExecute.HttpParser.Execute: a call is at most 2^31 - 1 bytes long, and once nread plus the length passes 80 kB the
  result may be the header overflow error instead; nread itself is only bounded, because a call that ends inside a header
  charges one byte more.
- HttpSplit.SplitInvariance: compares the parsers without nread, for the same reason.
- HttpHead.LineRead: a Connection value is a list of tokens, and no value goes on on a second line; one of a plain header
  may (`HttpHead.FoldedValue`).
- HttpNext.OneMessage: the user takes every message with its body, and none asks for another protocol.
- HttpValues.ConnectionExact: covers lists of tokens, each with white space in front and spaces behind; not values with other
  bytes in them, or with empty items.
- Callbacks that fail or pause the parser; the answer of on_headers_complete is a function of the parser.
- HttpUrl.ParsedUrl.ParseUrl: URLs are shorter than 65536 bytes, the range of the recorded offsets.
- HttpUrl.ParsedUrl.SplitOuter: the same.
- HttpUrl.ParsedUrl.ParseHost: the same.

evbuffer

- Chain links are a sequence of chains, and last_with_datap is the chain whose next field it points at; aliasing of the
  blocks themselves is modelled.
- EvBuffer.EvBuffer.ChainInsert: a chain behind others has data, as every modelled caller sees to.
- EvBuffer.EvBuffer.Add: when a chain is realigned and how large a new one is made is modelled, and not stated beyond what the
  contents need.
- Expanding, reserving, committing, reading from sockets, and reference, mmap, sendfile and pinned chains, which put empty
  chains behind the data.
- Callbacks and their byte counts, locks, and allocation that fails below the block limit.
- EvBuffer.EvBuffer.AddBuffer: the two lengths together fit a size_t, as they do in one address space; so for
  PrependBuffer and RemoveBuffer.
- EvSearch.SearchRange: assumes pointers that belong to the buffer as it is; a pointer names its chain by its index.
- EvSearch.PtrMemcmp: the sign of a result that is not 0 is not stated.
- EvSearch.StrSpn: the pointer it leaves behind is not stated, only the count.
- EvSearch.Readln: contents are below SSIZE_MAX.

Interest map

- EvMap.Epoll.ApplyOneChange: level-triggered interest only, and the errors EEXIST and ENOENT.
- EvMap.EventBase.Dispatch: the part before epoll_wait; waiting and activating events are not part of it.
- Edge-triggered flags, signals, the debug check for mixing them, descriptors that are closed and reused, and other errors
  of epoll_ctl.

DNS

- DnsNames.NameParse: states nothing for packets that are not encodings, and assumes 63 bytes behind the packet that may be
  read, as the code does.
- DnsNames.DnsnameToLabels: asks for the byte at buf_len to exist if the result would be buf_len + 1.
- DnsNames.PackNames: its array has that byte and is at most 0x4000 bytes long, so that every offset can be pointed at.
- DnsNames.RoundTrip: the same.
- Failing strdup in the label table, and everything else in messages: records, classes, resolution, sending.

Timeouts

- The order inside the heap: it is a set with a least element. Priorities, file and signal events, event counts, other
  threads, and events that wait for a running callback. Events are a map from addresses to records.
- CommonTimeouts.EventBase.ProcessDue: the callbacks of the user leave the base alone, and persistent events are not scheduled
  again before theirs (`event_persist_closure`).
- CommonTimeouts.EventBase.EventAdd: times are normalised, that is below a million microseconds but for the tag, and seconds
  do not overflow; registering files and signals, and waiting for a running callback, are not part of it.
- CommonTimeouts.EventBase.EventDelete: the same for files, signals and running callbacks.

Rate limits

- RateLimit.Bufferevent.DecrementBuckets: a refund, which is a negative charge, does not lift the limit above the maximum,
  because the refill assumes that no limit is above it; so for DecrementLimit and RateLimit.Group.Decrement.
- RateLimit.Group.Run: min_share stays the same during the run, as does the configuration.
- RateLimit.Group.AddMember: the bufferevent is in no group yet; the source takes it out of its old group first.
- Locks of members are a set of those that can be locked; the random first member is a parameter; timers fire as steps of
  a run.

Tagged data

- Tagging.DecodeTagInternal: a tag ends within 5 bytes or is cut off; longer ones shift out of range in the code.
- Tagging.UnmarshalHeader: assumes the same of its tag.
- Tagging.Unmarshal: assumes the same.
- Tagging.PeekLength: assumes the same.
- Tagging.UnmarshalInt: assumes the same.
- Tagging.UnmarshalTimeval: assumes the same.
- Tagging.Consume: states nothing for an item that is not whole.
- Strings, fixed-size payloads and evtag_marshal_buffer, which are combinations of these.

Work queue

- WorkQueue.WorkQueue.StartOne: creating the thread and linking its record is one step, and succeeds.
- Worker records are not freed.
- Callers keep their promise not to add a job that is in the list or being added.

The rest of the repository: sockets, MySQL, JSON and the wiring of the server; OpenSSL, IOCP, devpoll, evport and threads;
arc4random and the scripts.
