# shadowsocksr: a verified model of its parsers, codecs, indexes and teardown

The client library under `shadowsocksr-native/` and the PAC script `ssrMac/abp.js` are mostly code that keeps state
between calls: an HTTP parser that may be given its input in any pieces, ciphers that buffer half a chunk, hash tables
threaded on two linked lists, caches that must not change an answer, reference counts that several callbacks share.
This project models that code in Dafny and proves what callers rely on.

The same pattern comes back in every part. A method follows the loop, the branches and the in-place updates of the
source; its `ensures` ties it to a small function on sequences, maps or sets; and lemmas about that function state what
the code is for. Where the source keeps objects (uthash handles, caches, matchers, cipher contexts, sockets), the model
has classes with those fields, and `Valid()` is the invariant that every operation keeps.

| files | what they are about |
|---|---|
| `HttpSyntax`, `HttpMachine` | characters, states and the transition table of `http_parser.c`, one byte at a time |
| `HttpFeed` | what a byte means when it comes alone; a byte in a larger buffer does the same |
| `HttpHealth` | the assertions cannot fail |
| `HttpBatch`, `HttpExecute` | `http_parser_execute` as it is: marks, batch scans, 32-bit counters, re-execution; below 2^32 it does what the bytes do one at a time, and cutting the input changes nothing |
| `HttpLimit` | exactly when the batch count of a header refuses what it should |
| `HttpNames`, `HttpCodings` | which methods and header names are recognised, and which values of Transfer-Encoding are chunked |
| `HttpBooks`, `HttpLengths`, `HttpFraming` | the books an application could keep of the callbacks; what it is promised is the number in the input, and what it is given is what it was promised |
| `HttpRfc` | the end of the headers against section 3.3.3 of RFC 7230 |
| `HttpUrl` | the fields of a URL |
| `UtHash`, `LruCache` | uthash on a heap of handles, and the least-recently-used cache on top of it |
| `AbpPattern`, `AbpMatcher` | filter patterns and keywords of `abp.js`, the index, the result cache, `FindProxyForURL` |
| `PpBloom`, `AeadStream` | the replay filter, and the AEAD stream that uses it |
| `SodiumStream`, `TableCipher` | stream ciphers addressed in blocks, and the table cipher made by sorting |
| `TunnelTeardown`, `UdpRemote` | reference counts of a tunnel with two sockets, and of a UDP remote |
| `WebSocket`, `Socks5`, `QrLink`, `KeyDerivation` | RFC 6455 frames, RFC 1928 addresses, ssr:// and ss:// links, RFC 5869 HKDF and the MD5 chains |
| `Bytes`, `Wrappers` | bytes, masks, copying and concatenation; optional values |

## What was found

Some statements one would expect do not hold of the code. They are given with an input, and with the exact condition
where there is one:

- The header-size limit of the HTTP parser is held in a 32-bit counter to which a batch scan adds in one go. For a
  buffer of n header bytes the scan refuses what counting byte by byte refuses if and only if, for the count c so far
  and the limit m, c + n <= m or c = m or (c + n) mod 2^32 > m (`HttpLimit.NameLimit`, `HttpLimit.ValueLimit`). A name
  of 2^32 bytes gets through a whole call and leaves the count as it was (`HttpLimit.LongNameEscapes`).
- Section 3.3.3 of RFC 7230 gives a response with status 1xx, 204 or 304 no body whatever its headers say. The parser
  looks at the headers first. `HttpRfc.RfcAgreement` says for all heads when the two agree, and
  `HttpRfc.BodilessWithBody` has two responses on which they do not.
- A Transfer-Encoding whose last element is "chunked" is taken for chunked if and only if there is no tab in that
  element and the scan has not missed the comma in front of it (`HttpCodings.ChunkedAsListed`). It misses it in
  ",chunked", "chunked,chunked" and "a,,chunked" (`EmptyFirst`, `ChunkedTwice`, `EmptyElement`).
- `udprelay_parse_header` masks the address type with 0xEF before it looks at it, `socks5_address_parse` does not. They
  agree exactly on the inputs described by `Socks5.ParsersAgree`; `Socks5.ParsersDisagree` is one on which they differ.
- Writing a parsed SOCKS5 address gives back the bytes it came from exactly if the name has no NUL in it
  (`Socks5.BinaryInvertsParse`); `Socks5.NulInName` has one that has.
- An ssr:// link gives back the configuration it was made from exactly if the remarks and the over-TLS path are not
  empty (`QrLink.SsrExactly`); `QrLink.NoRemarks` has one that is not given back.

## Model

| member | source | states |
|---|---|---|
| HttpMachine.TransitionSound | shadowsocksr-native/depends/http-parser/http_parser.c:719-2130 | For all 60 states and every byte: each `goto reexecute` goes down in a rank of states (so the chain on one byte ends), at most one mark is ever set, a span is flushed before anything else is reported, and no byte of a span is lost |
| HttpHealth.TransitionKeeps | shadowsocksr-native/depends/http-parser/http_parser.c:1996-2130 | The invariant behind the asserts (chunked flag, `nread == 1`, header states that match the parser state, `content_length` below the sentinel) is kept by every pass, and no pass from it fails an assert |
| HttpHealth.FeedAllHealthy | shadowsocksr-native/depends/http-parser/http_parser.c:718-2130 | That invariant holds after any input, and the error is never a failed assert |
| HttpFeed.FeedConcat | shadowsocksr-native/depends/http-parser/http_parser.c:641-2155 | The byte-by-byte meaning of a concatenation is the meaning of the pieces one after the other, errors and upgrade exits included |
| HttpFeed.DriveAgrees | shadowsocksr-native/depends/http-parser/http_parser.c:692-718 | A byte at position i of a buffer, with marks left by earlier bytes, leads to the same state and tells the same story as the byte handed over alone |
| HttpFeed.ExtendConcat | shadowsocksr-native/depends/http-parser/http_parser.c:98-148 | Joining adjacent data callbacks does not depend on how the callbacks are grouped |
| HttpBatch.ScanName | shadowsocksr-native/depends/http-parser/http_parser.c:1256-1392 | The scan of a header name, with its inner loop over ordinary characters, its one 32-bit count at the end and the byte it may still owe to the switch, is the fold over the name bytes followed by one count, on every buffer |
| HttpExecute.NameRight | shadowsocksr-native/depends/http-parser/http_parser.c:1256-1392 | Below 2^32, that scan does what the bytes do one at a time, refusals included |
| HttpLimit.NameFed | shadowsocksr-native/depends/http-parser/http_parser.c:154-161 | One byte at a time, a header name is counted exactly, and refused as soon as the limit is passed |
| HttpLimit.NameLimit | shadowsocksr-native/depends/http-parser/http_parser.c:1377-1381 | For any buffer of name bytes, the scan of the code refuses exactly if the byte-by-byte run fails, if and only if the count in one go neither wraps below the limit nor needs to |
| HttpBatch.SkipGeneral | shadowsocksr-native/depends/http-parser/http_parser.c:1510-1530 | The jump inside an ordinary header value ends at the next CR or LF within the limit, or before an invalid byte |
| HttpBatch.ScanValue | shadowsocksr-native/depends/http-parser/http_parser.c:1482-1707 | The scan of a header value, with its jumps and its one count at the end, is the recursive reading of the value, on every buffer |
| HttpExecute.ValueRight | shadowsocksr-native/depends/http-parser/http_parser.c:1482-1707 | Below 2^32, that scan does what the bytes do one at a time, although it jumps, and although it counts after it has found an error |
| HttpLimit.ValueFed | shadowsocksr-native/depends/http-parser/http_parser.c:154-161 | One byte at a time, a header value is counted exactly, and refused as soon as the limit is passed or a byte is an error |
| HttpLimit.ValueLimit | shadowsocksr-native/depends/http-parser/http_parser.c:1703-1707 | The same exact condition for header values |
| HttpBatch.ReadBody | shadowsocksr-native/depends/http-parser/http_parser.c:1944-1981 | Taking as much of a body or chunk as the buffer holds takes exactly that much off `content_length`, the last byte being left to the switch |
| HttpExecute.BodyRight | shadowsocksr-native/depends/http-parser/http_parser.c:1944-1981 | That is the same as taking it byte by byte |
| HttpBatch.Round | shadowsocksr-native/depends/http-parser/http_parser.c:719-2130 | One round of the main loop, scan or single byte, on every buffer |
| HttpBatch.RoundKept | shadowsocksr-native/depends/http-parser/http_parser.c:692-2130 | Every round keeps the invariant, sets the marks the state calls for, moves on, and fails no assert, whether or not the counter wraps |
| HttpBatch.Loop | shadowsocksr-native/depends/http-parser/http_parser.c:710-2155 | The main loop is the iteration of rounds, with what is still marked told at the end of the buffer |
| HttpBatch.ExecKept | shadowsocksr-native/depends/http-parser/http_parser.c:710-2155 | A whole call keeps the invariant and fails no assert, on every buffer |
| HttpExecute.ExecAllRight | shadowsocksr-native/depends/http-parser/http_parser.c:710-2155 | Below 2^32, a whole call ends with the fields, the callbacks and the verdict of the byte-by-byte run; callbacks made before an error are those of that run but for the span that was open |
| HttpBatch.AtMostOneMark | shadowsocksr-native/depends/http-parser/http_parser.c:2135-2139 | The assert at the end of a buffer: at most one mark is set |
| HttpExecute.HttpParser.Execute | shadowsocksr-native/depends/http-parser/http_parser.c:641-2155 | On any non-empty buffer: the fields, callbacks, byte count and verdict of the modelled call; no assert fails; a parser in error does nothing. Below 2^32 they are those of the byte-by-byte run, adjacent data joined; an error comes after the callbacks of that run, but for the open span |
| HttpExecute.HttpParser.ExecuteEof | shadowsocksr-native/depends/http-parser/http_parser.c:660-690 | The zero-length call: a message that lasts until the end is completed, the start states stay silent, everything else is an error; the state does not change |
| HttpExecute.HttpParser.ExecutePieces | shadowsocksr-native/depends/http-parser/http_parser.c:641-2155 | Pieces of any size (limit plus piece below 2^32) leave the parser where the byte-by-byte run over their concatenation leads, errors included |
| HttpExecute.CutDoesNotMatter | shadowsocksr-native/depends/http-parser/http_parser.c:641-2155 | Fragmentation: two parsers in the same state, one given the input whole and one in any pieces, end in the same state with the same events, for every input without an error or upgrade exit |
| HttpLimit.LongNameEscapes | shadowsocksr-native/depends/http-parser/http_parser.c:1377-1381 | A whole call on a name of 2^32 bytes accepts it and leaves the count as it was; byte by byte it is refused |
| HttpLengths.TransitionHeads | shadowsocksr-native/depends/http-parser/http_parser.c:1206-1943 | One pass keeps the name and the Content-Length digits told so far in agreement with the header state, `F_CONTENTLENGTH` and `content_length`, from the first digit to `on_headers_complete`; a length that was read stays below the sentinel |
| HttpFraming.TransitionFrames | shadowsocksr-native/depends/http-parser/http_parser.c:1542-2116 | One pass keeps the body books: what has been given to `on_body` plus `content_length` is what was promised, and `content_length` is the value of the hexadecimal digits of the size line until it is told |
| HttpFraming.TransitionTells | shadowsocksr-native/depends/http-parser/http_parser.c:2048-2077 | A chunk size is told exactly at the end of a size line, and it is the value of that line |
| HttpFraming.FeedAllFramed | shadowsocksr-native/depends/http-parser/http_parser.c:1206-2116 | All of that holds after every input, from any of the three kinds of initial parser |
| HttpFraming.FramingHolds | shadowsocksr-native/depends/http-parser/http_parser.c:1542-2116 | For every input: `on_body` never gets more bytes than were promised, and a message or chunk is complete exactly when all have been handed over; each head has the value of the Content-Length digits told before it, below `ULLONG_MAX`, or `ULLONG_MAX` if there were none; the chunk sizes told are the values of the size lines read; no number ever wraps |
| HttpFraming.SoundThroughout | shadowsocksr-native/depends/http-parser/http_parser.c:1981-2116 | Books that are in order at the end were in order after every callback |
| HttpFraming.CallsInOrder | shadowsocksr-native/depends/http-parser/http_parser.c:1874-2116 | In such books every completion of a message or chunk was balanced, and every head had the length its headers spelled |
| HttpRfc.RfcAgreement | shadowsocksr-native/depends/http-parser/http_parser.c:1874-1943 | For every head: what the parser does at the end of the headers is what section 3.3.3 of RFC 7230 says (status first) if and only if the message is declined, or no bodiless status comes with headers that announce a body, no upgrade cuts a body off, and no lenient parser lets a Transfer-Encoding pass |
| HttpRfc.StatusIsLookedAtLate | shadowsocksr-native/depends/http-parser/http_parser.c:1893-1940 | Without upgrade and leniency they differ exactly for undeclined responses with status 1xx, 204 or 304 that are chunked, use Transfer-Encoding or have a Content-Length other than 0 |
| HttpRfc.WhenRefused | shadowsocksr-native/depends/http-parser/http_parser.c:1874-1917 | The pass stops exactly on a byte that is not LF, or for a request with a Transfer-Encoding that is not chunked, unless declined, upgraded or lenient; and with which error |
| HttpRfc.BodilessWithBody | shadowsocksr-native/depends/http-parser/http_parser.c:1893-1925 | A 204 with a length and a chunked 304, for which the parser waits for a body |
| HttpNames.MethodRecognised | shadowsocksr-native/depends/http-parser/http_parser.c:927-1023 | A token followed by a space gets past `s_req_method` with method m if and only if it is the name of m, for all methods, although the parser tells them apart by switching candidates |
| HttpNames.SwitchIsOrigin | shadowsocksr-native/depends/http-parser/http_parser.c:984-1014 | Every candidate switch is the one branch at which the new method leaves the old one |
| HttpNames.NextHeld | shadowsocksr-native/depends/http-parser/http_parser.c:971-1023 | Reading the next letter of a method leads from the candidate held before it to the one held after it |
| HttpNames.NameRecognised | shadowsocksr-native/depends/http-parser/http_parser.c:1206-1392 | Connection, Proxy-Connection, Content-Length, Transfer-Encoding and Upgrade are recognised if and only if the name is theirs in any case of letters |
| HttpCodings.ChunkedExactly | shadowsocksr-native/depends/http-parser/http_parser.c:1580-1618 | A Transfer-Encoding value ends in `h_transfer_encoding_chunked` if and only if the scan looks at the last element of the list and that is "chunked" |
| HttpCodings.ChunkedAsListed | shadowsocksr-native/depends/http-parser/http_parser.c:1580-1618 | Read as a list whose last element is "chunked": the code agrees if and only if there is no tab in that element and its comma was not missed; it never takes another value for chunked |
| HttpCodings.OrdinaryLists | shadowsocksr-native/depends/http-parser/http_parser.c:1580-1618 | No comma is missed if every element before it begins with a token character and is neither "chunked" nor a beginning of it |
| HttpCodings.EmptyFirst | shadowsocksr-native/depends/http-parser/http_parser.c:1610-1618 | ",chunked" is not taken for chunked |
| HttpCodings.ChunkedTwice | shadowsocksr-native/depends/http-parser/http_parser.c:1599-1608 | "chunked,chunked" is not taken for chunked |
| HttpCodings.EmptyElement | shadowsocksr-native/depends/http-parser/http_parser.c:1580-1597 | "a,,chunked" is not taken for chunked |
| HttpUrl.NeverBack | shadowsocksr-native/depends/http-parser/http_parser.c:493-639 | The URL automaton never returns to an earlier field, and skips only delimiters; the "Unexpected state" branch is unreachable |
| HttpUrl.WalkFits | shadowsocksr-native/depends/http-parser/http_parser.c:2422-2496 | After any prefix of a URL the fields are non-empty, ordered and disjoint, end where the walk is, and account for every byte that is no delimiter |
| HttpUrl.HostWalkFits | shadowsocksr-native/depends/http-parser/http_parser.c:2253-2415 | The same for userinfo, host and port inside the host field |
| HttpUrl.FieldsPartition | shadowsocksr-native/depends/http-parser/http_parser.c:2422-2543 | An accepted URL is partitioned: fields in bounds, contiguous, pairwise disjoint, in the order schema, userinfo, host, port, path, query, fragment; every other byte is a delimiter; a CONNECT target is exactly host and port |
| HttpUrl.PortValue | shadowsocksr-native/depends/http-parser/http_parser.c:2515-2540 | The port is the decimal value of its field, refused exactly above 65535, however many digits there are |
| HttpUrl.Classify | shadowsocksr-native/depends/http-parser/http_parser.c:2443-2482 | The switch on states finds the field of every state the automaton can be in |
| HttpUrl.ParsedUrl.ParseHost | shadowsocksr-native/depends/http-parser/http_parser.c:2335-2415 | The loop with its early exits is the host walk |
| HttpUrl.ParsedUrl.ParseFields | shadowsocksr-native/depends/http-parser/http_parser.c:2422-2496 | The loop with `old_uf` and `found_at` is the URL walk |
| HttpUrl.ParsedUrl.ParseUrl | shadowsocksr-native/depends/http-parser/http_parser.c:2422-2543 | When it fails and when not, and on success: the partition, and the port as the value of its digits |
| UtHash.PushFront | shadowsocksr-native/src/uthash.h:736-748 | A handle put in front of its bucket keeps all chains and back-links intact |
| UtHash.Unlink | shadowsocksr-native/src/uthash.h:750-762 | Taking a handle out of the middle, the front or the end of a chain leaves the chain without it |
| UtHash.Append | shadowsocksr-native/src/uthash.h:225-231 | The application-order list gets its new last element, with both links |
| UtHash.Unlist | shadowsocksr-native/src/uthash.h:337-366 | The application-order list loses exactly the deleted element; head and tail are right |
| UtHash.MoveChain | shadowsocksr-native/src/uthash.h:806-828 | Walking an old bucket while its links are being rewritten moves every handle of it, once, to its new bucket |
| UtHash.Rehash | shadowsocksr-native/src/uthash.h:791-837 | Doubling the buckets keeps every handle indexed in the bucket of its hash and touches no link of the application order |
| UtHash.HashTable.Find | shadowsocksr-native/src/uthash.h:119-136 | A lookup through the bucket finds what a linear scan of the application-order list finds |
| UtHash.HashTable.MakeTable | shadowsocksr-native/src/uthash.h:172-188 | A new table has 32 empty buckets and is ready for its first element |
| UtHash.ToBucketMasks | shadowsocksr-native/src/uthash.h:320-323 | For a power of two, the remainder of a 32-bit hash is the hash masked with that number less one |
| UtHash.HashTable.Expand | shadowsocksr-native/src/uthash.h:791-837 | Expansion keeps the index of all elements, with twice the buckets |
| UtHash.HashTable.Add | shadowsocksr-native/src/uthash.h:284-312 | Adding, with or without a first table or an expansion, appends to the order and keeps the whole invariant |
| UtHash.HashTable.Delete | shadowsocksr-native/src/uthash.h:337-370 | Deleting removes exactly that element from the order and keeps the whole invariant; the last deletion drops the table |
| UtHash.HashTable.FsckBucket | shadowsocksr-native/src/uthash.h:406-426 | The bucket half of `HASH_FSCK` finds no bad `hh_prev` and counts the chain correctly |
| UtHash.HashTable.Fsck | shadowsocksr-native/src/uthash.h:400-450 | `HASH_FSCK` never complains in a reachable state: counts, totals and back-links are all right |
| UtHash.ChainsCount | shadowsocksr-native/src/uthash.h:427-431 | The lengths of the chains add up to the number of elements |
| UtHash.FoundIsScanned | shadowsocksr-native/src/uthash.h:119-136 | With distinct keys there is one right answer, the one of the linear scan |
| LruCache.Cache.Drop | shadowsocksr-native/src/cache.c:183-208 | Deleting an entry removes exactly it from the order and from the index |
| LruCache.Cache.KeyExist | shadowsocksr-native/src/cache.c:253-275 | Found exactly if held; a key that is found becomes the newest, with a new time stamp |
| LruCache.Cache.Lookup | shadowsocksr-native/src/cache.c:230-250 | The same, with the data of the key |
| LruCache.Cache.Remove | shadowsocksr-native/src/cache.c:183-208 | The key is gone afterwards and nothing else changes |
| LruCache.Cache.Insert | shadowsocksr-native/src/cache.c:291-330 | A new key becomes the newest, and the oldest is evicted when the capacity is reached |
| LruCache.Cache.Use | shadowsocksr-native/src/encrypt.c:1075-1081 | Check-then-insert: the answer and the new contents as one step |
| LruCache.Cache.UseAll | shadowsocksr-native/src/encrypt.c:1075-1081 | After any sequence of uses the cache holds exactly the capacity-1 most recently used distinct keys, in recency order; with a monotone clock its time stamps are sorted |
| LruCache.LruStep | shadowsocksr-native/src/cache.c:253-330 | One check-then-insert on the latest keys gives the latest keys of the longer history |
| LruCache.UsedMonotone | shadowsocksr-native/src/cache.c:253-330 | Under a monotone clock, recency order is time-stamp order after each use |
| LruCache.Cache.Clear | shadowsocksr-native/src/cache.c:141-168 | Walking the list while deleting from it removes exactly the entries older than the age |
| LruCache.ClearsPrefix | shadowsocksr-native/src/cache.c:141-168 | With sorted time stamps these are a prefix of the order |
| AbpPattern.SameSource | ssrMac/abp.js:537-545 | `findKeyword` and `RegExpFilter.fromText` find the same pattern in every filter text, though they cut it in a different order |
| AbpPattern.RegexpsHaveNoKeyword | ssrMac/abp.js:258-266 | What the constructor takes for a regular expression is also one for `findKeyword`, which then gives no keyword |
| AbpPattern.WordIsMaximal | ssrMac/abp.js:601-605 | Every word cut from a URL is a maximal run of at least three keyword characters |
| AbpPattern.MaximalIsWord | ssrMac/abp.js:601-605 | Every such run is one of the words |
| AbpPattern.CandidateIsDelimited | ssrMac/abp.js:546-556 | Every keyword candidate of a pattern stands between two characters that are neither keyword characters nor wildcards |
| AbpPattern.TokensAround | ssrMac/abp.js:287 | The chain of replacements turns a delimited keyword into the same letters between two tokens that match no keyword character |
| AbpPattern.CandidateIsWord | ssrMac/abp.js:287-291 | The key lemma: a keyword candidate of a pattern is a whole word of every URL the pattern matches, upper or lower case |
| AbpMatcher.InsertedIndexed | ssrMac/abp.js:481-502 | Adding keeps the index right: each filter once, under its keyword, as a single entry or in a list |
| AbpMatcher.RemovedIndexed | ssrMac/abp.js:503-528 | Removing keeps it right, and an empty entry disappears |
| AbpMatcher.KeywordIsLookedUp | ssrMac/abp.js:599-621 | The keyword of a matching filter is among the words that are looked up |
| AbpMatcher.NeverMisses | ssrMac/abp.js:599-621 | The index finds a filter if and only if some filter matches when all are tried, and what it finds does match |
| AbpMatcher.Matcher.Add | ssrMac/abp.js:481-502 | The filter is in the matcher afterwards, once; adding it again changes nothing |
| AbpMatcher.Matcher.Remove | ssrMac/abp.js:503-528 | Exactly that filter is gone |
| AbpMatcher.Matcher.FindKeyword | ssrMac/abp.js:529-566 | The candidate with the fewest filters, the longest of those; none for regular expressions |
| AbpMatcher.Matcher.CheckEntryMatch | ssrMac/abp.js:582-598 | The first filter of an entry that matches |
| AbpMatcher.Matcher.MatchesAny | ssrMac/abp.js:599-621 | The answer agrees with trying every filter |
| AbpMatcher.KeyInjective | ssrMac/abp.js:748-751 | For hosts without a space, different queries have different cache keys |
| AbpMatcher.CoherentStore | ssrMac/abp.js:746-762 | Storing an answer keeps every stored answer equal to an uncached one |
| AbpMatcher.CombinedMatcher.MatchesAnyInternal | ssrMac/abp.js:719-745 | The interleaved scan of both lists: a whitelist match wins, wherever it is found, over a blocking match found earlier |
| AbpMatcher.CombinedMatcher.MatchesAny | ssrMac/abp.js:746-762 | The cached answer is the uncached one; the cache has as many keys as `cacheEntries` says, at most 1000 |
| AbpMatcher.CombinedMatcher.Add | ssrMac/abp.js:642-657 | Adds to the right list and forgets all stored answers |
| AbpMatcher.CombinedMatcher.Remove | ssrMac/abp.js:658-673 | Removes from the right list and forgets all stored answers |
| AbpMatcher.CombinedMatcher.FindProxyForURL | ssrMac/abp.js:764-777 | The proxy is returned if and only if some blocking filter matches and no whitelist filter does, as by linear scan, in every reachable state |
| PpBloom.PingPong.Add | shadowsocksr-native/src/ppbloom.c:77-94 | Every item is recorded, and neither half takes more than `entries` insertions between resets |
| PpBloom.PingPong.LastAreReported | shadowsocksr-native/src/ppbloom.c:61-75 | Each of the last `entries` items is reported, across any number of swaps |
| PpBloom.PingPong.SpacedMore | shadowsocksr-native/src/aead.c:769-824 | Two records of one salt, the later one checked, have at least `entries` other records between them |
| AeadStream.Resume | shadowsocksr-native/src/aead.c:741-831 | Decoding a concatenation is decoding the first part, then what it left over together with the second part, from the nonce reached |
| AeadStream.Leftover | shadowsocksr-native/src/aead.c:694-739 | What is left in the buffer holds no complete chunk |
| AeadStream.ParsePrefix | shadowsocksr-native/src/aead.c:694-831 | Every prefix of a stream of chunks decodes without error to exactly the messages whose chunks it holds completely, with the nonce at twice their number |
| AeadStream.NonceCounts | shadowsocksr-native/src/aead.c:694-739 | The receiver's nonce is always twice its own chunk count, whatever the input |
| AeadStream.LaterIs | shadowsocksr-native/src/aead.c:601-639 | Until the nonce space is used up, the n-th increment is the number n |
| AeadStream.ChunksSnoc | shadowsocksr-native/src/aead.c:641-692 | Appending a message appends one chunk, sealed under the next two nonces |
| AeadStream.PlainIfCounted | shadowsocksr-native/src/aead.c:789-824 | Output is non-empty exactly if a chunk was completed |
| AeadStream.Sender.ChunkEncrypt | shadowsocksr-native/src/aead.c:601-639 | A chunk is the sealed length and the sealed payload, and takes two nonces |
| AeadStream.Sender.Encrypt | shadowsocksr-native/src/aead.c:641-692 | Everything sent so far is the salt and the chunks of all messages in order; the salt goes out once and is recorded |
| AeadStream.Receiver.ChunkDecrypt | shadowsocksr-native/src/aead.c:694-739 | Too short, broken or a message; the nonce moves by two exactly for a message |
| AeadStream.Receiver.DecryptChunks | shadowsocksr-native/src/aead.c:789-814 | The loop decodes all complete chunks and keeps the rest |
| AeadStream.Receiver.Decrypt | shadowsocksr-native/src/aead.c:741-831 | An error exactly for a broken chunk or a reported salt; otherwise the invariant holds: what was given out is the decoding of everything received, and `init` is 2 exactly once a chunk was completed |
| AeadStream.Receiver.SsDecrypt | shadowsocksr-native/src/encrypt.c:1034-1050 | The same for the caller: waiting for more gives out nothing |
| AeadStream.SenderStream | shadowsocksr-native/src/aead.c:641-692 | What a sender puts on the wire is the stream of its messages |
| AeadStream.Deliver | shadowsocksr-native/src/aead.c:741-831 | One fragment of a sender's stream, however cut: no error, and the output so far is exactly the messages received completely; the nonce is twice their number |
| AeadStream.DeliverAll | shadowsocksr-native/src/aead.c:601-831 | Round trip: any messages of 1 to 0x3FFF bytes under any fragmentation come out again, for a salt the filter does not report |
| SodiumStream.PaddingTrick | shadowsocksr-native/src/encrypt.c:884-903 | Zero bytes in front and a block counter reach the keystream at any byte offset |
| SodiumStream.XorPieces | shadowsocksr-native/src/encrypt.c:884-903 | Encrypting pieces at their offsets is encrypting the whole |
| SodiumStream.XorAtTwice | shadowsocksr-native/src/encrypt.c:1085-1103 | The keystream undoes itself |
| SodiumStream.Encryptor.SsEncrypt | shadowsocksr-native/src/encrypt.c:863-903 | Under any split, the output so far is the IV and the plaintext XOR the keystream at absolute offsets |
| SodiumStream.Decryptor.TakeIv | shadowsocksr-native/src/encrypt.c:1059-1084 | The first piece must hold the IV, and one not held in the cache; it is recorded as used |
| SodiumStream.Decryptor.SsDecrypt | shadowsocksr-native/src/encrypt.c:1053-1103 | Under any other split, the output so far is the received bytes behind the IV XOR the keystream; when it fails |
| SodiumStream.RoundTrip | shadowsocksr-native/src/encrypt.c:863-1103 | What has been received decrypts to the same length of what was encrypted, however both sides were cut |
| TableCipher.ComparesRanks | shadowsocksr-native/src/encrypt.c:219-225 | The unsigned subtraction and the cast to int give the true difference of the two remainders |
| TableCipher.MergedOrdered | shadowsocksr-native/src/encrypt.c:227-273 | Merging ordered halves gives an ordered whole |
| TableCipher.MergedStable | shadowsocksr-native/src/encrypt.c:227-273 | Elements of equal rank keep their order |
| TableCipher.SortedStable | shadowsocksr-native/src/encrypt.c:275-296 | `merge_sort` is a stable permutation ordered by `key % (x + salt)`, for every key and every salt below 1024 |
| TableCipher.Merge | shadowsocksr-native/src/encrypt.c:227-273 | The merge through two copies changes just its part of the array |
| TableCipher.MergeSort | shadowsocksr-native/src/encrypt.c:275-296 | The sort in place changes just its part of the array |
| TableCipher.RoundsPermute | shadowsocksr-native/src/encrypt.c:1232-1237 | After any number of rounds the table is a permutation of 0..255 |
| TableCipher.TableIsBijection | shadowsocksr-native/src/encrypt.c:1217-1241 | After 1023 rounds all entries differ and every byte occurs |
| TableCipher.Invert | shadowsocksr-native/src/encrypt.c:1238-1241 | The decryption table is the inverse on both sides |
| TableCipher.EncTableInit | shadowsocksr-native/src/encrypt.c:1217-1259 | For every 64-bit key, the two tables are mutual inverses |
| TableCipher.MapBuffer | shadowsocksr-native/src/encrypt.c:832-845 | The loop maps every byte of the buffer |
| TableCipher.TablesUndo | shadowsocksr-native/src/encrypt.c:1005-1018 | Table-mode decryption undoes encryption, and the other way round, on every buffer |
| TunnelTeardown.Socket.Close | shadowsocksr-native/src/tunnel.c:322-352 | Closing owes two close callbacks, with one reference for each; no timer is left |
| TunnelTeardown.Socket.Release | shadowsocksr-native/src/ref_count_def.h:25-34 | Freed exactly when the count comes to zero |
| TunnelTeardown.Tunnel.Release | shadowsocksr-native/src/tunnel.c:400-421 | The last release frees the tunnel and gives up its sockets |
| TunnelTeardown.Tunnel.Shutdown | shadowsocksr-native/src/tunnel.c:511-524 | Idempotent, and the tunnel outlives it: both sockets owe two callbacks and each holds a reference |
| TunnelTeardown.Tunnel.CloseDone | shadowsocksr-native/src/tunnel.c:309-320 | Any of the four close callbacks, in any order, touches nothing freed and keeps the invariant |
| TunnelTeardown.Tunnel.TimerExpire | shadowsocksr-native/src/tunnel.c:155-163 | An expired timer shuts the tunnel down while holding its socket |
| TunnelTeardown.Tunnel.IoDone | shadowsocksr-native/src/tunnel.c:540-610 | A finished read or write touches nothing freed; one that failed shuts the tunnel down |
| TunnelTeardown.Tunnel.NothingTooEarly | shadowsocksr-native/src/tunnel.c:309-421 | Counts are never negative, nothing is freed twice, and the tunnel only after both sockets have closed |
| TunnelTeardown.Tunnel.NothingLeft | shadowsocksr-native/src/tunnel.c:400-421 | Once all callbacks have come and no holder is left, the tunnel and both sockets have been freed |
| TunnelTeardown.NeverStuck | shadowsocksr-native/src/tunnel.c:309-352 | While anything is owed after a shutdown, some of it can be delivered |
| TunnelTeardown.Deliver | shadowsocksr-native/src/tunnel.c:309-524 | Every event keeps the invariant, and after a shutdown each callback or release makes what is owed less |
| TunnelTeardown.Run | shadowsocksr-native/src/tunnel.c:435-524 | The invariant holds along every run of events in any order |
| UdpRemote.Remote.Shutdown | shadowsocksr-native/src/udprelay.c:327-357 | Idempotent; two closes are owed; a dying callback may destroy the remote from within |
| UdpRemote.Remote.Destroy | shadowsocksr-native/src/udprelay.c:366-369 | Gives up the owner's reference and leaves the rest to the close callbacks |
| UdpRemote.Remote.CloseDone | shadowsocksr-native/src/udprelay.c:322-325 | Either close callback, in either order, keeps the invariant |
| UdpRemote.Remote.Timeout | shadowsocksr-native/src/udprelay.c:371-377 | An expiry shuts the remote down, and it is not freed yet |
| UdpRemote.Remote.IoDone | shadowsocksr-native/src/udprelay.c:379-416 | Sent and received callbacks touch nothing freed |
| UdpRemote.Remote.NothingTooEarly | shadowsocksr-native/src/udprelay.c:322-377 | Freed at most once, and exactly when there have been one destroy and both closes |
| UdpRemote.Run | shadowsocksr-native/src/udprelay.c:418-443 | The invariant holds along every run of events in any order |
| WebSocket.WsHton | shadowsocksr-native/src/websocket_basic.c:520-535 | The swap loop reverses every buffer of even length and leaves the others alone |
| WebSocket.BigEndianInverse | shadowsocksr-native/src/websocket_basic.c:543-571 | Reading undoes writing in network order |
| WebSocket.HighHalfZero | shadowsocksr-native/src/websocket_basic.c:443-451 | The check that refuses long frames lets every length below 2^32 pass |
| WebSocket.LengthReadBack | shadowsocksr-native/src/websocket_basic.c:434-463 | All three length forms are read back as written |
| WebSocket.RoundTrip | shadowsocksr-native/src/websocket_basic.c:278-494 | A frame followed by any bytes parses to its opcode, fin, mask flag, payload and size, for every payload shorter than 2^32 and any mask |
| WebSocket.PrefixYieldsNothing | shadowsocksr-native/src/websocket_basic.c:380-494 | No proper prefix of a frame yields a payload |
| WebSocket.SplitsUniquely | shadowsocksr-native/src/websocket_basic.c:380-511 | Frames one after the other, and the beginning of one more, split into exactly their payloads |
| WebSocket.BuildFrame | shadowsocksr-native/src/websocket_basic.c:278-346 | The buffer holds exactly the frame of section 5.2 of RFC 6455 and one zero byte |
| WebSocket.MaskInPlace | shadowsocksr-native/src/websocket_basic.c:331-340 | The masking loop changes the payload and nothing else |
| WebSocket.RetrievePayload | shadowsocksr-native/src/websocket_basic.c:380-494 | The parser with all its early returns is the parse that the lemmas are about |
| WebSocket.CloseFrameReadBack | shadowsocksr-native/src/websocket_basic.c:352-378 | A close frame fits a control frame (125 bytes), and its reason and as much of the text as fits come back |
| Socks5.ParseInvertsBinary | shadowsocksr-native/src/sockaddr_universal.c:12-181 | Parsing the bytes of an address, with anything behind them, gives it back and takes exactly its size |
| Socks5.BinaryInvertsParse | shadowsocksr-native/src/sockaddr_universal.c:12-181 | Writing a parsed address gives back its bytes exactly if a name has no NUL inside |
| Socks5.NulInName | shadowsocksr-native/src/sockaddr_universal.c:12-181 | A name with a NUL, which is empty when it is written again |
| Socks5.AddressParse | shadowsocksr-native/src/sockaddr_universal.c:12-69 | The moving offset stays within the data; same answer as the parse above |
| Socks5.AddressBinary | shadowsocksr-native/src/sockaddr_universal.c:142-181 | The buffer holds the address as in section 5 of RFC 1928; its size is `socks5_address_size` |
| Socks5.UdpParseHeader | shadowsocksr-native/src/udprelay.c:137-218 | The header length for every input whose name length, if its type has one, is there; 0 if it is refused |
| Socks5.ParsersAgree | shadowsocksr-native/src/udprelay.c:141-210 | The two parsers report the same length if and only if the input is not of type 0x11, 0x13 or 0x14 with enough bytes |
| Socks5.ParsersDisagree | shadowsocksr-native/src/udprelay.c:141-148 | A header that only one of the two parsers accepts |
| KeyDerivation.HkdfExpand | shadowsocksr-native/src/aead.c:1000-1067 | The output is exactly the first L bytes of T(1), T(2), ... of section 2.3 of RFC 5869, for every L; it is refused exactly above 255 hash lengths or for a short key |
| KeyDerivation.BlocksBound | shadowsocksr-native/src/aead.c:1025-1033 | The block count fits one byte exactly up to 255 hash lengths |
| KeyDerivation.TsLength | shadowsocksr-native/src/aead.c:1042-1062 | n blocks are n hash lengths |
| KeyDerivation.DeriveKey | shadowsocksr-native/src/aead.c:919-961 | The key is the prefix of the MD5 chain of its length, for every length |
| KeyDerivation.BytesToKeyWithSize | shadowsocksr-native/src/encrypt.c:374-387 | The second loop computes the same bytes |
| KeyDerivation.PrefixIsKey | shadowsocksr-native/src/encrypt.c:431-470 | The prefix of any longer chain is the key, so all three derivations agree |
| QrLink.FillOptional | shadowsocksr-native/src/ssr_qr_code.c:420-478 | Splitting the parameters at & and = undoes joining them, for any number of pairs |
| QrLink.AssignPairs | shadowsocksr-native/src/ssr_qr_code.c:66-104 | The parameters restore what they were made from; an empty one keeps the value that was there |
| QrLink.FillConfig | shadowsocksr-native/src/ssr_qr_code.c:420-478 | The loop over the parameters assigns each in turn |
| QrLink.SsrRoundTrip | shadowsocksr-native/src/ssr_qr_code.c:26-124 | Decoding an ssr:// link restores host, port, protocol, method, obfs, password, both parameters, remarks and the over-TLS fields, those that are not empty |
| QrLink.SsrExactly | shadowsocksr-native/src/ssr_qr_code.c:327-490 | With the defaults of `config_create` it restores everything exactly if remarks and path are not empty |
| QrLink.NoRemarks | shadowsocksr-native/src/ssr_qr_code.c:420-478 | A configuration without remarks, which does not come back |
| QrLink.SsRoundTrip | shadowsocksr-native/src/ssr_qr_code.c:123-325 | Decoding an ss:// link restores host, port, method, password and remarks |
| QrLink.LinkRoundTrip | shadowsocksr-native/src/ssr_qr_code.c:26-183 | Whichever link is made, it can be read, and these fields come back |

## Left out

HTTP parser:
- HttpExecute.HttpParser.Execute: when a header is over the limit inside a batch scan and another error comes later in the same scan, the error reported may be that other one; the contract says which two it can be, not which it is. Where limit plus buffer reach 2^32 the call need not agree with the byte-by-byte run (`HttpLimit` says when it does for a header name or value).
- HttpExecute.HttpParser.ExecutePieces: says nothing about input that follows an upgrade exit, which belongs to another protocol, nor about the callbacks before an error, which are stated for each call by `Execute`.
- HttpExecute.CutDoesNotMatter: input with an error or an upgrade exit is not covered, and `Fits` keeps the 32-bit header counter from wrapping, where cutting does matter (`HttpLimit.LongNameEscapes`).
- HttpUrl.ParsedUrl.ParseUrl: URLs longer than 65535 bytes, where `uint16_t` offsets wrap.
- HttpUrl.ParsedUrl.ParseFields: the same.
- HttpCodings.ChunkedAsListed: values on one line, not begun by a blank and without NUL bytes. The flags that the values of Connection set are not stated, only that they do not touch the framing.
- Callbacks that fail or pause the parser; `on_headers_complete` is a function of the headers seen, the other callbacks return 0. Builds without HTTP_PARSER_STRICT.

uthash and the LRU cache:
- The hash is any function of the key; the Jenkins arithmetic, the Bloom option, HASH_SORT, HASH_SELECT and the in-order macros are not part of this model.
- A bucket count that overflows 32 bits is not modelled.
- LruCache.Cache.Insert: only for a key that is not held, as `ss_decrypt` uses it; the source would hold such a key twice.
- Allocation, free callbacks and the clock itself, which is a parameter.

abp.js:
- Domain, site-key and content-type rules: `matches` is any predicate that implies that the pattern matches; that is all the index relies on.
- The JavaScript engine: patterns are sequences of literals, wildcards, separators and anchors; filters given as regular expressions are matched by an unknown predicate. Characters are ASCII, filters one line, hosts without a space.
- A filter is its text, as the memo in `Filter.fromText` makes it; comment filters and invalid filters are not modelled.

Ciphers:
- AES, ChaCha20, Poly1305, MD5 and HMAC are abstract: opening inverts sealing under the same key and nonce, sealing adds a tag, a keystream block depends on IV and block number.
- AeadStream.Sender.Encrypt: payloads of at most 0x3FFF bytes, as the source asserts. Growing the buffers, one-shot UDP encryption and the state after an error are left out.
- PpBloom.PingPong.Add: libbloom is a set with arbitrary false positives and no errors; at least two entries, so that each half takes one.
- SodiumStream.Encryptor.SsEncrypt: up to 2^38 bytes for the ietf variant and 2^64 for the others, where the counters end. The mbedTLS stream ciphers are not modelled.
- TableCipher.EncTableInit: takes the 64-bit key; how it is read from the MD5 digest is not modelled.
- KeyDerivation.BytesToKeyWithSize: sizes that are positive multiples of 16 and passwords up to 112 bytes, for which its buffer is made. Null arguments, negative lengths and failing hash set-ups are left out.

Teardown:
- libuv is reduced to what it owes: after `uv_close` one close callback per handle, later, in any order; a timer or a read or write may end before that. Name lookups that are under way and the hooks of applications are left out.
- UdpRemote.Remote.Shutdown: a dying callback does nothing, takes notice, or destroys the remote; other things it might do are left out.
- UdpRemote.Remote.Destroy: not called by an owner while a dying callback that destroys is still set, since the source would then give the owner's reference up twice.

Codecs:
- WebSocket.RetrievePayload: the opcode and flags are taken apart with arithmetic instead of bit operations; the mask is a parameter where the source draws it at random. Reading mask bytes behind data that is too short, opcodes above 15 and the opening handshake are left out.
- Socks5.AddressParse: a name type needs its length byte, which the source reads before it knows that it is there. Conversions to and from socket addresses and text are left out.
- Socks5.UdpParseHeader: at least one byte, and the length byte of a name, for the same reason.
- QrLink.LinkRoundTrip: base64 and URI coders are abstract, inverse to each other with alphabets that avoid the delimiters; names without delimiters; SSR_BUFF_SIZE and null strings are left out.

Obfuscation and protocol plugins, JSON configuration, command lines, logging, packaging and the graphical clients are not part of this model.
