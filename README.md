# hermitcrab core, modelled in Dafny

hermitcrab is a small HTTP/1.1 server written in Rust. This project models the sequential core of that server and proves properties of the model:

- **Methods** (`method.dfy`): the `Method` enum. It covers parsing and printing, which round-trip, the default `UNKNOWN`, and the declaration order GET < POST < PUT < DELETE < UNKNOWN.
- **Text** (`text.dfy`): the standard-library string operations the core relies on, defined and characterised. These are `trim`, `split_whitespace`, the first position of a character (where `read_line` stops at a line feed and `splitn(2, ":")` splits at the first ':'), string comparison, the shared-prefix count and the decimal form of a number.
- **Requests** (`req.dfy`, `req_sample.dfy`): the request-head reader.
  - A line reader joins pieces until the text ends in CRLF. It requires at least two characters and stops past 4096.
  - The start line is split into method, path and version.
  - Headers are split at the first colon and trimmed, and the last value for a key wins.
- **Responses** (`res.dfy`, `res_sample.dfy`): `Res`, an object with a status, a header map, an output and a responded flag.
  - `respond` writes the status line, `Content-Length`, the headers, an empty line and the body.
  - `respond` refuses a second call.
  - Its output reads back with the request reader.
- **Tries** (`trie.dfy`): the compressed path trie.
  - `append` is written as a function and also as the in-place recursive method the source has.
  - `get` is proved sound.
  - `append` is proved to keep the sibling orders.
  - The source's tests appear as scenarios.
- **Matchers** (`matcher.dfy`): the dispatcher.
  - An exact `(method, path)` table is tried first, then the filters in registration order.
  - A match chain ANDs its predicates.
- **RouteMaps** (`route_map.dfy`): the older router with per-method and per-path buckets. Lookup intersects the two buckets.
- **Lines** (`line.dfy`): a worker line. It is a bounded channel of capacity two with a closed flag, and the worker's steps are methods the environment calls.
- **LinePools** (`line_pool.dfy`) and **LineMuxers** (`line_muxer.dfy`): admission control over a list of lines.
  - The first line is created lazily.
  - A stream is refused at the cap: the pool shuts it down, the line muxer only drops it.
  - A busy line passes the stream on, growing the list at its end.
  - A disconnected line is pruned.
  - The routing rule is stated once as a function and shared by both dispatchers. The per-stream 404/500 decisions are modelled as well.

A handler or a stream is identified by a number (`Handlers.HandlerId`, `Handlers.StreamId`); a matcher is a predicate on the parsed request (`Matchers.Matcher`). Strings are `seq<char>`, and the byte-level code is taken to see ASCII text only. The errors the core itself reports are `Result` values (`Wrappers`); errors of the socket itself are left out, as listed below.

Three behaviours of the trie as written are proved as they are, rather than assumed away:

- A non-empty remainder is dropped when a node's last child is a Terminal and no Passby sibling is ahead of it (`Tries.Drops`, `Tries.ExtensionOfTerminalDropped`).
- A Terminal inserted after Passby children is stored but never reached (`Tries.PrefixTerminalUnreachable`).
- A Terminal matches whatever is left of the path (`Tries.TerminalMatchesLongerPath`).

So the insertion property is stated with the dropped case made explicit (`Tries.AppendedRoutes`), and `get` is proved sound rather than complete.

## Model

| member | source | states |
|---|---|---|
| Text.Greater | src/server/http/trie.rs:131 | definition, no contract of its own: the string `>` of Rust, compared character by character |
| Text.StartsWith | src/server/http/trie.rs:100 | definition, no contract of its own: `starts_with`: the prefix is the first characters of the text |
| Text.IsWhitespace | src/server/http/req.rs:99-100 | definition, no contract of its own: `char::is_whitespace`, the Unicode White_Space characters |
| Text.GreaterIsLexicographic | src/server/http/trie.rs:129-134 | the string comparison of `is_ahead_of` is the lexicographic order: after a common prefix, one string goes on where the other stops or has a larger character |
| Text.GreaterIrreflexive | src/server/http/trie.rs:129-134 | no segment is ahead of itself |
| Text.Lcp | src/server/http/trie.rs:136-154 | the shared length: both strings agree on that many characters, and then one ends or the two differ |
| Text.LcpUnique | src/server/http/trie.rs:136-154 | the shared length is determined by that property |
| Text.TrimStart | src/server/http/req.rs:99-100 | `trim_start` keeps a suffix, drops only whitespace before it, and the suffix starts with a visible character |
| Text.TrimStartStep | src/server/http/req.rs:99-100 | dropping one more leading whitespace character keeps that shape |
| Text.TrimEnd | src/server/http/req.rs:99-100 | `trim_end` keeps a prefix, drops only whitespace after it, and the prefix ends in a visible character |
| Text.TrimEndStep | src/server/http/req.rs:99-100 | dropping one more trailing whitespace character keeps that shape |
| Text.Trim | src/server/http/req.rs:99-100 | what `trim` leaves starts and ends with a visible character |
| Text.TrimEnds | src/server/http/req.rs:99-100 | trimming the end of a text that starts visible gives a text visible at both ends |
| Text.TrimBounds | src/server/http/req.rs:99-100 | trimming the front and then the back leaves a slice with only whitespace around it |
| Text.TrimSlice | src/server/http/req.rs:99-100 | `trim` is the slice of the text after its leading whitespace, with only whitespace after it |
| Text.TrimChars | src/server/http/req.rs:99-100 | trimming only removes characters |
| Text.SuffixChars | src/server/http/req.rs:99-100 | a suffix holds only characters of the whole |
| Text.PrefixChars | src/server/http/req.rs:99-100 | a prefix holds only characters of the whole |
| Text.Word | src/server/http/req.rs:31 | the longest whitespace-free prefix: it is followed by whitespace or the end |
| Text.Tokens | src/server/http/req.rs:31 | `split_whitespace` gives non-empty tokens without whitespace |
| Text.WordOfVisible | src/server/http/req.rs:31 | a text starting visible starts with a non-empty word |
| Text.WordsCons | src/server/http/req.rs:31 | a non-empty word in front of tokens gives tokens |
| Text.VisibleAppend | src/server/http/req.rs:31 | the visible characters of two texts joined are those of each, in order |
| Text.VisibleOfWhitespace | src/server/http/req.rs:31 | whitespace has no visible characters |
| Text.VisibleOfWord | src/server/http/req.rs:31 | a word is all visible |
| Text.VisibleTrimStart | src/server/http/req.rs:31 | leading whitespace holds no visible character |
| Text.TokensCoverVisible | src/server/http/req.rs:31 | splitting on whitespace loses exactly the whitespace: the tokens joined are the visible characters of the text |
| Text.TokensUnfold | src/server/http/req.rs:31 | the tokens are the first word of the trimmed text, then the tokens of what follows it |
| Text.ConcatCons | src/server/http/req.rs:31 | joining a word in front of tokens puts it in front of their join |
| Text.VisibleSplit | src/server/http/req.rs:31 | a text's visible characters are those of its first word, then those of what follows |
| Text.TokenOr | src/server/http/req.rs:41-47 | definition, no contract of its own: the next token of the request line, or "" when there is none, as the `if let Some(…) = iter.next()` defaults leave path and version |
| Text.IndexOf | src/server/http/req.rs:76-98 | the first position of a character (the line feed `read_line` stops at, the first ':' of `splitn(2, ":")`), or none exactly when it does not occur |
| Text.IndexOfUnique | src/server/http/req.rs:98 | the first occurrence is the one found |
| Text.DigitChar | src/server/http/res.rs:45-46 | a digit below ten is the character of that value |
| Text.Decimal | src/server/http/res.rs:45-46 | the decimal form of a number is a non-empty run of digits without a leading zero |
| Text.DecimalRoundTrip | src/server/http/res.rs:45-46 | reading the decimal form back gives the number |
| Text.TrimTrimmed | src/server/http/req.rs:99-100 | a text visible at both ends is its own trim, also after a leading space |
| Text.TrimStartKeeps | src/server/http/req.rs:99-100 | a text starting visible has nothing to trim at the front |
| Text.TrimEndKeeps | src/server/http/req.rs:99-100 | a text ending visible has nothing to trim at the back |
| Text.TrimStartSpace | src/server/http/req.rs:99-100 | a leading space is trimmed away |
| Text.WordOf | src/server/http/req.rs:31 | the first word of a word followed by whitespace is that word |
| Text.TokensCons | src/server/http/req.rs:31 | a word in front of whitespace is the first token |
| Text.TokensSpace | src/server/http/req.rs:31 | a leading space does not change the tokens |
| Text.TokensOfWordSpace | src/server/http/req.rs:31 | a word followed by one space is the first token of what follows |
| Text.TokensOfWord | src/server/http/req.rs:31 | a single word is its only token |
| Text.TokensOfTwo | src/server/http/req.rs:31 | two words separated by one space split into those words |
| Text.TokensOfThree | src/server/http/req.rs:31 | three words separated by single spaces split into those words |
| Methods.Less | src/server/http/method.rs:5 | definition, no contract of its own: `<` of the derived `PartialOrd`, by declaration position |
| Methods.DefaultMethod | src/server/http/method.rs:26-28 | definition, no contract of its own: `Method::default()` is UNKNOWN |
| Methods.DerivedOrder | src/server/http/method.rs:5-12 | the derived ordering is the declaration chain GET < POST < PUT < DELETE < UNKNOWN and a strict total order |
| Methods.FromStr | src/server/http/method.rs:14-24 | each of the four names gives its variant (both directions) and every other string gives UNKNOWN |
| Methods.ToStr | src/server/http/method.rs:30-40 | each variant prints as one of the five names, and parsing the printed name gives the variant back |
| Matchers.AllHold | src/server/http/matcher.rs:75-84 | definition, no contract of its own: the matchers of a chain tried front to back, stopping at the first that fails |
| Matchers.AllHoldIff | src/server/http/matcher.rs:75-84 | walking the chain front to back holds exactly when every matcher of the chain holds |
| Matchers.Combine | src/server/http/matcher.rs:75-84 | the combined matcher holds for a request exactly when every matcher of the chain holds for it |
| Matchers.RunCombined | src/server/http/matcher.rs:76-83 | the loop of the combined matcher gives the combined verdict; it calls every matcher when all hold and stops at the first that fails, all before it having held |
| Matchers.FirstMatchFrom | src/server/http/matcher.rs:66-71 | the index found holds and none before it from the start index does; no index means no filter from there holds |
| Matchers.Dispatch | src/server/http/matcher.rs:62-73 | an exact (method, path) entry wins; without one the handler is that of the first filter that holds; no handler means no filter holds |
| Matchers.FirstMatchFromFinds | src/server/http/matcher.rs:66-71 | the search finds the first filter that holds whenever it starts at or before it |
| Matchers.DispatchFirstFilter | src/server/http/matcher.rs:62-73 | without an exact entry, the first filter that holds decides the handler |
| Matchers.Muxer.constructor | src/server/http/matcher.rs:29-33 | a new dispatcher has no filters and an empty table |
| Matchers.Muxer.AddHandler | src/server/http/matcher.rs:57-60 | the table entry for (method, path) is set, replacing an earlier one, and the filters are unchanged |
| Matchers.Muxer.AddHandlerFromMatchers | src/server/http/matcher.rs:44-55 | exactly one filter is appended: a chain of one matcher kept as it is, a longer chain combined; the table is unchanged |
| Matchers.Muxer.Filter | src/server/http/matcher.rs:36-42 | a new chain holding just that matcher, attached to this dispatcher |
| Matchers.Muxer.GetHandler | src/server/http/matcher.rs:62-73 | the loop returns what Dispatch says; no matcher is evaluated on an exact hit, otherwise the filters up to and including the first that holds, or all of them |
| Matchers.MatchChain.constructor | src/server/http/matcher.rs:87-90 | the chain holds the given matchers and dispatcher |
| Matchers.MatchChain.Filter | src/server/http/matcher.rs:94-101 | the matcher goes at the end of the chain and the same chain is handed back |
| Matchers.MatchChain.Handle | src/server/http/matcher.rs:102-105 | the whole chain becomes one filter at the end of the dispatcher's list; the table is unchanged |
| Matchers.DispatchScenario | src/server/http/matcher.rs:120-185 | with the tests' dispatcher, POST /login takes the table entry, GET /hi the two-matcher chain, and GET /haha finds nothing |
| Matchers.DispatchStatuses | src/server/http/matcher.rs:125-185 | running the handler found for POST /login sets the status "bad login", and for GET /hi "Hello", as the tests assert |
| Lines.ErrorText | src/server/line/line.rs:22-29 | both error texts begin with "SendError:" |
| Lines.ErrorTextInjective | src/server/line/line.rs:22-29 | the two texts are equal exactly when the errors are, so the text tells the errors apart |
| Lines.Readiness | src/server/line/line.rs:57-64 | `try_send` accepts exactly when the receiver is there and fewer than two items wait, and answers Disconnected exactly when the receiver is gone; otherwise LineBusy |
| Lines.Streams | src/server/line/line.rs:40-50 | a run of channel items holds no more streams than items |
| Lines.StreamsMembers | src/server/line/line.rs:40-50 | a stream is among those in the channel exactly when it was queued and not yet taken |
| Lines.StreamsSnoc | src/server/line/line.rs:57-64 | a stream sent at the back of the channel comes out last |
| Lines.StreamsSentinel | src/server/line/line.rs:69-75 | the sentinel adds no stream to what the worker will handle |
| Lines.Line.constructor | src/server/line/line.rs:37-55 | a new line has an empty channel, a live worker, and has accepted and handled nothing |
| Lines.Line.Valid | src/server/line/line.rs:31-64 | definition, no contract of its own: the channel holds at most two items, the sentinel only last and only after `Drop`, a closed channel is empty, and every accepted stream was handled, lost or is still waiting, in order |
| Lines.Line.Answer | src/server/line/line.rs:57-63 | definition, no contract of its own: what `try_send` would answer now, by `Readiness` of the buffer length and the closed flag |
| Lines.Line.Send | src/server/line/line.rs:57-64 | accepted exactly when `try_send` answers nothing, the stream then queued at the back; refused with the same stream and the reason otherwise, nothing changed; the channel invariant is kept |
| Lines.Line.WorkerStep | src/server/line/line.rs:39-51 | the worker takes the oldest item: a stream is handled in arrival order, the sentinel ends the worker and the receiver |
| Lines.Line.WorkerStops | src/server/line/line.rs:39-51 | a worker that ends without the sentinel leaves the receiver gone and the waiting streams lost |
| Lines.Line.Drop | src/server/line/line.rs:69-75 | the sentinel is queued when there is room; with a full buffer the blocking send waits; with the receiver gone the failure is only logged |
| Lines.BusyScenario | src/server/line/line.rs:119-149 | one stream held by the worker and two queued fill the line, the fourth is refused as LineBusy, and once the worker takes one a fifth is accepted |
| Lines.OrderScenario | src/server/line/line.rs:39-51 | a line handles what it is sent in order, and dropping it ends the worker after the last stream |
| Lines.DisconnectedScenario | src/server/line/line.rs:57-64 | once the worker has ended, a send is refused as Disconnected with its stream handed back |
| LinePools.RouteFrom | src/server/line/line_pool.rs:68-88 | definition, no contract of its own: `send_to_line(s, idx)` on what each line answers: delivered at the first accepting line, a busy line passes on (growing the list when it is the last), a disconnected line is removed and the same index retried, and past the end the index panic |
| LinePools.Handling | src/server/line/line_pool.rs:23-36 | definition, no contract of its own: `handle`: an empty pool is handled as one fresh line, a pool at its cap is Full, otherwise `RouteFrom` from index 0 |
| LinePools.RunsOffTheEnd | src/server/line/line_pool.rs:68-88 | the retry runs off the end of the list (the index panic of the source) exactly when no line from the index on accepts and the last line left is disconnected or none is left; it never reports the pool full |
| LinePools.HandlingRoutes | src/server/line/line_pool.rs:23-36 | a pool with lines below its cap is routed from its first line and never comes out full |
| LinePools.RouteShape | src/server/line/line_pool.rs:68-88 | a retry keeps the lines before the index, keeps the rest in order, removes only disconnected lines, adds at most the one fresh line, and delivers to an accepting line past busy lines only |
| LinePools.RemovedShaped | src/server/line/line_pool.rs:80-83 | removing one line keeps the remaining lines in their order |
| LinePools.BusyLastShape | src/server/line/line_pool.rs:74-78 | a busy last line makes the pool grow by a fresh line, which takes the stream |
| LinePools.BusyShape | src/server/line/line_pool.rs:74-78 | passing a busy line that is not the last keeps what the rest of the retry promises |
| LinePools.RemovedMembers | src/server/line/line_pool.rs:80-83 | `lines.remove(idx)` loses that line and no other, and adds none |
| LinePools.DisconnectedShape | src/server/line/line_pool.rs:80-83 | removing a disconnected line and retrying the same index keeps what the rest of the retry promises |
| LinePools.HandlingBound | src/server/line/line_pool.rs:23-36 | with a cap of at least one, handling a stream adds at most one line and never takes the pool past its cap |
| LinePools.OneLineCapRefuses | src/server/line/line_pool.rs:23-36 | with a cap of one every stream finds the pool full, the first one included |
| LinePools.CapRoutes | src/server/line/line_pool.rs:27-32 | a pool at its cap is found full and keeps its lines as they are |
| LinePools.Answers | src/server/line/line_pool.rs:69 | one answer per line, each what that line's `send` would answer now |
| LinePools.Offer | src/server/line/line_pool.rs:69-70 | sending to line `idx` changes that line at most: accepted exactly when it answers nothing, and the stream is then delivered there |
| LinePools.Grow | src/server/line/line_pool.rs:62-66 | `add_new_line` keeps the old lines and adds one new, empty, live line at the back |
| LinePools.Prune | src/server/line/line_pool.rs:80-81 | `lines.remove(idx)` leaves the other lines in order and untouched, and drops the removed line |
| LinePools.TracksItself | src/server/line/line_pool.rs:34 | the pool as it stands stands for its own places |
| LinePools.TracksRouted | src/server/line/line_pool.rs:68-88 | lines that stand for their places are routed over those places |
| LinePools.SendFrom | src/server/line/line_pool.rs:68-88 | `send_to_line(s, idx)` ends with the lines and outcome `RouteFrom` gives: kept lines are the same objects, an added line is new, the line that took the stream has it at the back of its buffer, and every other kept line is untouched |
| LinePools.PassBusy | src/server/line/line_pool.rs:74-79 | a busy line passes the stream to the next index, with the same guarantee as SendFrom |
| LinePools.PassToNewLine | src/server/line/line_pool.rs:75-78 | a busy last line adds a line at the back and retries there, with the same guarantee as SendFrom |
| LinePools.PassDisconnected | src/server/line/line_pool.rs:80-84 | a disconnected line is removed and the same index retried, with the same guarantee as SendFrom |
| LinePools.DisconnectedRouted | src/server/line/line_pool.rs:80-84 | routing after removing a disconnected line is the routing of the whole list |
| LinePools.GrownTracks | src/server/line/line_pool.rs:75-77 | a new line at the back stands for the fresh place |
| LinePools.GrownShaped | src/server/line/line_pool.rs:75-77 | the fresh place after the old last line keeps the places in order |
| LinePools.PrunedTracks | src/server/line/line_pool.rs:80-83 | removing a line together with its place keeps every line standing for its place |
| LinePools.OwnedRemoval | src/server/line/line_pool.rs:80-81 | removing one line keeps the rest distinct and live |
| LinePools.LinePool.constructor | src/server/line/line_pool.rs:15-21 | a new pool has no lines, an empty dispatcher and the given cap |
| LinePools.LinePool.AddNewLine | src/server/line/line_pool.rs:62-66 | the old lines stay and one new, empty line goes at the back |
| LinePools.LinePool.Handle | src/server/line/line_pool.rs:23-36 | the outcome and the resulting lines are what `Handling` gives for what the lines answer now; only the line that took the stream changes; a stream that finds the pool full is shut down and no other is |
| LinePools.LinePool.ShutDown | src/server/line/line_pool.rs:29-32 | the stream is recorded as shut down; lines and dispatcher stay |
| LinePools.LinePool.SendToLine | src/server/line/line_pool.rs:68-88 | below the cap, the lines are tried from the first as `RouteFrom` says, the outcome is never Full, and nothing is shut down |
| LinePools.EmptyPoolHandling | src/server/line/line_pool.rs:24-26 | an empty pool is handled as a pool of one fresh line |
| LinePools.AnswerNumbers | src/server/line/line_pool.rs:49-54 | the decimal forms of the status codes and lengths of the pool's own answers |
| LinePools.NotFoundText | src/server/line/line_pool.rs:53-54 | the 404 answer is the status line "HTTP/1.x 404 Not Found", a Content-Length of 9, a blank line and the body "Not Found" |
| LinePools.EmptyResponseText | src/server/line/line_pool.rs:48-51 | the 500 answer is the status line "HTTP/1.x 500 Empty Response", a Content-Length of 14, a blank line and the body "Empty Response" |
| LinePools.Conclude | src/server/line/line_pool.rs:46-58 | without a handler the 404 answer is written; a handler that answers writes its own answer; a handler that does not answer is covered by the 500 answer |
| LinePools.ServeStream | src/server/line/line_pool.rs:38-60 | a request that fails to parse ends the closure with that error and writes nothing; otherwise the dispatcher's verdict picks the 404 answer, the handler's answer or the 500 answer |
| LineMuxers.LineMuxer.constructor | src/server/line/line_muxer.rs:19-25 | a new muxer has no lines, an empty dispatcher and the given cap |
| LineMuxers.LineMuxer.AddNewLine | src/server/line/line_muxer.rs:61-65 | the old lines stay and one new, empty line goes at the back |
| LineMuxers.LineMuxer.Handle | src/server/line/line_muxer.rs:27-37 | the same routing as the pool's (`Handling`); at the cap the stream is dropped, and so closed, but not shut down |
| LineMuxers.LineMuxer.SendToLine | src/server/line/line_muxer.rs:67-87 | below the cap, the lines are tried from the first as `RouteFrom` says and the outcome is never Full |
| LineMuxers.MuxerNotFoundText | src/server/line/line_muxer.rs:52-53 | the muxer's 404 answer has the status text "Not Found." with a full stop and the body "Not Found" of 9 bytes |
| LineMuxers.Conclude | src/server/line/line_muxer.rs:47-55 | without a handler the 404 answer is written; a handler that does not answer leaves nothing written, with no 500 fallback |
| LineMuxers.ServeStream | src/server/line/line_muxer.rs:39-59 | a request that fails to parse ends the closure with that error and writes nothing; otherwise the dispatcher's verdict picks the 404 answer or whatever the handler writes |
| LinePools.Iota | src/server/line/line_pool.rs:68-88 | the places 0 to n - 1 of the lines, in order |
| Requests.ReadLine | src/server/http/req.rs:76 | `read_line` splits the stream into a piece and the rest: the piece holds no line feed before its end, ends in one when the stream goes on, and is the whole stream when it has no line feed |
| Requests.Accumulate | src/server/http/req.rs:82-92 | a successful read is the stream up to a CRLF, which is dropped, and the stream after it |
| Requests.NewLine | src/server/http/req.rs:74-93 | a successful `read_new_line` returns text that, with CRLF and the rest of the stream after it, is the stream |
| Requests.ReadNewLine | src/server/http/req.rs:74-93 | the loop of `read_new_line` (first piece shorter than two, the 4096 limit checked before each further read) gives what NewLine gives |
| Requests.AccumulateStopsAtFirstCrlf | src/server/http/req.rs:82-89 | the loop stops at the first CRLF of the stream, so the line it returns holds none |
| Requests.NewLineIsFirstLine | src/server/http/req.rs:74-93 | a successful read returns exactly the stream up to its first CRLF |
| Requests.NewLineOfLine | src/server/http/req.rs:74-93 | a line without a line feed followed by CRLF is read back exactly, and reading resumes after the CRLF |
| Requests.NewLineTooShort | src/server/http/req.rs:78-80 | a first piece of fewer than two characters is refused as invalid data with the source's message |
| Requests.NewLineTooLong | src/server/http/req.rs:83-85 | more than 4096 characters without a line feed fail on the length limit with the source's message |
| Requests.SplitHeaderLine | src/server/http/req.rs:95-103 | the key holds no ':' and neither part has whitespace at its ends |
| Requests.SplitAtFirstColon | src/server/http/req.rs:95-103 | without a ':' the trimmed line is the key and the value is empty; otherwise the line splits at its first ':' and both parts are trimmed |
| Requests.SplitFieldLine | src/server/http/req.rs:95-103 | a `key: value` line splits at the colon right after the key |
| Requests.TrimField | src/server/http/req.rs:99-100 | a key and a value with no whitespace at their ends survive the trimming |
| Requests.SplitHeaderLineOfField | src/server/http/req.rs:95-103 | a header written `key: value` with a clean key and value splits back into them |
| Requests.ParseHeaders | src/server/http/req.rs:54-63 | reading headers only adds keys to the map |
| Requests.Fields | src/server/http/req.rs:59 | one field per header line |
| Requests.ParseHeadersOfLines | src/server/http/req.rs:54-63 | non-empty header lines ended by an empty line are split and stored in order, and the stream after the empty line is what is left |
| Requests.Store | src/server/http/req.rs:61 | definition, no contract of its own: `headers.insert` of each field in order |
| Requests.StoreLastWins | src/server/http/req.rs:61 | a key's value is that of the last header line with that key |
| Requests.StoreKeeps | src/server/http/req.rs:61 | a key no header line sets keeps its value |
| Requests.StoreKeys | src/server/http/req.rs:61 | the map holds the old keys and exactly the keys the lines set |
| Requests.Parse | src/server/http/req.rs:22-52 | a parsed request never has the method UNKNOWN |
| Requests.ParseFirstLine | src/server/http/req.rs:30-47 | a first line with no token, or an unknown method, is refused with the source's messages; a parsed request takes its method, path and version from the first three tokens, with "" for one that is missing |
| Requests.New | src/server/http/req.rs:22-52 | `Req::new` step by step gives what Parse gives |
| Requests.ReadHeaders | src/server/http/req.rs:54-63 | `parse_headers`, recursive as in the source, gives what ParseHeaders gives |
| Requests.FieldsOf | src/server/http/req.rs:59 | lines whose splits are given fields give exactly those fields |
| Requests.FieldLines | src/server/http/req.rs:95-103 | one `key: value` line per field |
| Requests.FieldsOfFieldLines | src/server/http/req.rs:95-103 | clean fields written as header lines split back into the same fields |
| Requests.SplitLineOfField | src/server/http/req.rs:95-103 | one clean field written as a line splits back into itself |
| Requests.StoreOfThree | src/server/http/req.rs:54-63 | three header lines write the map in order |
| Requests.ParseOfParts | src/server/http/req.rs:22-63 | a first line with a known method, then header lines and an empty line, parse to that line's tokens, the stored headers and everything after as the body |
| Requests.Regroup | src/server/http/req.rs:22-63 | the request text read as the first line, a CRLF and the rest |
| Requests.ParseOfReads | src/server/http/req.rs:22-52 | a first line with a known method and headers that read without error make the request |
| Responses.StatusLine | src/server/http/res.rs:45 | definition, no contract of its own: version, space, code in decimal, space, status text, CRLF |
| Responses.HeaderBlock | src/server/http/res.rs:46-49 | definition, no contract of its own: the `Content-Length` line with the body's length, then one `key: value` line per key in the given order |
| Responses.Response | src/server/http/res.rs:45-51 | definition, no contract of its own: status line, header block, an empty line and the body |
| Responses.Entries | src/server/http/res.rs:47-49 | one (key, value) line per key, in the iteration order given |
| Responses.ResponseParts | src/server/http/res.rs:45-51 | the response is its status line, its header block, an empty line and the body, in that order |
| Responses.CrlfLinesSnoc | src/server/http/res.rs:47-49 | writing one more header line appends that line and its CRLF |
| Responses.BlockOfOne | src/server/http/res.rs:46 | one field makes one CRLF-ended `key: value` line |
| Responses.HeaderBlockStart | src/server/http/res.rs:46 | before any map entry the block holds the `Content-Length` line alone, with the body's length in decimal |
| Responses.HeadFieldsStart | src/server/http/res.rs:46 | with no map entry, `Content-Length` is the only field |
| Responses.HeaderBlockSnoc | src/server/http/res.rs:47-49 | the block of the first i + 1 entries is that of the first i and one more line |
| Responses.StoreEntries | src/server/http/res.rs:47-49 | storing the map's entries, in any order without repeated keys, overrides the base map with them |
| Responses.EntriesTail | src/server/http/res.rs:47-49 | the entries are the first key's and then those of the rest |
| Responses.StoreStep | src/server/http/req.rs:61 | storing fields stores the first one and then the rest |
| Responses.RestrictStep | src/server/http/res.rs:47-49 | the entries of the listed keys are the first key's added to those of the rest |
| Responses.OverrideStep | src/server/http/res.rs:47-49 | an entry set before an override that lacks its key survives |
| Responses.StoreHeadFields | src/server/http/res.rs:46-49 | read back in order, the fields set `Content-Length` and every map entry; a map entry named `Content-Length` comes later and wins |
| Responses.HeadFieldsSplit | src/server/http/res.rs:46-49 | `Content-Length` comes first, then the map's entries |
| Responses.RestrictAll | src/server/http/res.rs:47-49 | the entries of every key are the whole map |
| Responses.DecimalClean | src/server/http/res.rs:46 | the length value is a clean header value without line feeds |
| Responses.StatusLineReadBack | src/server/http/res.rs:45 | the status line is the first line the request reader reads back |
| Responses.HeadFieldsWritable | src/server/http/res.rs:46-49 | every field a response writes is one the request reader splits back unchanged |
| Responses.HeadFieldWritable | src/server/http/res.rs:46-49 | each field of a response is clean and free of line feeds |
| Responses.LineWritable | src/server/http/res.rs:48 | the line of a field without line feeds is non-empty and has none either |
| Responses.ParseFieldLines | src/server/http/res.rs:46-50 | writable fields written as lines and an empty line read back, in order, into the map |
| Responses.ReadBackGeneric | src/server/http/res.rs:46-50 | a text of writable field lines, an empty line and the rest reads back as the stored fields |
| Responses.HeaderBlockReadBack | src/server/http/res.rs:46-51 | the header block reads back as `Content-Length` and the map, leaving the body |
| Responses.ResponseReadBack | src/server/http/res.rs:41-56 | the text `respond` writes reads back with the request reader as its status line, then a map of `Content-Length` and every entry of the response's map, then the body |
| Responses.Regroup | src/server/http/res.rs:45-51 | the response text read as its status line followed by the rest |
| Responses.KeysInSomeOrder | src/server/http/res.rs:47 | the keys of the map, each once, in an order left open as a `HashMap` leaves it |
| Responses.WriteHeaderBlock | src/server/http/res.rs:46-49 | the loop over the map writes `Content-Length`, then one line per key in that order |
| Responses.WriteResponse | src/server/http/res.rs:45-51 | the writes one after another give the whole response text |
| Responses.OrderingEmpty | src/server/http/res.rs:47 | an iteration order is empty exactly when the map is |
| Responses.PlainResponse | src/server/http/res.rs:45-51 | a response with no headers writes the status line, the length line, an empty line and the body |
| Responses.Res.constructor | src/server/http/res.rs:21-30 | version "HTTP/1.x", status 200 "OK", no headers, not responded |
| Responses.Res.SetHeader | src/server/http/res.rs:32-34 | the key now maps to the value and the earlier value, if any, is returned; nothing else changes |
| Responses.Res.SetStatus | src/server/http/res.rs:36-39 | code and text are replaced; nothing else changes |
| Responses.Res.Respond | src/server/http/res.rs:41-56 | a second call fails with "HTTP Already responded" and writes nothing; the first writes the whole response for some iteration order of the map and marks it sent |
| Responses.Res.Emit | src/server/http/res.rs:45-53 | the text goes at the end of what was written and the response is marked sent |
| ResponseSamples.SampleNumbers | src/server/http/trie.rs:242 | the decimal forms of 200 and 17 |
| ResponseSamples.RespondScenario | src/server/http/trie.rs:238-242 | the trie test's handler writes "HTTP/1.x 200 OK", a Content-Length of 17, an empty line and "sample handler #2" |
| ResponseSamples.RespondTwiceScenario | src/server/http/res.rs:41-44 | answering twice fails with "HTTP Already responded" and writes nothing more |
| RequestSamples.SampleTokens | src/server/http/req.rs:112 | the test's request line splits into "GET", "/index.html", "HTTP/1.1" |
| RequestSamples.SampleHeaders | src/server/http/req.rs:112 | the test's header lines store the three-entry map |
| RequestSamples.SampleLines | src/server/http/req.rs:112 | no line of the test's request has a line feed, and no header line is empty |
| RequestSamples.SampleRequest | src/server/http/req.rs:112-127 | the test's request parses to GET "/index.html" "HTTP/1.1", its three headers and the body "Hello" |
| RequestSamples.SampleParsed | src/server/http/req.rs:112-127 | the parsed tokens stand for GET "/index.html" "HTTP/1.1" |
| RequestSamples.SampleHeaderMapHasHost | src/server/http/req.rs:122-126 | the map has exactly three keys, Host among them, with Host mapped to "www.xiwen.com" |
| Tries.IsAheadOf | src/server/http/trie.rs:129-134 | true exactly for a Passby whose segment sorts strictly after the target; a Terminal is never ahead |
| Tries.TerminalSlotFrom | src/server/http/trie.rs:23-35 | the scan stops at the first Terminal of the same method (to replace it) or of a smaller method (to insert before it); every Terminal it passes is of another, larger method |
| Tries.PushSwapRemove | src/server/http/trie.rs:36-39 | pushing and then `swap_remove(i)` replaces the child at `i` in place |
| Tries.BranchFrom | src/server/http/trie.rs:49-68 | the scan over the Passbys for a non-empty remainder: insert where a Passby is ahead of it or at the end after a last Passby, descend into or split a child sharing a prefix, or choose nothing when the last child is a Terminal |
| Tries.BehindStep | src/server/http/trie.rs:60-67 | a child passed over extends the range already passed |
| Tries.SplitNode | src/server/http/trie.rs:69-80 | a split keeps the shared part over one child holding the rest of the segment and the old grandchildren |
| Tries.Appended | src/server/http/trie.rs:20-95 | `append` keeps a Passby a Passby with the same segment, and leaves a Terminal alone |
| Tries.SharedChars | src/server/http/trie.rs:136-154 | the loop counts the shared length and leaves both iterators just after it |
| Tries.AppendTerminal | src/server/http/trie.rs:22-48 | the loop over the children and the three outcomes give the children that `WithTerminal` describes |
| Tries.PopTo | src/server/http/trie.rs:78-80 | popping `len - shared` characters leaves the first `shared` |
| Tries.Append | src/server/http/trie.rs:20-95 | the recursive, in-place insertion gives the node that `Appended` describes |
| Tries.WithTerminal | src/server/http/trie.rs:22-48 | definition, no contract of its own: the children after `append("", m, h)`: the scan's slot decides replace in place, insert before, or push at the end |
| Tries.Drops | src/server/http/trie.rs:49-92 | definition, no contract of its own: the insertion of a remainder ends at a scan that chooses no index, so nothing is inserted |
| Tries.WellFormed | src/server/http/trie.rs:20-95 | definition, no contract of its own: at every node the Terminals are in strictly descending method order and the Passby segments are non-empty with strictly ascending first characters |
| Tries.WithTerminalReplaces | src/server/http/trie.rs:36-39 | a Terminal of the same method that the scan reaches is replaced where it stands |
| Tries.SlotFindsTerminal | src/server/http/trie.rs:25-35 | under descending order, the scan finds the Terminal of the method |
| Tries.WithTerminalKeepsOrder | src/server/http/trie.rs:22-48 | the Terminals stay in strictly descending method order, and the new one is there |
| Tries.WithTerminalAdds | src/server/http/trie.rs:41-47 | without a Terminal of the method, the new one is added and every old child kept |
| Tries.WithTerminalKeepsPassbys | src/server/http/trie.rs:22-48 | a new Terminal leaves the Passbys as they were, in order |
| Tries.InsertBeforeKeepsOrder | src/server/http/trie.rs:41-42 | a Terminal inserted before the first smaller method keeps the order |
| Tries.AtEndKeepsOrder | src/server/http/trie.rs:46 | a Terminal pushed after only larger methods keeps the order |
| Tries.Passbys | src/server/http/trie.rs:54-56 | the Passby children, each one a child, and every Passby child among them |
| Tries.PassbysConcat | src/server/http/trie.rs:54-56 | the Passbys of two lists joined are those of each |
| Tries.PassbysConcat3 | src/server/http/trie.rs:54-56 | the same for three lists |
| Tries.InsertTerminalKeepsPassbys | src/server/http/trie.rs:41-47 | a Terminal put anywhere keeps the Passbys ascending |
| Tries.ReplacePassbyKeepsOrders | src/server/http/trie.rs:71-83 | a Passby replaced by one with the same first character keeps both orders |
| Tries.InsertBranchKeepsOrders | src/server/http/trie.rs:87-91 | the new branch, inserted where the scan says, keeps both orders |
| Tries.BranchInsertPlace | src/server/http/trie.rs:60-66 | the Passbys before the insertion point start lower than the remainder, the child at it starts higher |
| Tries.FirstCharBelow | src/server/http/trie.rs:60-61 | two strings sharing no first character, the first not greater, have the first starting lower |
| Tries.InsertPassbyKeepsTerminals | src/server/http/trie.rs:87-91 | a Passby inserted anywhere keeps the Terminals' order |
| Tries.InsertPassbyKeepsAscending | src/server/http/trie.rs:87-91 | a Passby inserted between the lower and the higher keeps the first characters ascending |
| Tries.WithTerminalWellFormed | src/server/http/trie.rs:22-48 | inserting a Terminal keeps a well-formed node well formed |
| Tries.TerminalAtWellFormed | src/server/http/trie.rs:41-47 | so does a Terminal put at any place that keeps the Terminals' order |
| Tries.ReplaceTerminalWellFormed | src/server/http/trie.rs:36-39 | so does replacing a Terminal in place |
| Tries.InsertBranchWellFormed | src/server/http/trie.rs:87-91 | so does inserting the new branch where the scan says |
| Tries.ReplaceChildWellFormed | src/server/http/trie.rs:69-83 | so does replacing a Passby child by a well-formed one with the same first character |
| Tries.AppendedWellFormed | src/server/http/trie.rs:20-95 | `append` keeps every node well formed: Terminals in descending method order, Passby segments non-empty with strictly ascending first characters |
| Tries.RoutesOfConcat | src/server/http/trie.rs:20-95 | the routes of two child lists joined are the union of theirs |
| Tries.RoutesOfAround | src/server/http/trie.rs:20-95 | the routes of a list are those before, at and after a child |
| Tries.RoutesOfInsert | src/server/http/trie.rs:42-90 | a child inserted adds its routes |
| Tries.RoutesOfUpdate | src/server/http/trie.rs:38-83 | a child replaced: the other children's routes stay |
| Tries.SplitKeepsRoutes | src/server/http/trie.rs:69-80 | splitting a Passby keeps its routes |
| Tries.RoutesOfMember | src/server/http/trie.rs:20-95 | a child's routes are among the list's |
| Tries.ReplacedRoutes | src/server/http/trie.rs:71-84 | adding a route below one child adds it to the list |
| Tries.AppendedRoutes | src/server/http/trie.rs:20-95 | `append(remain, m, h)` adds the route `segment + remain` with `m` and `h`, replaces only a route of the same path and method, loses no other route, and changes nothing when the scan chooses no place |
| Tries.WithTerminalRoutes | src/server/http/trie.rs:22-48 | a Terminal inserted adds its route, replacing only a route of the same method there |
| Tries.NodeGet | src/server/http/trie.rs:97-127 | definition, no contract of its own: `get`: a Passby whose segment does not start the path gives nothing, else its children are searched with the rest; a Terminal answers for its own method only |
| Tries.ChildrenGet | src/server/http/trie.rs:107-116 | definition, no contract of its own: the loop over the children: stop at the first child ahead of the rest, otherwise the first child that finds a handler |
| Tries.Routes | src/server/http/trie.rs:10-14 | definition, no contract of its own: the routes a node stores: each Terminal below it with the segments on the way down as its path |
| Tries.RoutesOf | src/server/http/trie.rs:10-14 | definition, no contract of its own: the union of the routes of a list of children |
| Tries.NodeGetSound | src/server/http/trie.rs:97-127 | a handler `get` returns belongs to a stored route of that method whose path starts the requested path |
| Tries.ChildrenGetSound | src/server/http/trie.rs:107-116 | the same for the loop over the children |
| Tries.Trie.constructor | src/server/http/trie.rs:180-186 | the root is a Passby with the empty segment and no children |
| Tries.Trie.Insert | src/server/http/trie.rs:194-197 | the root becomes `Appended(root, p, m, h)`, stays well formed; the new route is added unless dropped, every other route is kept except one of the same path and method, and a dropped insertion changes no route |
| Tries.Trie.Get | src/server/http/trie.rs:199-201 | a handler returned belongs to a stored route of that method whose path starts `p` |
| Tries.NewBranch | src/server/http/trie.rs:88-89 | a new branch is the remainder over its one Terminal |
| Tries.FreshAppended | src/server/http/trie.rs:20-95 | a fresh root after one insertion holds a Terminal or one new branch |
| Tries.WhatSplitsWhenWhere | src/server/http/trie.rs:229-232 | inserting GET "what" into the test's tree splits "whe" into "wh" over "e" and puts "at" before "e" |
| Tries.WhatFound | src/server/http/trie.rs:240 | after that, GET "what" finds handler 2 |
| Tries.WhenFound | src/server/http/trie.rs:266-288 | GET "when" still finds handler 0 |
| Tries.WhereFound | src/server/http/trie.rs:266-288 | POST "where" still finds handler 1 |
| Tries.EreFound | src/server/http/trie.rs:266-288 | below "wh", POST "ere" reaches the Terminal under "re" |
| Tries.WowowNotFound | src/server/http/trie.rs:254-258 | "/wowow" is not found in the test's tree |
| Tries.FreshInsertFound | src/server/http/trie.rs:246-252 | on a fresh trie, any path inserted is found with its method and handler |
| Tries.InsertThenGet | src/server/http/trie.rs:246-252 | `insert("hello/world")` then `get` finds the handler |
| Tries.ExtensionOfTerminalDropped | src/server/http/trie.rs:54-92 | "ab" after "a" changes nothing (the last child is a Terminal), and "ab" finds the handler of "a" |
| Tries.PrefixInsertions | src/server/http/trie.rs:69-84 | POST "a" after GET "ab" splits "ab" and puts the Terminal after "b" |
| Tries.PrefixTerminalUnreachable | src/server/http/trie.rs:37-116 | that route is stored but `get` misses it |
| Tries.PrefixTreeRoute | src/server/http/trie.rs:37-46 | the route POST "a" is stored |
| Tries.PrefixTreeMiss | src/server/http/trie.rs:107-116 | `get` stops at "b", ahead of "", and misses it |
| Tries.TerminalMatchesLongerPath | src/server/http/trie.rs:119-125 | a Terminal matches whatever is left of the path: "abc" finds the handler of "a" |
| RouteMaps.ByMethod | src/server/line/route_map.rs:26-36 | the handler goes at the back of its method's bucket; a new bucket for a method other than UNKNOWN also passes it to UNKNOWN; no other bucket changes |
| RouteMaps.ByPath | src/server/line/route_map.rs:38-48 | the same for paths, with "" as the fallback |
| RouteMaps.Common | src/server/line/route_map.rs:59-69 | never more handlers than the path bucket has |
| RouteMaps.CommonWhenAscending | src/server/line/route_map.rs:59-69 | on a bucket without repeats, the nested loops keep each path handler once when it is in the method bucket |
| RouteMaps.Matches | src/server/line/route_map.rs:59-69 | definition, no contract of its own: the nested loops of `find_matches`: for each handler of the first list, one copy per equal handler of the second |
| RouteMaps.Hits | src/server/line/route_map.rs:62-66 | definition, no contract of its own: the inner loop: one copy of `h1` per equal handler of the second list |
| RouteMaps.MatchesMembers | src/server/line/route_map.rs:59-69 | a handler is matched exactly when it is in both buckets |
| RouteMaps.HitsMembers | src/server/line/route_map.rs:62-66 | the inner loop pushes only `h1`, and only when it is in the method bucket |
| RouteMaps.HitsOnce | src/server/line/route_map.rs:62-66 | on a bucket without repeats, the inner loop pushes `h1` once or not at all |
| RouteMaps.RouteMap.constructor | src/server/line/route_map.rs:11-15 | no buckets and no registrations |
| RouteMaps.RouteMap.RegisterByMethod | src/server/line/route_map.rs:26-36 | the method buckets become `ByMethod`; the rest is unchanged |
| RouteMaps.RouteMap.RegisterByPath | src/server/line/route_map.rs:38-48 | the path buckets become `ByPath`; the rest is unchanged |
| RouteMaps.RouteMap.Register | src/server/line/route_map.rs:20-24 | a new handler identity, registered by its method and its path; every bucket stays ascending |
| RouteMaps.RouteMap.GetHandlers | src/server/line/route_map.rs:50-57 | nothing when either bucket is missing, else the path bucket's handlers that are in the method bucket |
| RouteMaps.ByMethodBelow | src/server/line/route_map.rs:20-36 | registering a new identity keeps the method buckets ascending and below the next one |
| RouteMaps.ByPathBelow | src/server/line/route_map.rs:20-48 | the same for the path buckets |
| RouteMaps.AppendedAscending | src/server/line/route_map.rs:28-40 | a bucket below `h` with `h` pushed is ascending and below `h + 1` |
| RouteMaps.RegisterAppendOnly | src/server/line/route_map.rs:26-48 | registration only appends: every old bucket is a prefix of its new one |
| RouteMaps.FindMatches | src/server/line/route_map.rs:59-69 | the nested loops give `Matches` |
| RouteMaps.ScenarioMethods | src/server/line/route_map.rs:90-95 | after the test's registrations, UNKNOWN holds both handlers and GET the second |
| RouteMaps.ScenarioPaths | src/server/line/route_map.rs:90-95 | "" holds both handlers and "/" the first |
| RouteMaps.ScenarioCommon | src/server/line/route_map.rs:110-114 | the three lookups of the test match [0, 1], [0] and [1] |
| RouteMaps.FirstRegistration | src/server/line/route_map.rs:88-92 | the first registration makes handler 0 |
| RouteMaps.ScenarioMap | src/server/line/route_map.rs:88-95 | the buckets after both registrations |
| RouteMaps.RouteMapScenario | src/server/line/route_map.rs:88-114 | the test's lookups give two handlers, one and one |
| RouteMaps.RunHandlers | src/server/line/route_map.rs:102-105 | running handlers that only set a status leaves the last one's status, and nothing else |
| RouteMaps.RouteMapStatuses | src/server/line/route_map.rs:88-114 | the test's statuses after each lookup are "hello", "wo" and "hello" |

## Left out

- src/logger.rs is not part of this model: every `trace!`, `debug!`, `warn!` and `error!` call is treated as doing nothing.
- src/server/server.rs, src/main.rs and src/lib.rs (the TCP accept loop, the port from the environment, the CPU count) are operating-system glue and are not modelled.
- src/server/http/serve_static.rs walks the filesystem; the only logic it has is a trie insertion, which `Tries.Trie.Insert` covers.
- src/server/http/headers.rs and src/server/http/mod.rs hold a constant and re-exports; "Content-Length" is written out where it is used.
- Threads, read and write timeouts: the worker thread of a line is not a thread but environment steps (`Lines.Line.WorkerStep`, `Lines.Line.WorkerStops`).
- `TcpStream::shutdown` and its errors: a stream refused at the cap is only recorded in the pool's `shut` list.
- `Arc<Mutex<…>>` handler cells and their locking: handlers are numbers, and a handler's behaviour is modelled by the body it answers with (`LinePools.ServeStream`, `LineMuxers.ServeStream`) and is taken to set no status or header before it answers, so its answer is a plain 200 "OK" text and the 500 fallback after a silent handler carries no header it set or, in route_map.rs, by the status it sets (`RouteMaps.RunHandlers`).
- `get_muxer` clones the dispatcher when a line is made, so each line keeps a snapshot and misses handlers registered later. The model has no per-line copy: it assumes the dispatcher is not changed once the first line exists, so every line serves with the muxer as it was then. `LinePools.ServeStream` and `LineMuxers.ServeStream` take that muxer as a parameter and are not tied to the pool's `httpMuxer` field.
- The empty `append2` stub and the `_print` functions in trie.rs do nothing the model could state.
- Bytes against characters: trie.rs compares a byte count with a character count when it shortens a segment, and req.rs slices by bytes; with ASCII text the two agree, and non-ASCII text is not modelled.
- At the end of input, `read_new_line` loops for ever when the text does not end in CRLF and is at most 4096 characters long; the model returns the `Endless` error there instead (`Requests.ReadNewLine`).
- A failing `read_line` on the socket (the `?` after each read, such as a reset connection) is not modelled: the stream is a finite text that always reads, so `Requests.NewLine`, `Requests.Parse` and the `ServeStream` methods fail only as the reader itself decides.
- Write and flush errors of `respond` (its `?` operators) are not modelled, nor are short writes, which `write` (not `write_all`) accepts silently: the writer is an output that only grows by the whole text.
- `Responses.Res.Respond`: the order in which a `HashMap` yields its headers is unspecified, so the contract holds for some order of the keys (`Responses.KeysInSomeOrder`), not a particular one.
- `Lines.Line.Drop`: the blocking `send(None)` on a full buffer is modelled as the `Waiting` answer rather than as blocking.
- The panic of `lines[idx]` when the last line is disconnected is modelled as the `OutOfRange` outcome (`LinePools.RouteFrom`).
- `Responses.Res.Status` and `Responses.Res.Responded` are plain getters of fields and carry no contract of their own.
- `RouteMaps.Common`: handler identity is compared by number, and the source's pointer comparison is taken to be that.
