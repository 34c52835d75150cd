# Shure device control, modelled in Dafny

This project models the core of a small set of tools for Shure wireless equipment. There are three of them:

- **ad4d.py** — a command-line client for the four-channel AD4D receiver.
- **p10t.py** — a command-line client for the two-channel P10T transmitter.
- **monitor.py** — a telemetry monitor. It keeps a socket open to either device, stores what the device reports in Redis hashes, writes journal records, and tells the service manager whether the device is reachable.

The model is split by concern:

- `text.dfy` (module `Text`) covers the Python string built-ins the tools rely on:
  - `str.strip`, `str.split`, `str.upper`, `str.isspace`;
  - substring tests;
  - the scanning helpers the regular expressions are rebuilt from.
- `exchange.dfy` (module `Exchange`) is the half of `send_command` that comes after the socket I/O. Both clients write it the same way:
  - the drain loop, over a sequence of receive events;
  - cutting the received text into frames on the reply keyword;
  - folding parsed frames into a two-level snapshot: device keys, then channel tables.
- `ad4d.dfy` and `p10t.dfy` (modules `Ad4d`, `P10t`) each cover one client:
  - its key registry;
  - `build_command`;
  - its reply parser (a regular expression in one client, a token split in the other);
  - the bulk request list;
  - single-key correlation;
  - the whole of `send_command`, as a function from a request and what the socket delivers to the text written and the value returned;
  - the checks `main` makes before it sends a `SET`.
- `monitor_frames.dfy` (module `MonitorFrames`) covers the four regular expressions of the monitor. Each is an explicit scan that reproduces what Python's `re.match` returns for that pattern, including the results that come from backtracking.
- `monitor.dfy` (module `Monitor`) covers the monitor itself. Its state is a `Monitor` class with four fields:
  - a Redis store, as hash → field → value;
  - the journal;
  - the text written to the socket;
  - the passive receive buffer.

  Each method of the class is proved against a reference function over a `Sink` value: `handle_response`, `handle_sample`, `process_raw_data`, `poll_command`, the polling loop, the line extraction loop and the passive read loop. The reconnect loop of `main`, with its de-duplicated status notifications, is a method proved against a reference function over a sequence of connection attempts.

The socket, the clock and the shutdown flag are parameters:

- a single exchange gets a sequence of receive events;
- the polling loop gets a sequence of poll outcomes;
- the passive loop gets a sequence of reads;
- the reconnect loop gets a sequence of attempts.

A finite sequence stands for the run up to the shutdown request.

Where the code and its documentation differ, the model follows the code:

- **Read-only keys and `SET`.** `main` refuses a `SET` only for the device-level read-only keys (ad4d.py:303, p10t.py:265). Channel read-only keys such as `RSSI` are therefore sent (`Ad4d.SetSendsChannelReadOnly`).
- **Braces in p10t replies.** The two-channel parser keeps braces around a value (`P10t.BracesKept`).
- **Crashes in passive mode.** The passive monitor calls `handle_response` with six arguments where it takes four (monitor.py:260). Every report line therefore raises `TypeError` and ends the session. This is modelled as the `Crashed` ending (`Monitor.ReportLineCrashes`). `main` catches it as "monitor crashed" (monitor.py:303-305).

## Model

| member | source | states |
|---|---|---|
| Text.Span | ad4d.py:109 | the length of the longest prefix accepted by the test: every character before it passes, the next one fails |
| Text.SpanConcat | ad4d.py:109 | a run that covers a whole first part continues into the second part |
| Text.TrimStart | p10t.py:80 | `lstrip`: the result is a suffix of the input, every dropped character passes the test, and the first kept one fails it |
| Text.TrimEnd | p10t.py:80 | `rstrip`: the result is a prefix of the input, every dropped character passes the test, and the last kept one fails it |
| Text.Strip | ad4d.py:113 | `strip()`: the result is the window that starts after the leading spaces, and it begins and ends with a non-space character |
| Text.StripDrops | ad4d.py:113 | everything `strip()` drops, before and after its window, is whitespace |
| Text.StripAround | ad4d.py:113 | a core that begins and ends with a non-space character, padded with whitespace on both sides, strips to exactly the core |
| Text.StripEmpty | ad4d.py:167 | `part.strip()` is empty exactly when the part is all whitespace |
| Text.StripKeeps | ad4d.py:119-120 | text with no space at either end is its own strip |
| Text.StripChars | p10t.py:80 | `strip("<> ")`: the result neither begins nor ends with a stripped character |
| Text.StripCharsAround | p10t.py:80 | stripping a core that is surrounded only by strippable characters gives the core |
| Text.TrimEndConcat | p10t.py:80 | trailing strippable characters are removed up to the last character that is kept |
| Text.WindowAvoids | ad4d.py:167 | a slice of a text without `sub` has no `sub` either |
| Text.AvoidsConcat | ad4d.py:167 | two texts without `sub` joined where `sub` cannot straddle the seam give a text without `sub` |
| Text.AvoidsForeign | ad4d.py:167 | a text of characters that do not occur in `sub` does not contain `sub` |
| Text.Find | ad4d.py:166 | the index of the first occurrence of the separator, or none when the text does not contain it |
| Text.FindFirst | ad4d.py:166 | an occurrence with none before it is the one Find returns |
| Text.Split | ad4d.py:166 | `split(sep)` gives at least one part, and no part contains the separator |
| Text.JoinSplit | ad4d.py:166 | joining the parts of a split with the separator gives back the text |
| Text.JoinEnds | p10t.py:80 | a joined text starts with its first part and ends with its last part |
| Text.Words | monitor.py:142 | `split()`: every part is a non-empty run of non-space characters |
| Text.WordsOfWord | monitor.py:142 | a word with trailing spaces splits into that one word |
| Text.WordsCons | monitor.py:142 | a word, a space and a remainder split into the word followed by the words of the remainder |
| Text.WordsOfJoin | p10t.py:80 | words joined with single spaces split back into the same words |
| Text.UpperChar | ad4d.py:95 | `upper()` on one character: `a`–`z` become the capital at the same place in the alphabet; other ASCII characters are unchanged; any other character is unchanged or becomes one to three capitals (`ß` → `SS`, the ligatures) |
| Text.Upper | ad4d.py:95 | `key.upper()` is never shorter than the key; on ASCII text it keeps the length, turns every `a`–`z` into its capital (code point minus 32) and keeps every other character |
| Text.UpperOfCaseVariant | ad4d.py:95 | a registry-style key typed with any of its letters in lower case upper-cases to the key |
| Text.KeyAt | ad4d.py:109 | a `[A-Z0-9_]+` key is a word, and upper-casing leaves it unchanged |
| Text.UpperKeepsKey | ad4d.py:97 | upper-casing leaves a registry-style key unchanged |
| Text.DigitChar | ad4d.py:123 | the digit that `int()` reads back as the number |
| Exchange.Drain | ad4d.py:150-162 | reference definition of the read window: chunks are concatenated until the window closes, the peer closes or a read times out; any other error replaces the result |
| Exchange.DrainSocket | ad4d.py:150-162 | the recv loop returns exactly Drain of the events |
| Exchange.DrainIgnoresLaterEvents | p10t.py:120-128 | nothing after the turn that stops the loop reaches the result |
| Exchange.DrainAllData | p10t.py:116-130 | a window that only ever sees data delivers every chunk, in order |
| Exchange.PrependTwice | ad4d.py:158 | appending two chunks one after the other is appending their concatenation |
| Exchange.Candidates | ad4d.py:164-168 | the frames kept from the split parts: each starts with the keyword and has a non-empty body, and there are no more frames than parts |
| Exchange.Frames | p10t.py:132-136 | every candidate frame of the received text starts with the reply keyword |
| Exchange.CandidateBodiesAvoidErr | ad4d.py:167 | with the `ERR` filter on, no kept frame body contains `ERR` |
| Exchange.StripAvoidsErr | ad4d.py:165-167 | stripping a part without `ERR` keeps it free of `ERR` |
| Exchange.NoErrAcrossSpace | ad4d.py:165 | `ERR` cannot straddle the keyword's trailing space and the body |
| Exchange.FramesOfStream | ad4d.py:164-168 | cutting a device's stream of well-formed replies gives back exactly its frames, keyword first, in order |
| Exchange.Framed | p10t.py:133 | each body with the keyword put back in front |
| Exchange.SplitStreamTail | ad4d.py:166 | splitting the rest of a reply stream on the keyword gives each body with its line end |
| Exchange.FindAfterSegment | ad4d.py:166 | the split finds the next keyword right after a segment that ends in a line feed |
| Exchange.SegmentAvoidsMarker | ad4d.py:166 | a body followed by CR LF contains no keyword |
| Exchange.CandidatesOfSegments | ad4d.py:164-168 | the leading empty part is dropped, and every good body survives the filter |
| Exchange.CandidatesKeep | ad4d.py:167 | a good body's line survives the filter as keyword plus body |
| Exchange.StripSegment | ad4d.py:165 | stripping a line drops exactly its CR LF ending |
| Exchange.Merged | ad4d.py:178-188 | reference definition of the bulk merge: the entries folded into an empty snapshot in arrival order, device entries into the top-level table and channel entries into their channel's table |
| Exchange.LastWrite | p10t.py:147-158 | reference definition of one slot of the merge: the value of the last entry, in arrival order, for that channel and key, or none |
| Exchange.MergedIsLastWrite | ad4d.py:178-188 | after the bulk merge, every slot holds the value of the last frame for it in arrival order, and only sent slots exist |
| Exchange.LastWriteExists | ad4d.py:180-188 | a slot is filled exactly when some frame carried it |
| Exchange.LaterFrameWins | p10t.py:149-158 | a later frame for the same slot overwrites an earlier one |
| Exchange.MergedNoEmptyChannel | ad4d.py:186-188 | a channel table exists only once a key has been put into it |
| Exchange.SnapshotExt | ad4d.py:178-188 | two merged snapshots are equal when every lookup agrees |
| Exchange.LastWriteOfDistinct | ad4d.py:178-188 | with distinct slots, a slot holds an entry's value exactly when that entry was sent |
| Exchange.MergeOrderIndependent | ad4d.py:178-188 | when no two frames share a slot, the arrival order does not change the merged snapshot |
| Exchange.Merge | ad4d.py:178-188 | the merge loop builds exactly Merged of the entries |
| Ad4d.BuildCommand | ad4d.py:94-106 | `build_command`: a command only for a registry key, and the command ends in the upper-cased key |
| Ad4d.KeyCaseIgnored | ad4d.py:94-101 | a registry key typed in any mix of cases gets the same address, or the same error, as the key itself |
| Ad4d.UnknownKeyRejected | ad4d.py:97-98 | a key outside the registry raises |
| Ad4d.DeviceKeyIsBare | ad4d.py:100-101 | a device-level key is addressed by its bare name, whatever the channel |
| Ad4d.ChannelKeyAddressing | ad4d.py:103-106 | a channel key is addressed exactly when the channel is 1 to 4, as `c KEY` |
| Ad4d.ChannelKeysAreNotDeviceKeys | ad4d.py:11-55 | the channel keys are registry keys and none of them is a device key |
| Ad4d.RegistryKeysAreKeys | ad4d.py:11-55 | every registry key is `[A-Z0-9_]+`, at least two characters long |
| Ad4d.RegistryKeysUpper | ad4d.py:95-97 | upper-casing leaves every registry key unchanged |
| Ad4d.LazyFrom | ad4d.py:109 | the lazy value group `[^>}]+?` stops at the first length whose remaining text lets the rest of the pattern match |
| Ad4d.MatchValue | ad4d.py:109 | the optional `{` and the value group: the value is non-empty and free of `>` and `}` |
| Ad4d.TryTails | ad4d.py:109 | the greedy `\s+` retried shorter, giving a non-empty value free of `>` and `}` |
| Ad4d.KeyValueOf | ad4d.py:109-120 | the key/value part: a `[A-Z0-9_]+` key, and a trimmed value free of `>` and `}` |
| Ad4d.AfterRep | ad4d.py:109 | the `<\s*REP\s+` prefix: what follows it starts with a non-space character |
| Ad4d.RepBody | ad4d.py:109-125 | the optional channel digit before the key/value part |
| Ad4d.ParseReportLine | ad4d.py:112-125 | `parse_report_line`: a parsed reply has a `[A-Z0-9_]+` key and a stripped value free of `>` and `}` |
| Ad4d.MatchKey | ad4d.py:197-199 | the match key ends in the reply's key |
| Ad4d.LazyFromReaches | ad4d.py:109 | the lazy group reaches the first length whose remaining text fits |
| Ad4d.NoEarlyTail | ad4d.py:109 | inside a trimmed value, the closing tail cannot match early |
| Ad4d.LazyValueOf | ad4d.py:109 | the value group stops right before ` >` or `} >` |
| Ad4d.KeyValueAfterKey | ad4d.py:109-120 | the key, then the value found by the separator and value groups, stripped |
| Ad4d.MatchPlain | ad4d.py:109 | an unbraced value runs up to the closing ` >` |
| Ad4d.MatchBraced | ad4d.py:109 | a braced value runs up to `} >`, and the braces are dropped |
| Ad4d.KeyValuePlain | ad4d.py:109-120 | `KEY value >` yields the key and the value |
| Ad4d.KeyValueBraced | ad4d.py:109-120 | `KEY {value} >` yields the key and the value without its braces |
| Ad4d.AfterRepPrefix | ad4d.py:109 | `< REP ` followed by a non-space character leaves the rest |
| Ad4d.RepBodyChannel | ad4d.py:118-123 | a digit and a space before the key/value part select the channel branch |
| Ad4d.RepBodyDevice | ad4d.py:118-125 | a key/value part that does not open with a digit and a space is a device-level reply |
| Ad4d.ParseWithChannel | ad4d.py:112-123 | a reply line that names channel d parses with that channel |
| Ad4d.ParseWithoutChannel | ad4d.py:112-125 | a reply line without a channel digit parses as a device reply |
| Ad4d.ReplyText | ad4d.py:109 | a written reply starts with `< REP ` |
| Ad4d.KeyValueRoundTrip | ad4d.py:109-120 | the key/value part of a written reply, braced or not, parses back to its key and value |
| Ad4d.ReplyRoundTrip | ad4d.py:109-125 | a reply the receiver writes parses back to exactly that reply |
| Ad4d.MatchKeyIsAddress | ad4d.py:197-199 | a reply for a registry key in its scope carries the address that `build_command` gives |
| Ad4d.ChannelArgValid | ad4d.py:103 | channels 1 to 4 render as the channel arguments `build_command` accepts |
| Ad4d.ReplyFrames | ad4d.py:162-168 | every frame starts with `< REP ` and contains no `ERR` |
| Ad4d.Parses | ad4d.py:173-174 | one parse result per frame |
| Ad4d.ParsesAt | ad4d.py:174 | the i-th parse is the parse of the i-th frame |
| Ad4d.Kept | ad4d.py:171-177 | at most one entry per frame |
| Ad4d.CollectEntries | ad4d.py:171-177 | the parse loop keeps exactly the frames that parse, in order |
| Ad4d.FirstHit | ad4d.py:191-201 | the first frame, in arrival order, that parses and matches the expected key (or any frame when none is expected) |
| Ad4d.Answered | ad4d.py:191-213 | reference definition of the single-key result: at the first answering frame a SET gives None, text mode the value and other modes the formatted frame; with no answering frame, None in text mode and the formatted empty table otherwise |
| Ad4d.Correlate | ad4d.py:191-213 | the correlation loop returns exactly the reference answer |
| Ad4d.AnsweredByHit | ad4d.py:201-207 | at the first answering frame: a SET returns nothing, text mode returns the value, other modes the formatted frame |
| Ad4d.FirstHitAt | ad4d.py:191-201 | an answering frame with none before it is the one found |
| Ad4d.GetAnswersFirstHit | ad4d.py:201-207 | in text mode a GET returns the value of the first answering frame |
| Ad4d.GetWithoutHit | ad4d.py:209-213 | in text mode a GET that no frame answers returns nothing |
| Ad4d.SetIsSilent | ad4d.py:201-213 | a SET is never answered with a value |
| Ad4d.DeviceGets | ad4d.py:136 | one `GET KEY` per device read-only key |
| Ad4d.ChannelGets | ad4d.py:137-141 | one `GET c KEY` per channel key |
| Ad4d.BulkRequest | ad4d.py:136-141 | the request-list loop builds exactly the bulk command list |
| Ad4d.ChannelGetsForLength | ad4d.py:137-141 | 21 requests per channel |
| Ad4d.ChannelGetsForAt | ad4d.py:137-141 | where channel c's request for key i sits |
| Ad4d.BulkDeviceAt | ad4d.py:136 | request i reads device key i at its `build_command` address |
| Ad4d.BulkChannelAt | ad4d.py:137-141 | request 7 + 21c + i reads channel key i on channel c + 1 at its `build_command` address |
| Ad4d.BulkCommandsAddressed | ad4d.py:135-141 | the bulk read is 91 requests, each a GET of the `build_command` address of a registry key, device keys first, then channels 1 to 4 |
| Ad4d.Exchanged | ad4d.py:128-215 | reference definition of one exchange: a refused connection gives `(error: …)` with nothing written; a raising write gives `(error: …)` after the lines before it; otherwise every request line is written and the read window is drained, and a read error gives `(error: …)`, a bulk read the merge of the parsed frames, a single read `Answered` |
| Ad4d.SendCommand | ad4d.py:128-215 | `send_command` returns exactly the reference transcript: the lines written and the result, or `(error: …)` when connecting, a write or a read raises |
| Ad4d.WriteFailureReported | ad4d.py:142-147 | a write that raises returns `(error: …)`; the model records as written the request lines before the failing one, a proper prefix of the full request text |
| Ad4d.WirePrefix | ad4d.py:142-143 | the lines before request k are a proper prefix of all the lines written |
| Ad4d.WireAppend | ad4d.py:142-143 | writing two request lists in turn writes their concatenation |
| Ad4d.SetValue | ad4d.py:313-322 | the value written is the value, or the value in one pair of braces |
| Ad4d.PrepareSet | ad4d.py:296-322 | a SET is sent only for an addressable key that is not device read-only and that has a value, as `SET …` |
| Ad4d.SetRefusesReadOnly | ad4d.py:302-308 | a device read-only key is refused with its message |
| Ad4d.SetNeedsValue | ad4d.py:309-311 | a missing value is refused with its message |
| Ad4d.SetCommandShape | ad4d.py:313-327 | the command is `SET address value`, with braces exactly for the brace keys |
| Ad4d.SetSendsChannelReadOnly | ad4d.py:302-311 | a channel read-only key with a channel and a value is sent |
| Ad4d.Bodies | ad4d.py:164-168 | one frame body per reply |
| Ad4d.EntriesOf | ad4d.py:180-188 | one bulk entry per reply |
| Ad4d.KeptAll | ad4d.py:171-177 | frames that all parse become one entry each, in order |
| Ad4d.FramesOfReplies | ad4d.py:162-177 | the frames cut from a stream of deliverable replies parse back to those replies, in order |
| Ad4d.ExchangedSingle | ad4d.py:147-213 | over one data chunk, a single request is answered from that chunk's frames |
| Ad4d.ExchangedBulk | ad4d.py:135-189 | over one data chunk, the bulk read merges that chunk's frames |
| Ad4d.OnlyFrameAnswers | ad4d.py:191-207 | a GET whose only frame is the reply it addresses returns that reply's value |
| Ad4d.SingleAnswered | ad4d.py:147-207 | a single GET over one chunk whose frame is the reply it addresses returns the value |
| Ad4d.SingleFrame | ad4d.py:162-174 | one deliverable reply becomes one frame that parses back to it |
| Ad4d.RegistryReplyDeliverable | ad4d.py:109-125 | a well-formed reply for a registry key survives framing and parsing |
| Ad4d.GetRoundTrip | ad4d.py:128-213 | a GET of a registry key, answered by its reply, writes one request line and returns the reply's value |
| Ad4d.BulkRoundTrip | ad4d.py:135-189 | the bulk read answered by deliverable replies writes the 91 requests and returns the merge of those replies |
| Ad4d.BulkAnswered | ad4d.py:135-188 | the bulk read over a chunk whose frames all parse returns the merge of those replies |
| P10t.BuildCommand | p10t.py:64-76 | `build_command`: a command only for a registry key, and the command ends in the upper-cased key |
| P10t.KeyCaseIgnored | p10t.py:64-71 | a registry key typed in any mix of cases gets the same address, or the same error, as the key itself |
| P10t.UnknownKeyRejected | p10t.py:67-68 | a key outside the registry raises `Unknown key: KEY` |
| P10t.DeviceNameIsBare | p10t.py:70-71 | DEVICE_NAME is addressed bare, whatever the channel |
| P10t.ChannelKeyAddressing | p10t.py:73-76 | a channel key is addressed exactly when the channel is 1 or 2, as `c KEY` |
| P10t.ChannelKeysAreNotDeviceKeys | p10t.py:10-25 | the channel keys are registry keys and none of them is a device key |
| P10t.RegistryKeysAreKeys | p10t.py:10-25 | every registry key is `[A-Z0-9_]+` |
| P10t.Tokens | p10t.py:80 | `strip("<> ").split()`: every token is a word |
| P10t.ChannelText | p10t.py:85-87 | a channel number renders as `1` or `2` |
| P10t.ParseTokens | p10t.py:82-91 | nothing exactly when there are fewer than three tokens or the first is not `REPORT`; key and value are tokens; a device report always has a value |
| P10t.ParseReportLine | p10t.py:79-91 | the same, stated on the frame's text |
| P10t.MatchKey | p10t.py:167-170 | the match key ends in the report's key |
| P10t.ReportArgs | p10t.py:85-91 | a report has at least one token after `REPORT` |
| P10t.TokensOfLine | p10t.py:80 | the tokens of a frame written with single spaces are the tokens written |
| P10t.ReportTokens | p10t.py:80 | the tokens of a writable report's frame |
| P10t.ParseArgs | p10t.py:82-91 | parsing a writable report's tokens, plus extra tokens, gives the report |
| P10t.ParseChannelTokens | p10t.py:85-89 | `REPORT c KEY value …` parses as a channel report |
| P10t.ParseBareChannelTokens | p10t.py:85-89 | `REPORT c KEY` parses as a channel report without a value |
| P10t.ParseDeviceTokens | p10t.py:91 | `REPORT KEY value …` parses as a device report |
| P10t.ReportRoundTrip | p10t.py:79-91 | a report the transmitter writes parses back to exactly that report |
| P10t.ExtraTokensIgnored | p10t.py:85-91 | tokens after the value are ignored |
| P10t.MultiWordValueTruncated | p10t.py:80-88 | a two-word value keeps only its first word |
| P10t.BracesKept | p10t.py:79-91 | braces around a value stay part of the value |
| P10t.MatchKeyIsAddress | p10t.py:167-170 | a report for a registry key in its scope carries the address `build_command` gives |
| P10t.ReplyFrames | p10t.py:130-136 | every frame starts with `< REPORT `; frames with `ERR` are kept |
| P10t.Parses | p10t.py:141-142 | one parse result per frame |
| P10t.ParsesAt | p10t.py:142 | the i-th parse is the parse of the i-th frame |
| P10t.Kept | p10t.py:139-145 | at most one entry per frame |
| P10t.CollectEntries | p10t.py:139-145 | the parse loop keeps exactly the frames that parse, in order |
| P10t.FirstHit | p10t.py:161-172 | the first frame, in arrival order, whose match key is the expected key |
| P10t.NoHitShift | p10t.py:161-172 | when neither the head nor any frame of the tail matches, no frame matches |
| P10t.HitShift | p10t.py:161-172 | the first match of the tail, one place on, is the first match when the head misses |
| P10t.Answered | p10t.py:161-181 | reference definition of the single-key result: at the first matching frame text mode gives the value and other modes the formatted frame, for GET and SET alike; with no match, `(no match)` in text mode and the formatted empty table otherwise |
| P10t.Correlate | p10t.py:161-181 | the correlation loop returns exactly the reference answer |
| P10t.MissExtends | p10t.py:161-172 | one more frame that does not match extends the run of frames that do not |
| P10t.FirstHitAt | p10t.py:161-172 | a matching frame with none before it is the one found |
| P10t.AnswersFirstHit | p10t.py:172-176 | in text mode the value of the first matching frame is returned, for a GET and a SET alike |
| P10t.NoHitIsNoMatch | p10t.py:177-181 | in text mode, when no frame matches, the result is `(no match)` |
| P10t.NothingExpectedIsNoMatch | p10t.py:172-181 | without an expected key nothing matches, so text mode gives `(no match)` |
| P10t.FirstHitNothing | p10t.py:172 | without an expected key no frame matches |
| P10t.NoHitNone | p10t.py:161-172 | when no frame matches, none is found |
| P10t.DeviceGets | p10t.py:102 | one `GET KEY` per device read-only key |
| P10t.ChannelGets | p10t.py:104-105 | one `GET c KEY` per channel key |
| P10t.BulkRequest | p10t.py:102-105 | the request-list loop builds exactly the bulk command list |
| P10t.ChannelGetsForLength | p10t.py:104-105 | nine requests per channel |
| P10t.ChannelGetsForAt | p10t.py:104-105 | where channel c's request for key i sits |
| P10t.BulkLength | p10t.py:101-105 | the bulk read is 19 requests |
| P10t.BulkFirst | p10t.py:102 | the first request is `GET DEVICE_NAME` |
| P10t.BulkChannelAt | p10t.py:104-105 | request 1 + 9c + i reads channel key i on channel c + 1 at its `build_command` address |
| P10t.BulkCommandsAddressed | p10t.py:101-105 | the bulk read is 19 requests, each a GET of the `build_command` address of a registry key |
| P10t.Exchanged | p10t.py:94-185 | reference definition of one exchange: a refused connection gives `(error: …)` with nothing written; a raising write gives `(error: …)` after the lines before it; otherwise every request line is written and the read window is drained, and a read error gives `(error: …)`, a bulk read the merge of the parsed frames, a single read `Answered` |
| P10t.SendCommand | p10t.py:94-185 | `send_command` returns exactly the reference transcript: the lines written and the result, or `(error: …)` when connecting, a write or a read raises |
| P10t.WriteFailureReported | p10t.py:107-113 | a write that raises returns `(error: …)`; the model records as written the request lines before the failing one, a proper prefix of the full request text |
| P10t.WirePrefix | p10t.py:107-108 | the lines before request k are a proper prefix of all the lines written |
| P10t.WireAppend | p10t.py:107-108 | writing two request lists in turn writes their concatenation |
| P10t.PrepareSet | p10t.py:258-280 | a SET is sent only for a channel key with a channel and a value, and waits for the key's `build_command` address |
| P10t.SetRefusesDeviceName | p10t.py:264-270 | DEVICE_NAME is refused as read-only |
| P10t.SetCommandShape | p10t.py:274-280 | the command is `SET c KEY value`, waiting for `c KEY` |
| P10t.ReportTextAfterMarker | p10t.py:133 | a report's frame is the keyword followed by its body |
| P10t.Bodies | p10t.py:132-136 | one frame body per report |
| P10t.EntriesOf | p10t.py:149-158 | one bulk entry per report |
| P10t.KeptAll | p10t.py:139-145 | frames that all parse become one entry each, in order |
| P10t.FramesOfReports | p10t.py:130-145 | the frames cut from a stream of deliverable reports parse back to those reports, in order |
| P10t.ExchangedSingle | p10t.py:113-181 | over one data chunk, a single request is answered from that chunk's frames |
| P10t.ExchangedBulk | p10t.py:101-159 | over one data chunk, the bulk read merges that chunk's frames |
| P10t.OnlyFrameAnswers | p10t.py:161-176 | a request whose only frame is the report it addresses returns that report's value |
| P10t.OnlyFrameHits | p10t.py:161-172 | that frame is the first match |
| P10t.SingleAnswered | p10t.py:113-176 | a single request over one chunk whose frame is the report it addresses returns the value |
| P10t.SingleFrame | p10t.py:130-142 | one deliverable report becomes one frame that parses back to it |
| P10t.RequestRoundTrip | p10t.py:94-181 | a GET or SET of a registry key, answered by its report, writes one request line and returns the report's value |
| P10t.BulkAnswered | p10t.py:101-159 | the bulk read over a chunk whose frames all parse returns the merge of those reports |
| P10t.BulkRoundTrip | p10t.py:101-159 | the bulk read answered by deliverable reports writes the 19 requests and returns their merge |
| MonitorFrames.DeviceReplyMatch | monitor.py:17 | `< REP (\S+)\s+{([^}]*)} >`: a device reply with a word key and a stripped value |
| MonitorFrames.DeviceReplyRoundTrip | monitor.py:101-104 | `< REP KEY {value} >` is read back with the value stripped |
| MonitorFrames.FirstBrace | monitor.py:17 | `[^}]*` stops at the first `}` |
| MonitorFrames.ChannelReplyMatch | monitor.py:16 | `< REP (\d+) (\S+)\s+(\S+) >`: a channel reply with a number, a word key and a word value |
| MonitorFrames.ChannelReplyRoundTrip | monitor.py:106-110 | `< REP c KEY value >` is read back as written |
| MonitorFrames.Classify | monitor.py:98-111 | the device grammar takes precedence, and the channel grammar applies only when it fails |
| MonitorFrames.NotDevice | monitor.py:17 | the device grammar rejects a line whose second run does not open with `{` |
| MonitorFrames.NumberIsWord | monitor.py:16 | a channel number is a word |
| MonitorFrames.ClassifyChannel | monitor.py:98-110 | a channel reply whose key does not open with `{` is classified as that channel reply |
| MonitorFrames.DeviceGrammarFirst | monitor.py:98-104 | a line both grammars accept is read as a device reply |
| MonitorFrames.ChannelReadingOfBraced | monitor.py:16 | the channel grammar's reading of such a line |
| MonitorFrames.DeviceReadingOfBraced | monitor.py:17 | the device grammar's reading of such a line |
| MonitorFrames.SpacedValueUnparsed | monitor.py:98-113 | a channel value with a space fits neither grammar |
| MonitorFrames.SecondWordRejected | monitor.py:16 | a second word before ` >` fails the channel grammar |
| MonitorFrames.LineEnd | monitor.py:248 | the first line feed, or the length when there is none |
| MonitorFrames.ReportMatches | monitor.py:18 | reference definition of `report_re.match`: `< REPORT `, the whole non-space run, a space, then either `>` at once or at least one character before a later ` >` on the same line |
| MonitorFrames.ReportLineMatches | monitor.py:18 | every `< REPORT w rest >` line the transmitter writes fits the report pattern |
| MonitorFrames.LastClose | monitor.py:19 | the last ` >` in the line, where the greedy `(.+)` ends |
| MonitorFrames.SampleMatch | monitor.py:19 | `< SAMPLE (\d+) ALL (.+) >`: a channel number and non-empty readings with no line feed |
| MonitorFrames.SampleRoundTrip | monitor.py:19 | a sample alone on its line is read back as written |
| Monitor.HSet | monitor.py:115 | HSET sets one field of one hash and nothing else |
| Monitor.MetricFields | monitor.py:117-135 | the journal fields: host, device, key, value and metric; the channel only for a named channel; AUDIO_LEVEL and the L/R side for level keys; no other field |
| Monitor.Respond | monitor.py:97-137 | `handle_response`: a matched reply sets its field in its hash and adds one record; anything else only logs `unparsed line` as a warning |
| Monitor.DeviceReplyStored | monitor.py:101-115 | a device reply sets KEY of `host:device` to the stripped value |
| Monitor.ChannelReplyStored | monitor.py:106-115 | a channel reply sets KEY of `host:channel:N` to the value |
| Monitor.SampleKeysDistinct | monitor.py:144-154 | nine distinct sample keys |
| Monitor.Zip | monitor.py:156 | `zip`: pairs up to the shorter sequence, in order |
| Monitor.ReadingsWritten | monitor.py:156-169 | each reading lands in its own field and adds its record, in order, and nothing else changes |
| Monitor.Sampled | monitor.py:140-169 | reference definition of `handle_sample`: the sample keys zipped with the whitespace-separated readings, written in order to `host:channel:N` |
| Monitor.SampleWritten | monitor.py:140-169 | `handle_sample`: the first min(9, readings) keys get the readings in order; other keys and hashes are unchanged |
| Monitor.ZipWritten | monitor.py:156-169 | the same for any distinct keys and any values |
| Monitor.ProcessParts | monitor.py:210-224 | reference definition of the parts loop: a blank part is skipped; the first part starting `SAMPLE` is handled when it matches and ends the chunk; every other part is handled as the reply line `< part` |
| Monitor.Processed | monitor.py:209-224 | reference definition of `process_raw_data`: the parts loop over the chunk split on `<` |
| Monitor.RestIgnoredAfterSample | monitor.py:218-224 | once a sample part is reached, the rest of the chunk is never looked at |
| Monitor.BlankPartsSkipped | monitor.py:211-214 | parts with nothing but spaces change nothing |
| Monitor.PollOnce | monitor.py:193-206 | reference definition of one `poll_command`: a chunk is processed, a read timeout changes nothing, any other error adds the `polling error` warning |
| Monitor.Polling | monitor.py:185-188 | reference definition of the polling loop: the polls in order, up to and including the first that failed |
| Monitor.Attempted | monitor.py:185-188 | how many commands the polling loop writes: everything up to and including the first failed poll |
| Monitor.FirstRound | monitor.py:185-186 | polling starts with a round of POLL_COMMANDS |
| Monitor.NextRound | monitor.py:185-190 | a full round is followed by the next one |
| Monitor.PollingStopsAtFailure | monitor.py:186-188 | a failed poll ends the run: later outcomes are never consulted |
| Monitor.PollingStep | monitor.py:186-187 | one turn of the loop that keeps going |
| Monitor.AttemptedUpToFailure | monitor.py:187-188 | no command after the failed one is written |
| Monitor.SplitLines | monitor.py:247-248 | reference definition of the extraction loop: the lines up to each line feed, in order, and the unterminated leftover |
| Monitor.SplitRejoins | monitor.py:247-248 | the extracted lines, each with its line feed, followed by the leftover, give back the buffer; no line feed remains in the lines or the leftover |
| Monitor.SplitAcrossReads | monitor.py:240-248 | splitting what has arrived and then the leftover with the next chunk gives the same lines as splitting everything at once |
| Monitor.LeftoverAcrossReads | monitor.py:240-248 | the same leftover |
| Monitor.SplitPrefix | monitor.py:247-248 | a complete line already in the buffer is taken first, whatever arrives after it |
| Monitor.SplitStep | monitor.py:248 | one turn of the extraction loop |
| Monitor.LineEndKept | monitor.py:248 | the first line feed is still the first one after more data arrives |
| Monitor.ConsumeLines | monitor.py:249-262 | reference definition of handling the extracted lines: each is stripped; a sample line is handled; a line fitting the report pattern raises and ends the session; any other line is logged as unparsed |
| Monitor.ConsumeAppend | monitor.py:247-262 | handling two batches of lines in turn is handling them together |
| Monitor.ReportLineCrashes | monitor.py:257-260 | every report line ends the session with the six-argument `handle_response` call, before any later line |
| Monitor.Passive | monitor.py:229-262 | reference definition of `run_passive_monitor`: a timeout is skipped, a read error is logged and ends the session, an empty read ends it, and data is appended to the buffer whose complete lines are then handled |
| Monitor.TwoReadsAsOne | monitor.py:233-262 | two non-empty reads in a row act as one read of both |
| Monitor.PassiveStaysConnected | monitor.py:286-305 | a passive session, however it ends, notifies at most `connected` and leaves the status there |
| Monitor.TextsAppend | monitor.py:286-300 | the notifications of two trails in turn are those of both |
| Monitor.Said | monitor.py:286-300 | reference definition of one turn's notifications: `connected` on a connection and `waiting for device...` on a socket error, each only when it changes last_status; any other exception notifies nothing |
| Monitor.Notices | monitor.py:280-305 | reference definition of the notifications over a run of attempts, last_status carried from turn to turn |
| Monitor.NoticesAreChanges | monitor.py:278-305 | the reconnect loop's notifications are exactly the status changes along the trail of attempts |
| Monitor.AttemptChanges | monitor.py:282-305 | one attempt's notifications are the changes along its own statuses |
| Monitor.ChangesStep | monitor.py:286-300 | the first status of a trail is notified only when it differs from the last |
| Monitor.ChangesAlternate | monitor.py:278-300 | no status is notified twice in a row, the first differs from the last status, and the last notified status is the current one |
| Monitor.Supervise | monitor.py:278-305 | the reconnect loop produces exactly the reference notifications and main's own journal records |
| Monitor.Turn | monitor.py:279-305 | one turn of the reconnect loop: its notifications, its records and the new last_status are those of the reference |
| Monitor.NoticesStep | monitor.py:280-305 | one turn of the reconnect loop |
| Monitor.JournalStep | monitor.py:280-305 | one turn of main's journal records |
| Monitor.Recorded | monitor.py:284-304 | reference definition of main's own records for one turn: every connection; an unreachable record only when the status changes to waiting; every crash |
| Monitor.Journal | monitor.py:280-305 | reference definition of main's own records over a run of attempts |
| Monitor.CrashIsNotUnreachable | monitor.py:297-304 | a crash record is never read as an unreachable record |
| Monitor.TurnRecordsWaiting | monitor.py:284-304 | within one turn, "unreachable" is recorded exactly as often as "waiting for device..." is notified |
| Monitor.JournalMatchesNotices | monitor.py:278-305 | over the whole run, the unreachable records pair up one for one with the waiting notifications, so neither repeats while the device stays away |
| Monitor.ConnectionRecorded | monitor.py:280-284 | a turn opens with "connected to host:port" exactly when the connection succeeded |
| Monitor.Monitor.constructor | monitor.py:230-231 | a monitor starts with empty hashes, journal, sent text and buffer |
| Monitor.Monitor.HandleResponse | monitor.py:97-137 | the new state is `Respond` of the old state, and nothing is written to the socket |
| Monitor.Monitor.HandleSample | monitor.py:140-169 | the new state is `Sampled` of the old state |
| Monitor.Monitor.ProcessRawData | monitor.py:209-226 | the new state is `Processed` of the old state |
| Monitor.Monitor.PollCommand | monitor.py:193-206 | the command is written, polling goes on exactly unless the read failed with a non-timeout error, and the state is `PollOnce` |
| Monitor.Monitor.RunPolling | monitor.py:172-190 | the metering requests, then the polled commands in round order up to the first failure, are written; the state is `Polling` of the outcomes |
| Monitor.Monitor.PollRound | monitor.py:186-188 | one round: it either completes and ends at the next round start, or stops at the first failure |
| Monitor.Monitor.Feed | monitor.py:240-262 | the extraction loop handles exactly the complete lines of buffer + chunk and keeps the leftover, or reports the crash |
| Monitor.Monitor.RunPassive | monitor.py:229-262 | the state and the way the session ends are exactly `Passive` of the reads |

## Left out

- Socket I/O, sleeps and the read-window clock. These are parameters: sequences of receive events, poll outcomes and reads.
- `format_output` (ad4d.py:58-91, p10t.py:28-61): JSON, pprint and text rendering. Bulk results are the merged snapshot before formatting. Single results in other modes are the formatted frame, kept as a value.
- argparse, `--list`, `--host` checks and the per-channel GET loops of `main` (ad4d.py:218-300, p10t.py:188-262). Only the `SET` checks are modelled.
- UTF-8 decoding with `errors="ignore"`. Text is modelled after decoding, as `seq<char>`.
- `\d` and `str.isdigit` cover ASCII digits only. `upper()` covers ASCII and the letters whose upper case is plain ASCII.
- P10t.ParseTokens: a report whose key token is literally `channel` collides with the dictionary's own `channel` entry in the source. The model keeps key and channel apart.
- volume_monitor.py, notifier.py and log.py are not part of this model. Journal records are values and notifications are strings.
- The shutdown flag and signal handlers. A finite sequence of outcomes stands for the run up to the shutdown request. The "caught signal" and "shutdown complete" records are left out with them.
- Monitor.Supervise: main's own journal records are a sequence of their own. The records a session writes are in `Monitor.Monitor.RunPolling` and `Monitor.Monitor.RunPassive`; how they interleave with main's records in the one journal is not modelled.
- Monitor.Monitor.RunPolling: does not model that the source checks the shutdown flag only between rounds. Running out of outcomes may stop the model mid-round.
- Monitor.Monitor.RunPolling: does not model a failing write in `init_metering` (monitor.py:172-175). That would leave the session with a socket error, the `Dropped` ending of the reconnect loop.
- Monitor.Monitor.PollCommand: a command is recorded as written even when the write itself raised. The source's `sent` text is not observable.
- Ad4d.SendCommand: a `sendall` that raises may already have sent part of its line, and how much cannot be known. The model records only the lines before the failing one as written.
- P10t.SendCommand: a `sendall` that raises may already have sent part of its line, and how much cannot be known. The model records only the lines before the failing one as written.
- `DEVICE_LEVEL_KEYS` (monitor.py:64-80) is never used by the source.
- The Redis client is a map of hashes, and HSET never fails.
- The `(timeout)` result of p10t.py:182-183 is not modelled. Every read timeout is caught inside the read window, so this result is never produced.
- The ad4d `ERR` filter is not applied to p10t frames, because p10t.py does not apply it.
