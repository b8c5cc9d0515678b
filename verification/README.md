# LogDoc: a verified model

LogDoc collects logs over many wire formats, stores them, answers queries over them, raises
alarms, and derives a graph of the services that wrote them. This project models the parts of it
where a simple statement has to agree with intricate code, and proves that it does.

The code that works by changing things step by step is modelled as classes and methods with loops.
Each such method is proved to compute a specification function, and the theorems are lemmas about
these functions, over all inputs, all runs and all schedules.

- **Decoders.** `Pickle` is the unpickler of the Python sink as a stack machine; `PickleEncoding`
  describes data-only picklers, `PickleOps` and `PickleRoundTrip` prove that the machine inverts
  them, `PickleValues` that every value has a pickle, `PickleSharing` what becomes of lists that
  occur twice, `PickleSafety` what the machine keeps on any bytes, and the record framing,
  `PickleCycles` when what it returns is finite, `PickleOpcodes` which opcodes it accepts and when
  one stops it. `Journald` is the incremental decoder of journal exports, `LdFormat` the parser of
  the ld_format protocol, `LdBreaks` what it makes of broken streams, `SyslogFrames` the deframer
  for sections 3.4.1 and 3.4.2 of RFC 6587, `SyslogMessage` the parser of RFC 5424 messages with
  their structured data (section 6.3). `Bytes` and `Reading` hold number notations and the
  buffered reader.
- **Notifications.** `Notify` is the rule engine over rings of buckets, `NotifyRules` builds its
  rules, `NotifyRuns` relates the ring to the history of a run, `NotifySafety` proves what events
  carry and when rules may fire, `NotifyExactly` when they do, `Match` is the compiler of the
  condition language.
- **The service graph.** `Graph` is the edge extractor, `GraphCounts` and `GraphEvents` the
  declarative reading of its counters, `GraphFlush` the pipeline into the stored tables,
  `GraphSignals` the meaning of an edge's marks, `GraphFirst` that of the stored first times,
  `GraphEntries` reads all this off the log entries, `Deploys` the deploy markers, `Topology`
  outage simulation and blast radius, `Backstage` the names of exported entities.
- **Queries and storage.** `Plans` and `Query` cover requests, plans, the live filter and the
  generated SQL, `Batcher` the write batcher, `BatcherRuns` its runs read off the events.
  `Common`, `Model`, `Sorting` and `Text` are shared.

Inputs that a method cannot determine are parameters: the clock, which inserts succeed, the
lower-casing, pattern and float parsing of the libraries.

Where the code does not do what its documentation or the format it reads or writes asks for, the
model follows the code:

- Entity names are promised to have at most 63 characters. They do for every list of up to 998
  apps, and not always beyond (`Backstage.BoundExactly`).
- A newline-delimited syslog line that starts like an octet count is taken for a counted frame,
  and is cut off or swallows what follows it (`SyslogFrames.LineReadsBackExactly`). Digits that
  could be a count at the very end of a stream are lost (`SyslogFrames.LastMessageExactly`).
- Two ld_format events written without headers merge when the first ends in a binary pair without
  its newline (`LdFormat.RoundTripExactly`); the source says that the two cases look alike.
- The stored first time of a node or an edge is the last time of the batch it was first stored
  with (`GraphFirst.FirstTimeOfNode`, `GraphFirst.FirstTimeOfEdge`), and the time of its first
  entry only if no later one precedes that snapshot (`GraphFirst.FirstSeenOfNode`).
- Deploy markers make up the version history exactly if at each of them the version with the
  greatest time is the marker's just when the version before it is
  (`Deploys.StoredIsDestuttered`). `Deploys.OutOfOrderDropsAMarker` is an input for which they do
  not.
- Without a tenant the live filter lets every tenant through and the query only the empty one
  (`Query.AgreementExactly`); requests always name one (`Plans.RequestsAgree`).
- A list that a pickle fetches again from its memo comes out empty there
  (`PickleSharing.SharedListsExactly`), and a dict may come out holding itself
  (`PickleCycles.DecodedFiniteExactly`).
- Entity names are trimmed of separators before they are cut, so a cut name may end in one
  (`Backstage.EndsWellExactly`).
- The number in a syslog priority may carry a sign, as in `<+5>`
  (`SyslogMessage.PriorityExactly`).

## Model

| member | source | states |
|---|---|---|
| `PickleRoundTrip.UnpickleInvertsPickling` | internal/ingest/python.go:136-438 | Round trip for pickles of nested dicts, lists, tuples, strings, integers, floats, booleans and None in any mix of notations (decimal float lines included, as far as the parser reads them), with memo puts of anything, memo fetches of anything finished, items batched or one at a time, with or without a protocol header and with anything after STOP: the dict that comes out stands for the value pickled, where a list fetched from the memo counts as empty. |
| `PickleSharing.SharedListsExactly` | internal/ingest/python.go:330-432 | A list is remembered before it is filled, so an occurrence fetched from the memo reads back empty: what is decoded stands for the value pickled, with every list whole in all its places, if and only if no list with items occurs in it a second time. |
| `PickleSharing.SharedListLost` | internal/ingest/python.go:330-432 | An input that fails: a dict with the same one-item list under two keys comes out with the second one empty. |
| `PickleRoundTrip.Simulate` | internal/ingest/python.go:181-436 | The induction behind it: for every value, from every stack, memo and heap, running its bytes leaves the stack as it was with one value more, that value stands for the one encoded and reaches no dict still being filled, older heap objects are untouched and the memo agrees with the pickler's. |
| `PickleValues.EveryDictRoundTrips` | internal/ingest/python.go:136-438 | The round trip is for all values: every string-keyed dict over none, booleans, 64-bit integers, 64-bit floats, strings up to the limit, lists and dicts, nested at will, has bytes that decode to it. |
| `PickleEncoding.RepresentsUnique` | internal/ingest/python.go:136-438 | A machine value stands for at most one tree, up to the items of lists fetched from the memo, so the round trip determines the decoded value. |
| `PickleRoundTrip.SimulateDictChunks` | internal/ingest/python.go:376-400 | SETITEM and SETITEMS together assign all pairs in order: a repeated key keeps its last value, and dicts nested in the values stay intact. |
| `PickleRoundTrip.SimulateListChunks` | internal/ingest/python.go:348-375 | APPEND and APPENDS together build the list in order. |
| `PickleRoundTrip.SimulateTupleItems` | internal/ingest/python.go:332-347 | Marked tuples of any length and TUPLE1 to TUPLE3 read back as lists of their items. |
| `PickleOps.RunInt` | internal/ingest/python.go:208-285 | Every 64-bit integer in every notation that holds it (1, 2, 4 bytes, LONG1 of 0 to 8 bytes, decimal line with or without the Python 2 suffix) is pushed as itself. |
| `PickleOps.TwosComplementRoundTrip` | internal/ingest/python.go:275-284 | Two's complement of any width reads back, negative numbers included. |
| `PickleOps.RunStr` | internal/ingest/python.go:292-327 | A string of any allowed length in each of the three counted notations is pushed as itself. |
| `PickleOps.RunPut` | internal/ingest/python.go:401-432 | BINPUT, LONG_BINPUT and MEMOIZE leave stack and heap alone and remember the top under the index the pickler expects. |
| `PickleOps.AgreesFinish` | internal/ingest/python.go:401-432 | When the innermost list or dict is finished, its memo index stands for what a fetch gives from then on: the dict itself, shared with where it was first, or an empty list. |
| `Pickle.Unpickle` | internal/ingest/python.go:136-438 | The whole loop, over a machine object whose position, stack, memo and heap are updated in place, computes the run of the machine semantics from the empty state, and ends on every input. |
| `PickleOpcodes.OthersStop` | internal/ingest/python.go:433-434 | Any opcode outside the data subset, listed byte by byte, ends the record with an error, whatever the state and whatever follows. |
| `PickleOpcodes.DecodedIsListed` | internal/ingest/python.go:181-436 | Over whole runs: what decodes was executed with listed opcodes alone, and STOP is the last of them and only the last. |
| `PickleOpcodes.StopsExactly` | internal/ingest/python.go:181-436 | On any bytes and any well-formed state, an opcode ends the record exactly if it is not listed, its argument is cut off, too long or no number, or the stack does not hold what it works on. |
| `PickleOpcodes.MemoEdges` | internal/ingest/python.go:401-422 | An index never stored is fetched as nil, and storing with nothing on the stack stores nothing. |
| `Pickle.Machine.Execute` | internal/ingest/python.go:181-436 | One turn of the loop is one step of the machine: same outcome, same remaining input, same stack, memo and heap. |
| `Pickle.Machine.ReadLong` | internal/ingest/python.go:275-284 | The byte loop and the sign-extension loop compute the two's complement value of the bytes. |
| `Pickle.Machine.PopMark` | internal/ingest/python.go:151-161 | The downward scan finds the topmost mark, returns what is above it and removes both. |
| `Pickle.Machine.ReadLine` | internal/ingest/python.go:168-179 | Takes the bytes up to the first newline and consumes it, or fails without moving. |
| `Pickle.Machine.SetAll` | internal/ingest/python.go:388-400 | The assignment loop is the fold of single assignments, and stops with an error at the first bad key or target. |
| `Pickle.TopBit` | internal/ingest/python.go:279 | The top bit of the top byte tells exactly whether the number is at or above half the range, for any width. |
| `PickleSafety.StepKeepsWellFormed` | internal/ingest/python.go:181-436 | On arbitrary bytes, every step keeps every reference on the stack, in the memo and inside dicts and lists pointing at an existing dict. |
| `PickleSafety.DecodedIsGrounded` | internal/ingest/python.go:136-438 | Hence whatever a hostile input decodes to is a dict that exists, with everything it refers to. |
| `PickleCycles.DecodedFiniteExactly` | internal/ingest/python.go:98-118 | On arbitrary bytes: what was decoded is a finite tree of values if and only if no chain of references from it comes back to a dict it has passed, and none ends in a stack mark. |
| `PickleCycles.FiniteExactly` | internal/ingest/python.go:98-118 | The same for every value in every heap without dangling references. |
| `PickleCycles.SelfIsEndless` | internal/ingest/python.go:401-422 | An input that fails: ten bytes decode to a dict that holds itself, and no finite tree stands for it. |
| `PickleSafety.HandleConn` | internal/ingest/python.go:526-551 | The connection loop yields the length-prefixed records and stops at a zero or too long length, a short header or a short record. |
| `PickleSafety.FramesInvertFramed` | internal/ingest/python.go:533-550 | Any sequence of records of legal length, framed and concatenated, comes out unchanged, and a cut-off header after it is dropped. |
| `PickleSafety.DatagramUnframes` | internal/ingest/python.go:568-574 | A length-prefixed record in one datagram is unwrapped. |
| `PickleSafety.DatagramPlain` | internal/ingest/python.go:568-574 | Any other datagram is a record as it is. |
| `PickleSafety.BadFrameStops` | internal/ingest/python.go:533-550 | A length of zero, above 1 MiB, or beyond the bytes there ends the connection: the records before it come out and nothing after. |
| `Journald.Decoder.Feed` | internal/ingest/journald.go:118-170 | One call of the decoder, with its buffer and fields updated in place, equals the reference: append, overflow check, then one parse of the buffer; entries, remaining buffer and begun fields all as specified. |
| `Journald.Decoder.Head` | internal/ingest/journald.go:131-166 | Reads exactly the item at the front of the buffer: terminator, text field, binary field, oversize length or not enough bytes. |
| `Journald.ParseConcat` | internal/ingest/journald.go:127-169 | Parsing a stream is parsing any prefix of it and then what that left over followed by the rest. |
| `Journald.ChunkingIndependent` | internal/ingest/journald.go:118-170 | For every way of cutting a stream, the calls yield what one parse of the whole stream yields if and only if nothing is dropped; and nothing is dropped if and only if each chunk fits beside the remainder before it and no field declares an oversize length. |
| `Journald.ParseInvertsEncode` | internal/ingest/journald.go:127-169 | Any list of entries of text and binary fields (names non-empty, without equals sign or newline) encodes to bytes that parse back to the list, a repeated name keeping its last value. |
| `Journald.FeedInvertsEncode` | internal/ingest/journald.go:105-170 | Encode, cut anywhere within the limits, feed: the entries come out and the decoder is left empty. |
| `Journald.CutsShowAfterOversize` | internal/ingest/journald.go:159-163 | Why the condition is needed: after any stream with an oversize length, the same entries in the same chunk or in the next one come out differently, for every non-empty list of entries. |
| `Journald.CutsShow` | internal/ingest/journald.go:159-163 | A concrete such stream: a field named X with a declared size of 2^64-1; the entries come out in one cut and not in the other. |
| `Journald.DroppedIsFresh` | internal/ingest/journald.go:118-126 | A call that drops something leaves the decoder as new, and yields only what came before an oversize length, or nothing if the buffer overflowed 1 MiB. |
| `Journald.EmptyLine` | internal/ingest/journald.go:134-140 | Empty lines between entries mean nothing. |
| `LdFormat.ParseLdEvent` | internal/ingest/ldformat.go:55-116 | The pair loop over the buffered reader computes the reference event, error and remaining input. |
| `LdFormat.ParseEvent` | internal/ingest/ldformat.go:55-116 | On arbitrary bytes a call either reports an error or the end of the stream, or has consumed at least one byte. |
| `LdFormat.ReadKeyBytes` | internal/ingest/ldformat.go:126-147 | Key reading: the same key, delimiter, errors and consumption, with the 256-byte limit. |
| `LdFormat.ReadValue` | internal/ingest/ldformat.go:81-109 | Both kinds of value, the size limit, short reads and the optional newline after a binary value. |
| `LdFormat.ParseLdStream` | internal/ingest/ldformat.go:38-51 | The stream loop emits the events of the reference parse in order and terminates on every input. |
| `LdFormat.StreamReads` | internal/ingest/ldformat.go:38-116 | Any non-empty events with legal keys, each with or without header, each binary pair with or without its newline: the stream parses without error to exactly these groups of pairs: an event left open by its last pair runs into the next one unless a header separates them. |
| `LdFormat.RoundTripExactly` | internal/ingest/ldformat.go:102-105 | The events themselves come back if and only if no event that ends in a binary pair without its newline is followed by one without a header: the ambiguity of the two dialects, characterised. |
| `LdBreaks.KeyExactly` | internal/ingest/ldformat.go:126-147 | A key is read exactly if the input starts with 1 to 256 printable bytes without equals sign and then a delimiter; otherwise the stream has ended if there was only the start of one, and is malformed if not. |
| `LdBreaks.ComplexExactly` | internal/ingest/ldformat.go:89-109 | A binary value is read exactly if its length is there, within 16 MiB, and followed by the data; and which error is reported otherwise. |
| `LdBreaks.StreamBreaks` | internal/ingest/ldformat.go:38-116 | A stream that breaks after whole events and some pairs of one more: the events are emitted, then what the pairs made, then the error, unless the stream has merely ended. |
| `LdBreaks.StreamEnds` | internal/ingest/ldformat.go:55-78 | A stream that just ends, within an event or right after a header, loses no pair. |
| `SyslogFrames.ReadSyslogFrame` | internal/ingest/syslog.go:367-412 | The deframer over its reader: message, error and remaining input as the reference computes them. |
| `SyslogFrames.FrameAccounted` | internal/ingest/syslog.go:367-412 | On arbitrary bytes: a call without error consumed decimal length, space and message, or exactly the returned line, or a line of digits and its newline; at the end of the stream it returns all that was left, except for count digits and a cut-off counted frame, which are lost. |
| `SyslogFrames.LastMessageExactly` | internal/ingest/syslog.go:373-411 | A rest without a final newline comes back as the last message if and only if it is neither all count digits nor starts like an octet count. |
| `SyslogFrames.DigitsAtEndLost` | internal/ingest/syslog.go:383-386 | Count digits at the end of the stream are lost, whatever their number. |
| `SyslogFrames.FortyTwoLost` | internal/ingest/syslog.go:383-386 | For instance the stream of the two bytes 42 yields no message. |
| `SyslogFrames.LineReadsBackExactly` | internal/ingest/syslog.go:379-411 | A newline-delimited line is read back as that line if and only if it does not start like an octet count (up to eight digits without leading zero, a space, a value up to the frame limit). |
| `SyslogFrames.CountedReads` | internal/ingest/syslog.go:392-398 | Every octet-counted frame of legal size comes back byte for byte, whatever follows. |
| `SyslogFrames.ReadAllInvertsEncodeAll` | internal/ingest/syslog.go:338-359 | Any mix of the two framings, within that condition, comes out message by message in order. |
| `SyslogFrames.HandleConn` | internal/ingest/syslog.go:338-359 | The connection loop collects the non-empty messages up to the first error. |
| `SyslogFrames.ConnectionReads` | internal/ingest/syslog.go:338-359 | All that a connection yields: the framed messages in order, and then those of a rest without newline: the rest itself, nothing if it is all count digits, or what it announces if it looks like an octet count, and so on. |
| `SyslogFrames.UnterminatedIsKept` | internal/ingest/syslog.go:346-358 | So a last line without its newline is yielded unless it is taken for a count. |
| `SyslogMessage.ParseSd` | internal/ingest/syslog.go:161-210 | The element loop and its inner loops compute the reference remainder and field map, and end on every input. |
| `SyslogMessage.SdRoundTrip` | internal/ingest/syslog.go:161-210 | Any elements, their names and keys free of the delimiters, with any parameter values at all, escaped, followed by a text that does not start an element: the text is what is left and the fields are the fold of the parameter assignments. |
| `SyslogMessage.QuotedReads` | internal/ingest/syslog.go:191-205 | Every value, whatever bytes it holds, survives escaping and reading. |
| `SyslogMessage.SdSuffix` | internal/ingest/syslog.go:161-210 | On arbitrary input the remainder is a tail of the input. |
| `SyslogMessage.Parse5424` | internal/ingest/syslog.go:107-157 | Header tokens, structured data and text set the fields of the entry in the order of the code; absent ones keep what the entry had. |
| `SyslogMessage.MessageRoundTrip` | internal/ingest/syslog.go:107-157 | Every RFC 5424 message (any of the five header tokens absent, any structured data, a text absent, plain or after a byte order mark) reads back to its parts; of the text what is read, and what is absent keeps the entry's value. |
| `SyslogMessage.TextReadsBackExactly` | internal/ingest/syslog.go:152-156 | A text after a byte order mark reads back as it is; a plain one if and only if it starts with neither a space nor a byte order mark. |
| `SyslogMessage.PriorityRoundTrip` | internal/ingest/syslog.go:90-103 | Every priority from 0 to 191 reads back from its angle brackets and splits into a valid facility and severity. |
| `SyslogMessage.PriorityExactly` | internal/ingest/syslog.go:90-103 | Which inputs are accepted: exactly one to three bytes between angle brackets that are digits with or without a sign, of value 0 to 191; the value and the rest are those. |
| `SyslogMessage.SignAccepted` | internal/ingest/syslog.go:98-99 | So <+5> reads as 5. |
| `SyslogMessage.BrokenParams` | internal/ingest/syslog.go:180-190 | Where a parameter should stand and none does, everything up to the next closing bracket is skipped, or to the end if there is none. |
| `SyslogMessage.UnclosedReads` | internal/ingest/syslog.go:191-205 | A quoted value that the input cuts off is what was there of it. |
| `SyslogMessage.CutElement` | internal/ingest/syslog.go:161-166 | An element that is cut off in its name is dropped with its bracket. |
| `SyslogMessage.LastToken` | internal/ingest/syslog.go:107-120 | A header may end early: the last token needs no space after it, and the others are absent. |
| `Notify.Engine.Append` | internal/notify/notify.go:237-262 | An entry updates the time its application was last heard and lets every rule observe it; no rule affects another. |
| `Notify.Engine.Tick` | internal/notify/notify.go:305-372 | A tick updates every rule and returns its event, if any, in rule order. |
| `Notify.Rule.Observe` | internal/notify/notify.go:244-260 | The bucket is bumped and the captured list shifted and extended in place, for exactly the matching entries of a live threshold rule. |
| `Notify.Rule.TickThresholdRule` | internal/notify/notify.go:315-348 | Pruning, summing, firing, clearing and advancing the ring, on the array. |
| `Notify.Rule.Tick` | internal/notify/notify.go:309-369 | One rule at one tick: retired, threshold or silence. |
| `Notify.Rule.constructor` | internal/notify/notify.go:195-207 | Defaults applied, ring of zeros of the right size, nothing captured or fired. |
| `NotifyRules.BuildRule` | internal/notify/notify.go:189-234 | Rejects a rule for the first of its faults, in the order of the code (no name; unknown type; a condition that does not compile; a silence rule without application or with a condition; an unconfigured channel), and otherwise builds a rule with the defaults that matches exactly the entries its condition, or its application and level, say. |
| `NotifyRules.CheckChannels` | internal/notify/notify.go:228-232 | The first channel that is not configured, if there is one. |
| `Notify.BucketCount` | internal/notify/notify.go:206 | The ring covers the window and exceeds it by less than a slot. |
| `NotifyRuns.RunRefines` | internal/notify/notify.go:237-372 | In every run, after every input, the ring read from its oldest slot holds the sizes of the newest inter-tick intervals since the last fire. |
| `NotifyRuns.TickCounts` | internal/notify/notify.go:321-324 | What a tick sums up is the number of matches in the last n inter-tick intervals since the last fire. |
| `NotifyRuns.HistoryIsMatching` | internal/notify/notify.go:244-260 | The matches counted there are exactly the matching entries among the inputs after the last firing tick; a retired rule has none. |
| `NotifyRuns.WindowError` | internal/notify/notify.go:206-207 | With ticks one slot apart that sum counts every match younger than the window and none as old as the window plus one slot. |
| `NotifyRuns.AlarmsAreTimely` | internal/notify/notify.go:315-346 | So a rested rule fires when the exact window holds the threshold, and fires only when the window plus a slot does. |
| `NotifySafety.EventsCarryNewest` | internal/notify/notify.go:316-341 | In every run with a clock that does not run backwards, an event carries exactly the newest fifty of the matches since the last fire not older than the window, oldest first, whatever was pruned and shifted on the way. |
| `NotifySafety.FiringSafety` | internal/notify/notify.go:325-345 | In every run, whatever the clock does: successive fires are at least the cooldown apart, never more than allowed happen, and the rule is retired exactly when the allowance is used up. |
| `NotifySafety.SilenceHeardBetweenFires` | internal/notify/notify.go:349-368 | Between any two fires of a silence rule its application logged at least once. |
| `NotifyExactly.SilenceFiresExactly` | internal/notify/notify.go:349-368 | At any tick of a run whose clock does not run backwards, a silence rule fires if and only if its allowance is not used up, its application was heard, the last time at least a window ago, every fire is at least the cooldown ago, and after each of them some tick found the application heard within the window. |
| `NotifyExactly.ThresholdFiresExactly` | internal/notify/notify.go:313-348 | And a threshold rule if and only if its allowance is not used up, every fire is at least the cooldown ago, and the matches since the last fire in the newest intervals that cover the window reach the threshold; the event counts them. |
| `NotifyExactly.IntervalsCover` | internal/notify/notify.go:206-207 | These are as many intervals of ten seconds as it takes to cover the window. |
| `Match.CompileMatch` | internal/notify/match.go:92-191 | For every condition tree: compilation succeeds exactly when every node sets something, every level is known, every pattern compiles and every string condition has one operator, and then the compiled predicate agrees with the recursive and/or meaning on every entry. |
| `Match.CompileCond` | internal/notify/match.go:51-78 | Succeeds exactly with one operator set, and then tests what the condition says, with or without case. |
| `Match.CompileFields` | internal/notify/match.go:131-141 | Field conditions in any iteration order: all must hold, and an absent field fails its condition. |
| `Match.ParseLevelStrict` | internal/notify/match.go:82-88 | Accepts exactly the seven level names in any case, and returns the level named. |
| `Match.LevelNames` | internal/model/entry.go:10-45 | The seven level names, in any case, and the numbers they stand for. |
| `Match.CondMeans` | internal/notify/match.go:51-78 | What a comparison accepts, as texts put together: the text with the operand inside, at its start, at its end, or the same; both in lower case unless the case counts. |
| `Match.LeafMeans` | internal/notify/match.go:92-142 | What a node that sets one thing accepts, for each of the things. |
| `Match.NodeMeans` | internal/notify/match.go:92-190 | A node that sets several accepts what each of them alone accepts. |
| `Match.ListMeans` | internal/notify/match.go:143-182 | A list of nodes accepts what all of them accept, or what one does. |
| `Graph.Extractor.Append` | internal/graph/extractor.go:110-150 | An entry changes nodes, edges and groups as specified: node first, then trace group, correlation group and named peer. |
| `Graph.Extractor.LinkGroup` | internal/graph/extractor.go:152-167 | Joining a group, its cap and the edge from the previous member. |
| `Graph.Extractor.Flush` | internal/graph/extractor.go:215-239 | Hands over every node and edge once, in some order, empties both maps and keeps the groups. |
| `Graph.Extractor.EvictGroups` | internal/graph/extractor.go:241-250 | Removes exactly the groups last touched before the cutoff. |
| `Graph.FirstField` | internal/graph/extractor.go:252-262 | The value of the first of the named fields that is set to something, and empty only if none is. |
| `GraphEntries.SightReads` | internal/graph/extractor.go:12-17 | What the extractor takes from an entry, by the names of its fields: trace id, correlation id, peer, whether it is an error (level 4 and above), and its time, or that of its arrival if it has none. |
| `GraphCounts.HitsAppend` | internal/graph/extractor.go:110-183 | The declarative count of an edge (adjacent pairs in every trace and correlation subsequence, plus entries naming the peer) grows with one more entry by its hit in its trace, in its correlation group and by its peer. |
| `GraphCounts.NoticedCounts` | internal/graph/extractor.go:110-183 | One entry adds to each edge's count, and to its errors, exactly what it adds to that declarative count. |
| `GraphFlush.CountsAreHits` | internal/graph/extractor.go:110-183 | In every run with no eviction and room for its groups, the counters of every edge are the declarative counts of the log. |
| `GraphEvents.CountsInEveryRun` | internal/graph/extractor.go:110-183 | The same with evictions, for every run in which no group was refused: an edge counts the entries that follow one of its caller in a group that still remembers it, and the entries that name it. |
| `GraphEvents.RememberedReads` | internal/graph/extractor.go:152-167 | A group remembers an entry exactly if it is the last one in the group and no eviction after it had a cutoff past its time. |
| `GraphEvents.StoredEventHits` | internal/graph/sqlite/sqlite.go:136-154 | After Close the stored count and errors of an edge are these, or it was never shown. |
| `GraphFlush.Store.UpsertGraph` | internal/graph/sqlite/sqlite.go:111-156 | The two upsert loops of a transaction compute the merge of the tables with the snapshot, in whatever order it lists its rows; a failed transaction changes nothing. |
| `GraphFlush.MergedSums` | internal/graph/sqlite/sqlite.go:118-154 | A merge is the pointwise join of counts, errors, origins and last times. |
| `GraphFlush.JoinMapsAssociative` | internal/graph/store.go:56-58 | Joining is associative, so a log may be split into batches anywhere. |
| `GraphFlush.FlushesDoNotShow` | internal/graph/extractor.go:215-239 | For every interleaving of entries, snapshots, transactions that commit or fail, and evictions: stored, lost, in flight and in memory add up to what an extractor that is never flushed would hold. |
| `GraphFlush.StoredIsWholeLog` | internal/graph/extractor.go:192-212 | Once everything is flushed successfully the tables hold the totals of the whole log. |
| `GraphFlush.SchedulesAgree` | internal/graph/extractor.go:198-239 | Two flush schedules over the same entries leave the same counts, errors, origins and last times in the tables. |
| `GraphFlush.StoredCounts` | internal/graph/sqlite/sqlite.go:136-154 | The stored count and errors of an edge are the declarative counts of the log, and an edge not stored has none. |
| `GraphFlush.CloseStoresAll` | internal/graph/extractor.go:192-212 | If no transaction failed, Close (a last snapshot, stored) leaves nothing in memory or in flight, and the tables hold the totals of the whole log, from any schedule before it. |
| `GraphSignals.EdgesAreTallies` | internal/graph/extractor.go:138-183 | In every run in which no group was refused, evictions included, each edge holds the tally, entry by entry, of its signals: marks, count, errors and last time. |
| `GraphSignals.TallyReads` | internal/graph/extractor.go:138-148 | The trace mark is set exactly when the callee followed the caller in some trace that still remembered it, the other mark exactly when it did under a correlation id or was named as peer, and the last time is that of the latest such entry. |
| `GraphSignals.StoredSignals` | internal/graph/sqlite/sqlite.go:136-154 | After Close the stored marks and last time of an edge are those, in every such run. |
| `GraphSignals.KeptIsFollowed` | internal/graph/extractor.go:138-148 | Without evictions, following an entry that the group remembers is coming right after it in the whole log. |
| `GraphEntries.EdgeCounts` | internal/graph/extractor.go:110-183 | In every run of log entries in which no group was refused: an edge counts the entries that follow one of its caller under a trace id or a correlation id, read from the named fields, and those that name it as peer; and as errors those at level 4 and above. |
| `GraphEntries.EdgeMarks` | internal/graph/extractor.go:138-183 | The trace mark of an edge is set exactly if an entry follows by trace id, the other exactly if one follows by correlation id or names the callee, and its last time is that of the latest of these entries. |
| `GraphEntries.NodeCounts` | internal/graph/extractor.go:123-136 | In every run of log entries a service counts its entries and its errors. |
| `GraphEntries.StoredEntries` | internal/graph/sqlite/sqlite.go:118-154 | After Close the stored services and edges are these counts, marks and times of the entries. |
| `GraphSignals.NodesAreCounts` | internal/graph/extractor.go:123-136 | In every run, evictions and refused groups included, the counters of a node are the number of entries, and of errors, of its application. |
| `GraphSignals.StoredNodes` | internal/graph/sqlite/sqlite.go:118-134 | After Close a service is stored with exactly these numbers, or it never logged. |
| `GraphFlush.EdgesSound` | internal/graph/extractor.go:147-167 | In every run, in memory, in flight and stored: no edge from a service to itself or to nobody, and errors never exceed the count. |
| `GraphFlush.FirstSeenDependsOnFlush` | internal/graph/sqlite/sqlite.go:130-131 | The one column that does depend on the schedule: the same two entries of a node, flushed separately or together, store different first times and equal totals. |
| `GraphFirst.FirstTimeOfNode` | internal/graph/sqlite/sqlite.go:118-134 | For every run, failed transactions included: a node is stored exactly when a batch with its entries was committed, and its first time is that of the latest entry of the first such batch, which is the events between two snapshots. |
| `GraphFirst.FirstTimeOfEdge` | internal/graph/sqlite/sqlite.go:136-154 | The same for an edge and the entries that show it. |
| `GraphFirst.FirstSeenOfNode` | internal/graph/sqlite/sqlite.go:130-131 | If no transaction failed: the stored first time of a node is that of its first entry if and only if no entry of it with a later millisecond precedes the snapshot with which it was first stored. |
| `GraphFirst.FirstSeenOfEdge` | internal/graph/sqlite/sqlite.go:150-151 | The same for an edge. |
| `Deploys.Detector.Append` | internal/graph/deploys.go:81-105 | A version is noted when it differs from the last one of its application, under the cap on tracked applications. |
| `Deploys.Detector.Flush` | internal/graph/deploys.go:143-156 | Hands each tenant's pending markers to the store and forgets them, whether the store takes them or not; the order of tenants does not matter. |
| `Deploys.DeployStore.InsertDeploys` | internal/graph/sqlite/sqlite.go:207-235 | Markers are inserted in order, each skipped if its version is that of the latest stored row of its application; a failed transaction writes nothing. |
| `Deploys.LatestRow` | internal/graph/sqlite/sqlite.go:219-221 | A row of the application with the greatest time, or none if it has no row. |
| `Deploys.InsertAllOf` | internal/graph/sqlite/sqlite.go:207-235 | A batch does to the rows of every application what putting its own markers in one by one does, whatever their times. |
| `Deploys.StoredIsPut` | internal/graph/sqlite/sqlite.go:217-233 | In every run, failed inserts, a full detector and disordered times included: what is stored of an application is its delivered markers, each put in unless the row with the greatest time before it has its version. |
| `Deploys.MarksAreMade` | internal/graph/deploys.go:97-104 | Under the cap, delivered and waiting markers are the changes of version and the first sightings after restarts. |
| `Deploys.FullDetector` | internal/graph/deploys.go:97-104 | A detector that tracks 10,000 applications takes no other, and goes on with those it tracks. |
| `Deploys.PutExactly` | internal/graph/sqlite/sqlite.go:219-227 | Putting markers in drops exactly the repetitions if every guard is right; after one wrong guard the result is wrong for good: a version is missing, or one is stored twice in a row. |
| `Deploys.HistoryIsKeptExactly` | internal/graph/deploys.go:81-105 | For every placement of flushes and graceful restarts, under the cap and with no failing insert: stored and then waiting rows amount to the observed sequence without consecutive repetitions if and only if at every marker the version with the greatest time is the marker's exactly if the version just before is. |
| `Deploys.StoredIsDestuttered` | internal/graph/sqlite/sqlite.go:204-227 | After a flush or a restart: the stored history of every application is that sequence if and only if every marker finds the guard of the insert right. |
| `Deploys.DeliveredIsKeptExactly` | internal/graph/sqlite/sqlite.go:204-227 | In every run at all, failing inserts and a full detector included: the stored rows of an application are its delivered markers without consecutive repetitions if and only if each of them finds the guard right. |
| `Deploys.InOrderIsKept` | internal/graph/sqlite/sqlite.go:204-206 | So it is enough that each change of version carries a later millisecond than the one before it; repeated sightings may carry any time. |
| `Deploys.OutOfOrderDropsAMarker` | internal/graph/sqlite/sqlite.go:219-227 | An input that fails: two versions alternate, the middle sighting has the older time, and the third is not stored. |
| `Topology.SimulateOutage` | ui/src/Topology.tsx:1697-1725 | Dead are the nodes living only in the value, degraded those with another home, and dead with cascade is the least set containing dead and closed under synchronous callers; the cascade is disjoint from dead, and the worklist ends on cyclic graphs. |
| `Topology.CascadeReasons` | ui/src/Topology.tsx:1707-1723 | The cascade takes every caller of something dark unless it calls over kafka or nats, in any case, and nothing without such a reason. |
| `Topology.HomesExactly` | ui/src/Topology.tsx:1700-1705 | A node is at home in the parts of its label, or of an empty one if it has none. |
| `Topology.Cascade` | ui/src/Topology.tsx:1709-1723 | The frontier loop computes the least closed set from any start. |
| `Topology.LeastIsUnique` | ui/src/Topology.tsx:1709-1724 | That set is determined by edges and start. |
| `Topology.ComputeImpact` | ui/src/Topology.tsx:1634-1691 | Direct synchronous callers and dependencies, each with the transport of its last such edge; a cascade, without repetitions, of exactly the services at call distance two or three; consumers fed through a broker; topics and the services sharing them; and the number of services affected. |
| `Topology.TopicExactly` | ui/src/Topology.tsx:1636-1640 | A service is a topic exactly if the last node of its name is in the group of kafka topics or kafka clusters. |
| `Topology.ChainInBall` | ui/src/Topology.tsx:1665-1676 | A chain of at most n synchronous calls puts its first service within distance n. |
| `Topology.BallHasChain` | ui/src/Topology.tsx:1665-1676 | And every service within distance n has such a chain: distance means call chains. |
| `Query.Matches` | internal/query/plan.go:115-146 | The live filter accepts an entry exactly when tenant, application, source, level, field and text conditions hold. |
| `Query.SortedKeys` | internal/storage/clickhouse/query.go:71-83 | The in-place insertion sort over the map's keys returns all of them once, strictly ascending. |
| `Sorting.InsertionSort` | internal/storage/clickhouse/query.go:77-81 | The swap loops leave the array a sorted permutation of itself. |
| `Query.BuildSql` | internal/storage/clickhouse/query.go:16-65 | The text and arguments grown side by side are those of the plan, the field clauses in ascending order of key. |
| `Query.SqlMeansPlan` | internal/storage/clickhouse/query.go:16-65 | Reading the generated text clause by clause, each placeholder taking the next argument, the query parses, uses up its arguments, and accepts exactly the entries of the tenant that pass filters and time bounds, up to the plan's limit. |
| `Query.AgreementExactly` | internal/query/plan.go:113-118 | Database and live filter agree on all entries if and only if the plan names a tenant or its time bounds exclude everything. |
| `Query.PlaceholdersMatchArgs` | internal/storage/clickhouse/query.go:16-69 | There are as many placeholders as arguments. |
| `Query.AbsentField` | internal/query/plan.go:137-141 | A condition on a field an entry does not have is one on an empty text, in the database as in the live filter. |
| `Text.LessExactly` | internal/storage/clickhouse/query.go:77-81 | The order of keys: one text is less than another exactly if where they first differ it ends or has the smaller character. |
| `Plans.ParsePlan` | internal/query/plan.go:46-100 | A request fails exactly on an unparsable time or limit, and otherwise yields the plan it asks for: values in order, levels, field conditions from their first values, text and limit. |
| `Plans.LevelsRead` | internal/query/plan.go:55-67 | Any list of levels, each a digit or a name in any case between blanks, joined by commas, reads as that list. |
| `Plans.LimitReads` | internal/query/plan.go:88-97 | A limit written in decimal is that limit up to 10000, and zero is rejected. |
| `Plans.PlanUnique` | internal/query/plan.go:46-100 | A request determines its plan, although the field parameters are visited in any order. |
| `Plans.RequestsAgree` | internal/query/plan.go:46-118 | For every request that parses, the generated query and the live filter accept the same entries within the time bounds, and the limit is between 1 and 10000. |
| `Plans.RequestReads` | internal/query/plan.go:46-100 | What each parameter of a request contributes to its plan, by name: applications, sources, levels, the time bounds, the search text, the limit up to 10,000, and a condition for every parameter of a field. |
| `Plans.EmptyRequest` | internal/query/plan.go:46-100 | A request without parameters asks for the newest hundred entries of the tenant, whenever they are. |
| `Plans.FailsExactly` | internal/query/plan.go:70-97 | A request fails exactly if a time or a limit is given that does not parse, or a limit that is not positive. |
| `Plans.TrimExactly` | internal/query/plan.go:57 | Trimming takes off blanks at both ends and nothing else. |
| `Plans.BlankExactly` | internal/query/plan.go:57 | Blanks are white space as Unicode has it, by the codes. |
| `Batcher.Batcher.TryAppend` | internal/storage/batcher.go:70-79 | Takes the entry exactly when the queue has room; otherwise nothing changes. |
| `Batcher.Batcher.TakeNext` | internal/storage/batcher.go:113-122 | One receipt: the batch grows and is flushed at its size, or a closed and empty queue flushes the rest and ends the loop. |
| `Batcher.Batcher.FlushWithRetry` | internal/storage/batcher.go:129-149 | A batch is inserted at the first attempt that succeeds or counted as dropped after the last one allowed; the pauses between attempts double. |
| `Batcher.Batcher.CloseAndWait` | internal/storage/batcher.go:88-94 | Close ends the loop with queue and batch empty, and everything held before is in flushed batches, in order. |
| `Batcher.NextConserves` | internal/storage/batcher.go:96-127 | No step but an accepted offer changes the sequence of entries held, and that one adds at its end. |
| `Batcher.Conserved` | internal/storage/batcher.go:96-149 | For every schedule of offers, receipts, ticks, insert failures and Close: the accepted entries in order are the finished batches, the current batch and the queue; no batch exceeds the size and the queue never its capacity. |
| `BatcherRuns.RunReads` | internal/storage/batcher.go:96-149 | The same read off the events alone: which offers find room, what the loop has received, and where the batches are cut: when full, at every tick, and at the end. Each event flushes exactly what it cuts off, inserted if and only if one of the attempts allowed succeeds. |
| `BatcherRuns.TickFlushes` | internal/storage/batcher.go:123-124 | After a tick nothing received is waiting: the finished batches are all entries received so far, in order. |
| `BatcherRuns.TakenIsAccepted` | internal/storage/batcher.go:70-79 | The entries taken are those before Close that found fewer than four batches queued. |
| `BatcherRuns.SettingsExactly` | internal/storage/batcher.go:39-52 | Options that are set are kept, the others get their documented defaults. |
| `Batcher.ClosedAccounts` | internal/storage/batcher.go:80-94 | After Close inserted plus dropped is accepted, as multisets and in number. |
| `Batcher.ClosedDrains` | internal/storage/batcher.go:109-117 | Once closed, one receipt for each queued entry and one more end the loop. |
| `Backstage.BackstageNames` | internal/graph/backstage.go:122-133 | The nested loops, over the map of names and the set of taken ones, assign the specified names and end for every list. |
| `Backstage.Free` | internal/graph/backstage.go:126-128 | The number found is the first whose candidate is free, and the search passes at most as many numbers as there are taken names. |
| `Backstage.NamesAreUnique` | internal/graph/backstage.go:120-133 | Every app gets a name, different apps get different ones, and every name is over the allowed alphabet and starts with a letter or digit. |
| `Backstage.BoundExactly` | internal/graph/backstage.go:120-121 | All lists of n distinct apps get names of at most 63 characters if and only if n is at most 998. |
| `Backstage.CrowdedOut` | internal/graph/backstage.go:126-128 | The case beyond: 998 apps in any order and one more give a name of 64 characters. |
| `Backstage.SanitizeProper` | internal/graph/backstage.go:135-157 | The plain name is over the allowed alphabet, starts with a letter or digit and has at most 63 characters, for every app; it is the app's own name if and only if that is so too and ends in a letter or digit. |
| `Backstage.EndsWellExactly` | internal/graph/backstage.go:144-157 | Separators are trimmed before the cut: a plain name ends in a letter or digit if and only if the trimmed name has at most 63 characters or one of these in the sixty-third place. |
| `Backstage.CutShows` | internal/graph/backstage.go:144-157 | An app for which it does not: 62 letters, a dash and a letter give a name that ends in the dash. |
| `Backstage.CleanedExactly` | internal/graph/backstage.go:144-156 | Every character but letters, digits and the three separators becomes a dash, and nothing else changes. |
| `Backstage.NothingLeft` | internal/graph/backstage.go:135-140 | An app without a letter or digit is called service. |
| `Backstage.NumbersCount` | internal/graph/backstage.go:122-133 | The second app with the same plain name is numbered 2, the third 3. |
| `Backstage.CompactSorted` | internal/graph/backstage.go:195-202 | The in-place compaction of a sorted slice keeps each string once, in ascending order. |
| `Backstage.SortedUnique` | internal/graph/backstage.go:191-203 | Any list of strings comes out strictly ascending, with the same strings. |
| `Bytes.DecimalCanonical` | internal/ingest/syslog.go:401 | The decimal numeral of the number a digit string without leading zero stands for is that digit string, which is why the deframer may rebuild consumed digits. |
| `Bytes.BigEndianRoundTrip` | internal/ingest/ldformat.go:93 | A number that fits comes back from its big-endian bytes. |
| `Bytes.LittleEndianRoundTrip` | internal/ingest/journald.go:158 | A number that fits comes back from its little-endian bytes. |
| `Bytes.EndianDigits` | internal/ingest/journald.go:158 | And which byte is which: the least significant first, or last. |
| `Bytes.ParseIntExactly` | internal/ingest/python.go:208-234 | A decimal integer is accepted exactly with an optional sign, at least one digit, and a value of 64 bits. |
| `GraphFlush.MillisExactly` | internal/graph/sqlite/sqlite.go:130 | Stored times are whole milliseconds since 1970, rounded down. |

## Left out

- Pickle.Machine.PerformFill: lists are values here, slices in the source; two slices that share an array, after a list that already had items was memoised, fetched and extended twice, are not modelled. A pickler memoises a list before it adds items, and never extends one it fetched. Dicts are shared references in both.
- Pickle.Machine.ReadLong: the bitwise "or" of disjoint bytes is addition here, and the 64-bit word is a bounded integer.
- Pickle.ReadImmediate: `strconv.ParseFloat` is a parameter, so a decimal float line means what that function says.
- PickleSafety.HandleConn: the input is the whole byte stream of a connection; read errors other than its end are not modelled.
- SyslogMessage.Parse5424: the timestamp is handed on as text, because time layouts are the library's; the RFC 3164 branch, with its year guessing and heuristics, and the facility and severity name tables are not part of this model.
- Journald.Decoder.Feed: the map of decoders per source with its cap, and the mapping of journal fields to entries, are not part of this model; neither is that of ld_format events and Python records.
- NotifyRules.BuildRule: the error texts are left out. Durations are unbounded integers.
- Notify.Engine.Tick: an event is its time, count and entries; the message text, the channels and the sending are left out, as is adding and removing rules while running.
- NotifyExactly.SilenceFiresExactly: stated, like `NotifyExactly.ThresholdFiresExactly`, for a clock that does not run backwards; `NotifySafety.FiringSafety` needs no such condition.
- NotifyRuns.WindowError: stated for ticks exactly one slot apart, as the ticker promises; a delayed tick widens its interval.
- Match.CompileCond: lower-casing and patterns are parameters, and the error texts are left out.
- Match.ParseLevelStrict: folding is ASCII only, which on the seven level names agrees with the Unicode folding of the source.
- Graph.Extractor.Append: counters are unbounded; the mutex makes each call one step.
- GraphEvents.CountsInEveryRun: stated, like the readings of `GraphSignals`, for runs in which the cap refused no group; `GraphFlush.FlushesDoNotShow` needs no such condition.
- GraphFlush.Store.UpsertGraph: a transaction is atomic, tables are maps; the edge metrics series and the declared overlay are left out.
- Deploys.Detector.Append: the version found in an entry is given, because the patterns that find it are the library's; so is the time.
- Deploys.Detector.Flush: which inserts fail is a parameter; `Deploys.StoredIsDestuttered` is about runs in which none does, since a failed one loses its markers, and `Deploys.DeliveredIsKeptExactly` about all runs.
- Deploys.LatestRow: of rows with equal times the first counts, as the index on tenant, application and descending time lists it; the database promises no order between them.
- Topology.ComputeImpact: the sorting of the lists for display is left out, so callers and dependencies are maps, and topics, peers and consumers are sets.
- Query.Matches: case-insensitive search is one predicate shared by the live filter and the database function, whose foldings may differ outside ASCII.
- Query.SqlMeansPlan: the query text is read back by a small evaluator of the clauses that can occur; ordering by time and the effect of the limit are the database's.
- Plans.ParsePlan: the time parser is a parameter, and JSON output is left out.
- Batcher.Batcher.TryAppend: the blocking send is the same step, waited for; sending after Close, which panics in the source, is excluded.
- BatcherRuns.TickFlushes: when ticks come is left to the ticker; they are events of the run.
- Batcher.Batcher.FlushWithRetry: whether an attempt succeeds is a parameter, and an insert is atomic.
- Backstage.SanitizeProper: invalid UTF-8 is not modelled.
- Backstage.SortedUnique: the library's sort is stood in for by an insertion sort.
- Rates, error-rate jumps, graph diffs, snapshots and the HTML, Mermaid and Markdown exports: comparisons and formatting.
- Sockets, HTTP, gRPC and WebSocket handlers, plugins, channels, authentication and configuration: input and output around libraries.
- The rest of the user interface.
