# ALOHA trace parser, modelled in Dafny

This project models `scripts/trace_parser_aloha.py`, the analyser of ns-3 Aqua-Sim ALOHA ASCII
traces, and proves properties of the model. The analyser works in three stages:

- It groups the physical lines of a trace file into events (`parse_events`).
- It turns every `t`/`r` event into one TRACE row, the sixteen TRACE columns kept as one
  `Record` per row (`parse_fields`). It also runs each node's collision and energy accounting,
  NODE_INFO, along the way.
- It derives the metrics from TRACE and NODE_INFO: received and sent packets, TX/RX calls,
  clean receptions, energy, energy per bit, collisions, throughput, PDR, average delay and the
  10-second instantaneous throughput windows.

Modules, one per file:

| file | module | what it holds |
|---|---|---|
| `wrappers.dfy` | `Wrappers`, `Faults` | `Option`, `Result`, and the Python exceptions the code can raise, as values |
| `text.dfy` | `Text` | `str.split`, `str.replace(p, "")`, `line[:-1]`, ASCII digits, the `\s` class |
| `field_extractor.dfy` | `FieldExtractor` | `parse_field_value` and the fixed search `DestAddress=(\d+)` |
| `address_decoder.dfy` | `AddressDecoder` | `convert_string_to_int` |
| `event_splitter.dfy` | `EventSplitter` | `parse_events` over the file's lines |
| `node_tracker.dfy` | `NodeTracker` | NODE_INFO (insertion order plus map) and the TX/RX collision and energy rules |
| `trace_parser.dfy` | `TraceParser` | the event loop of `parse_fields`, record by record |
| `metrics.dfy` | `Metrics` | the counting, energy, PDR and throughput metrics |
| `windows.dfy` | `Windows` | `calc_delay` and `calc_isntantaneous_throughput` |

Python exceptions are values of `Fault`, and every operation that can raise returns a
`Result`:

- IndexError: `line[0]` on an empty event, a missing token, or `PAYLOAD_SIZE[0]` on an empty
  TRACE.
- ValueError: from `int`/`float`, or from the address decoder.
- UnboundLocalError: `unique_id` read before any assignment.
- ZeroDivisionError: in `calc_pdr`.
- KeyError: in `calc_rx_nocol_calls`.

Each accumulating loop of the source is a `method` proved equal to a function of its input.
Most of these functions are defined over prefixes; `CalcSentPackets` is proved equal to the
number of rows. The properties are then proved about those functions. The preallocation loop
of NODE_INFO (ids 0..299) is the map comprehension `InitialTable`. Three parts of these loops are methods
of their own: the node update in the body of the `parse_fields` loop (`UpdateNode`), the
inner loop of `calc_delay` (`CollectDelays`), and the whole second loop of
`calc_isntantaneous_throughput` (`ScanWindows`). All
arithmetic uses exact `real` and `int`.

The code behaves as follows where a reader might expect otherwise:

- `calc_sent_packets` counts every TRACE row, TX and RX, not only TX rows. So a trace with one
  TX and one delivered RX gives `sent == 2` and PDR 0.5, not 1.0.
- A missing `UniqueID` is not fatal: the record reuses the previous record's UniqueID. It fails
  (UnboundLocalError) only on the first record.
- `TxTime` loses every `+` and every `ns`, not just a leading sign and a trailing unit.
- `calc_delay` and `calc_isntantaneous_throughput` do not check that a row is an RX row. Any row
  with `int(MAC_DST_ADDR) == NODE_ID + 1` counts, a TX row included.
- Payload sizes are whatever `int()` gives, negative ones included. The energy-monotonicity
  results therefore assume non-negative sizes.
- NODE_INFO is preallocated with ids 0..299, and the power constants are fixed.
- `calc_rx_nocol_calls` raises KeyError when a node id outside 0..len-1 was created.
- An empty trace file yields the single event `""`, on which `parse_fields` faults.

## Model

| member | source | states |
|---|---|---|
| `FieldExtractor.RunFrom` | scripts/trace_parser_aloha.py:55 | the captured run is a slice of the text, every character is in the class, and the run stops at the end or at a character outside it (greedy `+`) |
| `FieldExtractor.FirstMatchFrom` | scripts/trace_parser_aloha.py:56 | the reported position matches and no earlier position at or after the start does; None means no position matches |
| `FieldExtractor.Capture` | scripts/trace_parser_aloha.py:56-58 | None exactly when the pattern matches nowhere; otherwise the group is the greedy run after the leftmost match |
| `FieldExtractor.ParseFieldValue` | scripts/trace_parser_aloha.py:52-63 | None exactly when no `Name=` is followed by a character other than whitespace and `)`; otherwise the value has no whitespace or `)`, comes from the leftmost such match with at most one trailing comma removed, and is empty only when the run was a lone comma |
| `FieldExtractor.DestAddress` | scripts/trace_parser_aloha.py:352-354 | None exactly when `DestAddress=` is never followed by a digit; otherwise the non-empty greedy run of digits after the leftmost such `DestAddress=` |
| `AddressDecoder.ConvertStringToInt` | scripts/trace_parser_aloha.py:291-323 | succeeds exactly on 1-4 ASCII digits; a bad length and a non-digit give their own ValueError; the result lies in 0..3294 and equals the decimal value with the leading place re-weighted to 255 (unchanged for a leading 0 or a single digit) |
| `AddressDecoder.DecoderExamples` | scripts/trace_parser_aloha.py:291-323 | "0"→0, "05"→5, "7"→7, "100"→255, "999"→2394; "12a", "" and "12345" are refused |
| `AddressDecoder.DecoderNotInjective` | scripts/trace_parser_aloha.py:306-323 | "0255" and "100" both decode to 255 |
| `Text.RemoveCharIsFilter` | scripts/trace_parser_aloha.py:116 | `replace('+', '')` equals the filter that drops every `+` and keeps every other character in order and with its count |
| `Text.RemoveCharFacts` | scripts/trace_parser_aloha.py:116 | after `replace('+', '')` no `+` is left, and every other character of the input still occurs |
| `Text.SignAndUnitRemoved` | scripts/trace_parser_aloha.py:116 | the TxTime text "+1.5ns" becomes "1.5" |
| `Text.SinglePass` | scripts/trace_parser_aloha.py:116 | `replace('ns', '')` is one left-to-right pass: "nnss" leaves "ns" |
| `EventSplitter.Events` | scripts/trace_parser_aloha.py:20-42 | there is always at least one event, because the final append is unconditional |
| `EventSplitter.EventCount` | scripts/trace_parser_aloha.py:25-41 | the number of events is 1 plus the lines after the first that start with `t` or `r` |
| `EventSplitter.EventCountWhenFirstLineOpens` | scripts/trace_parser_aloha.py:25-41 | when the first line starts with `t` or `r`, there is one event per such line |
| `EventSplitter.EventsPreserveText` | scripts/trace_parser_aloha.py:25-41 | the events glued together are the lines, each without its last character, glued together |
| `EventSplitter.ParseEvents` | scripts/trace_parser_aloha.py:20-42 | the loop yields exactly `Events(lines)`, so it has the count and text-preservation properties above |
| `NodeTracker.AirTime` | scripts/trace_parser_aloha.py:175 | air time is non-negative for a non-negative payload |
| `NodeTracker.OverlappingTxCollides` | scripts/trace_parser_aloha.py:177-186 | after a clean TX at `ts`, a TX on the same node collides iff it starts before `ts + air`, adding exactly one collision |
| `NodeTracker.Update` | scripts/trace_parser_aloha.py:172-285 | TX collides iff `ts < LAST_TS`; RX collides iff `ts - air < LAST_TS`; a collision adds exactly one to COLLISION_COUNT and touches nothing else except TX energy; a clean event sets LAST_TS to `ts + air` (TX) or `ts` (RX) and adds `(ts - LAST_TS)/1e9 × IDLE_POWER` to IDLE_ENERGY; a clean RX adds one to PROCESSED_RX_COUNT and `air × RX_POWER` to RX_ENERGY; TX_ENERGY grows by air × (TX_POWER + IDLE_POWER) on every TX and never on RX; with a non-negative payload no energy field and not LAST_TS decreases |
| `NodeTracker.InitialTable` | scripts/trace_parser_aloha.py:71-75 | NODE_INFO starts with ids 0..299 in order, all at NODE_VALUES |
| `NodeTracker.ApplyEvent` | scripts/trace_parser_aloha.py:77-80 | creates the node on demand (appended to the iteration order); only that node's entry changes, to the outcome of `Update` |
| `NodeTracker.ApplyEventCounts` | scripts/trace_parser_aloha.py:174-187 | an event adds exactly its `bad` flag to the collision total and its clean RX to the processed-RX total |
| `NodeTracker.ApplyEventGrows` | scripts/trace_parser_aloha.py:174-182 | with a non-negative payload no node loses energy or busy-until time and the total energy does not decrease |
| `NodeTracker.SumOverRange` | scripts/trace_parser_aloha.py:450-451 | when the ids are exactly 0..n-1, summing by id equals summing in insertion order |
| `NodeTracker.DenseIds` | scripts/trace_parser_aloha.py:450 | ids 0..n-1 are all present iff no id lies outside 0..n-1 |
| `TraceParser.ParseRecord` | scripts/trace_parser_aloha.py:85-169 | a parsed record has the event's mode and the event as ORIGINAL_LINE, and is not yet flagged; its field values and its faults are stated by `ParseRecordValues` and `ParseRecordFaults` |
| `TraceParser.ParseRecordValues` | scripts/trace_parser_aloha.py:85-266 | TS is `float` of the second token, NODE_ID `int` of the third `/`-segment of the third token; Size, NumForwards and UniqueID are `int` of their values; PacketType, Direction, Error, SA and DA are their values; a TX TxTime is the float of its value with every `+` and `ns` removed, or 0.0; an RX row without DA takes DestAddress |
| `TraceParser.ParseRecordFaults` | scripts/trace_parser_aloha.py:85-266 | IndexError without a second token, ValueError when it is not a float, IndexError without a third token or third `/`-segment, ValueError when that segment is not an int; the record is built exactly when every conversion it reaches succeeds and a UniqueID is available |
| `TraceParser.ParseRecordDefaults` | scripts/trace_parser_aloha.py:90-169 | TX_POWER and RX_POWER columns; the record needs three space-separated tokens; the defaults "UNKNOWN", 50, 0.0, "UNKNOWN", 0, "False", "000", "000" for absent or empty fields; a missing UniqueID repeats the previous record's and faults on the first record |
| `TraceParser.Step` | scripts/trace_parser_aloha.py:83-191 | one iteration keeps NODE_INFO well formed and leaves everything unchanged for an event that starts with neither `t` nor `r` |
| `TraceParser.StepFacts` | scripts/trace_parser_aloha.py:83-289 | one successful iteration: the event was not empty; a `t`/`r` event appends exactly one record, with that event as ORIGINAL_LINE and TX exactly for `t`, and NODE_INFO and `bad` are `ApplyEvent`'s; any other event changes nothing |
| `TraceParser.ParseAll` | scripts/trace_parser_aloha.py:65-289 | a successful parse leaves NODE_INFO with each id once in iteration order and an entry for each |
| `TraceParser.FaultAborts` | scripts/trace_parser_aloha.py:83-289 | the first fault is the result of the whole parse |
| `TraceParser.RecordsFollowEvents` | scripts/trace_parser_aloha.py:83-289 | TRACE has one row per `t`/`r` event, in order, carrying that event; MODE is TX exactly for `t` events; no event was empty |
| `TraceParser.RowsBuilt` | scripts/trace_parser_aloha.py:83-289 | row i of TRACE is the record built from the i-th `t`/`r` event with the UniqueID of row i-1 carried over, its `bad` flag aside |
| `TraceParser.TraceRowDefaults` | scripts/trace_parser_aloha.py:90-169 | after the parse, every TRACE row whose line lacks Size, NumForwards, Direction, Error or SA carries 50, 0, "UNKNOWN", "False" or "000"; RX rows have TX_TIME 0.0; the power columns are fixed |
| `TraceParser.EmptyFileFaults` | scripts/trace_parser_aloha.py:86 | the single event `""` of an empty file faults with IndexError |
| `TraceParser.ParseIsAppendOnly` | scripts/trace_parser_aloha.py:83-289 | the TRACE of a prefix of the events is a prefix of the full TRACE, `bad` flags included |
| `TraceParser.ParseOnlyGrows` | scripts/trace_parser_aloha.py:174-282 | with non-negative payloads, parsing more events never lowers a node's energies or LAST_TS, never drops a node, and never lowers the total energy |
| `TraceParser.EnergyNonNegative` | scripts/trace_parser_aloha.py:455-468 | with non-negative payloads the total energy after the parse is non-negative |
| `TraceParser.CountersMatchFlags` | scripts/trace_parser_aloha.py:174-287 | after the parse the collision total equals the number of `bad` rows, and the processed-RX total equals the number of clean RX rows |
| `TraceParser.UpdateNode` | scripts/trace_parser_aloha.py:174-285 | the in-place updates of one node's entry give exactly `ApplyEvent` |
| `TraceParser.ParseFields` | scripts/trace_parser_aloha.py:65-289 | the event loop, with the `unique_id` local carried across rows, gives exactly `ParseAll` |
| `Metrics.CountMode` | scripts/trace_parser_aloha.py:440-446 | a mode count is at most the number of rows |
| `Metrics.TxPlusRxIsAll` | scripts/trace_parser_aloha.py:440-446 | TX calls plus RX calls is the number of rows |
| `Metrics.CalcSentPackets` | scripts/trace_parser_aloha.py:427-436 | sent packets is the number of rows, which is TX calls plus RX calls |
| `Metrics.DeliveredMembers` | scripts/trace_parser_aloha.py:346-358 | a UniqueID is delivered iff some clean RX row with it has `DestAddress=` digits decoding to its node id + 1 |
| `Metrics.DeliveredBound` | scripts/trace_parser_aloha.py:346-360 | received packets is at most the number of clean RX rows |
| `Metrics.DeliveryFaultAborts` | scripts/trace_parser_aloha.py:357 | a decoder fault at some row is the result of the whole count |
| `Metrics.CalcRecvPackets` | scripts/trace_parser_aloha.py:346-360 | the loop gives exactly `RecvPackets`, at most the number of clean RX rows |
| `Metrics.Pdr` | scripts/trace_parser_aloha.py:498-502 | succeeds iff TRACE is non-empty and the count succeeds; an empty TRACE gives ZeroDivisionError; the ratio lies in [0, 1] and times the row count gives received packets |
| `Metrics.CalcEnergyConsumption` | scripts/trace_parser_aloha.py:455-468 | the loop sums RX, TX and idle energy over NODE_INFO in iteration order |
| `Metrics.EnergyPerBit` | scripts/trace_parser_aloha.py:473-478 | succeeds iff the count does; 0.0 when nothing was received; otherwise value × received bits = total energy; non-negative when the energy is |
| `Metrics.CalcTotalCollisions` | scripts/trace_parser_aloha.py:482-487 | the loop sums COLLISION_COUNT over NODE_INFO |
| `Metrics.RxNocolUpTo` | scripts/trace_parser_aloha.py:448-452 | succeeds iff ids 0..n-1 are all present, then the sum of their PROCESSED_RX_COUNT; otherwise KeyError on a missing id |
| `Metrics.CalcRxNocolCalls` | scripts/trace_parser_aloha.py:448-452 | the loop gives exactly `RxNocolCalls`, stopping at the first KeyError |
| `Metrics.KeyErrorAborts` | scripts/trace_parser_aloha.py:450-451 | a KeyError at some id is the result of the whole sum |
| `Metrics.RxNocolCountsCleanReceptions` | scripts/trace_parser_aloha.py:448-452 | after a parse, `calc_rx_nocol_calls` succeeds iff every node id lies in 0..len-1, and then equals the number of clean RX rows |
| `Metrics.Throughput` | scripts/trace_parser_aloha.py:491-494 | IndexError exactly on an empty TRACE; otherwise between 0 and rows × first payload size |
| `Metrics.RxErrors` | scripts/trace_parser_aloha.py:337-343 | RX rows with Error "True" are at most the RX calls |
| `Metrics.DetectTxConflicts` | scripts/trace_parser_aloha.py:337-343 | the loop counts exactly the RX rows with Error "True" |
| `Windows.OwnIgnoresMode` | scripts/trace_parser_aloha.py:371 | the own-address test gives the same answer whatever the row's RX/TX-MODE |
| `Windows.SendDelays` | scripts/trace_parser_aloha.py:373-376 | at most one sample per TX row |
| `Windows.SendDelaysSound` | scripts/trace_parser_aloha.py:373-376 | each sample is `(TS[i] - TS[j]) / 1e9` for a TX row j with the same UniqueID |
| `Windows.SendDelaysComplete` | scripts/trace_parser_aloha.py:373-376 | every TX row with the same UniqueID contributes its sample |
| `Windows.SendDelaysCount` | scripts/trace_parser_aloha.py:373-376 | the number of samples equals the number of TX rows carrying the UniqueID |
| `Windows.DelayRunFacts` | scripts/trace_parser_aloha.py:369-380 | `processed_ids` holds exactly the UniqueIDs of own-addressed rows seen; every sample pairs an own-addressed row with a TX row of the same UniqueID |
| `Windows.DelayRunComplete` | scripts/trace_parser_aloha.py:369-380 | the first own-addressed row of a UniqueID contributes `(TS[i] - TS[j]) / 1e9` for every TX row j with that UniqueID |
| `Windows.OwnTxAddsZeroDelay` | scripts/trace_parser_aloha.py:371-376 | an own-addressed TX row, first of its UniqueID, pairs with itself and adds a zero delay |
| `Windows.Mean` | scripts/trace_parser_aloha.py:383 | no mean for no samples; otherwise mean × count = sum |
| `Windows.DelayFaultAborts` | scripts/trace_parser_aloha.py:371 | a ValueError at some row is the result of `calc_delay` |
| `Windows.CollectDelays` | scripts/trace_parser_aloha.py:373-376 | the inner loop collects exactly the samples of row i |
| `Windows.CalcDelay` | scripts/trace_parser_aloha.py:369-383 | the nested loops give exactly `AverageDelay` |
| `Windows.SingleExchangeDelay` | scripts/trace_parser_aloha.py:369-383 | a TX at 0 ns and its reception at 5e9 ns give an average delay of 5.0 s |
| `Windows.FirstOwn` | scripts/trace_parser_aloha.py:397-401 | the first own-addressed row, with no own-addressed row before it; None when there is none; a fault only when some row's address is not a number |
| `Windows.OwnTxOpensWindow` | scripts/trace_parser_aloha.py:397-401 | an own-addressed TX row at index 0 opens the first window with one packet, although it is no reception |
| `Windows.Close` | scripts/trace_parser_aloha.py:411-421 | closing a window appends one timestamp, reopens at the row's TS with one packet, and increments k |
| `Windows.RunningMean` | scripts/trace_parser_aloha.py:415 | `prev + (x - prev) / k` is the mean of k values when prev is the mean of the first k - 1 |
| `Windows.CloseKeepsMeans` | scripts/trace_parser_aloha.py:413-417 | after a close every moving average is still the mean of the samples up to it |
| `Windows.SampleSign` | scripts/trace_parser_aloha.py:413 | a sample is non-negative, and positive iff the window held a packet |
| `Windows.CloseKeepsWellFormed` | scripts/trace_parser_aloha.py:411-421 | closing keeps the lists of equal length, the averages the running means, the signs tied to the counts, and window ends 10 s apart |
| `Windows.WinStep` | scripts/trace_parser_aloha.py:406-421 | one iteration faults iff MAC_DST_ADDR is not a number |
| `Windows.StepSkips` | scripts/trace_parser_aloha.py:406 | a row that is not own-addressed, or whose UniqueID was processed, changes nothing |
| `Windows.StepCounts` | scripts/trace_parser_aloha.py:406-409 | a new own-addressed row inside the window marks its UniqueID and adds one packet |
| `Windows.StepCloses` | scripts/trace_parser_aloha.py:406-421 | a new own-addressed row 10 s or more past the start emits the sample and the running average, and resets the window to that row with one packet |
| `Windows.WinStepKeepsWellFormed` | scripts/trace_parser_aloha.py:405-421 | one iteration keeps the window state well formed |
| `Windows.FoldKeepsWellFormed` | scripts/trace_parser_aloha.py:405-421 | the second loop keeps the window state well formed |
| `Windows.InstantaneousThroughputShape` | scripts/trace_parser_aloha.py:387-423 | the three lists have equal length; each moving average is the arithmetic mean of the samples up to it; window ends lie at least 10 s apart; samples are non-negative |
| `Windows.ThroughputsPositive` | scripts/trace_parser_aloha.py:387-423 | every throughput sample is positive |
| `Windows.FoldFaultAborts` | scripts/trace_parser_aloha.py:406 | a ValueError in the second loop is the result of the whole loop |
| `Windows.CalcInstantaneousThroughput` | scripts/trace_parser_aloha.py:387-423 | the two loops return exactly the timestamps, throughputs and averages of `InstantaneousThroughput`, or its fault |
| `Windows.ScanWindows` | scripts/trace_parser_aloha.py:405-421 | the second loop gives exactly `Fold` from the window the first loop opened |
| `Windows.FoldProcessed` | scripts/trace_parser_aloha.py:405-407 | the second loop marks exactly the UniqueIDs of own-addressed rows 1.. as processed |
| `Windows.FoldCounts` | scripts/trace_parser_aloha.py:405-421 | each UniqueID newly marked adds one packet to the open window or to a closed one |
| `Windows.CorrectedOpening` | scripts/trace_parser_aloha.py:397-401 | the corrected opening is well formed |
| `Windows.CorrectedCountsEachPacketOnce` | scripts/trace_parser_aloha.py:397-421 | corrected: the packets counted over all windows are exactly the distinct own-addressed UniqueIDs |
| `Windows.AsWrittenCountsFirstPacketTwice` | scripts/trace_parser_aloha.py:397-421 | as written: when the first own-addressed row is not row 0, one packet more is counted than there are distinct own-addressed UniqueIDs |
| `Windows.DoubleCountWitness` | scripts/trace_parser_aloha.py:397-421 | for a concrete three-row trace the code reports 640 bit/s where 320 bit/s is meant |

## Left out

- File opening and reading in `parse_events`: the model takes the file's lines, each non-empty,
  as iterating over a file yields them.
- `print_events`, `print_trace`, `main` and every `print`: console and command-line I/O.
- `calc_hop_count`: it returns the constant 1.0.
- `scripts/run_aloha_and_print.py` and `examples/aloha_grid_test.cc` are not part of this
  model. They are orchestration and simulation set-up around a foreign simulator.
- Python's `float()` and `int()` on strings are a `Conversions` parameter, so the model does
  not fix which strings are numbers. The only facts it uses are None for "raises ValueError"
  and the values in the two concrete examples.
- The general regex engine: only the two fixed patterns `Name=([^)\s]+)` and
  `DestAddress=(\d+)` are modelled. The field name is taken literally, which is exact because
  none of the names used contains a regex metacharacter.
- `Text.IsDigit`: `str.isdigit` and `\d` are taken to be the ASCII digits. Other Unicode
  digits are not modelled.
- IEEE-754 floating point: times, energies and averages are exact reals.
- `Windows.Mean`: numpy's NaN (with its warning) for an empty array is `None`.
- `Windows.SendDelays`: states only the sample-count bound; the soundness and completeness of
  the samples are the separate lemmas `SendDelaysSound`, `SendDelaysComplete` and
  `SendDelaysCount`.
- `detect_tx_conflicts`: its `tx_range` argument is never read, so it is not a parameter.
- The `counts` field of a `Windows.Window` is model-only. It records each closed window's
  packet count, the numerator of its sample; the code does not keep it.
- NODE_INFO is a value (an insertion order plus a map) that the event loop reassigns. The
  aliasing of the `dict(NODE_VALUES)` copies is not modelled; they are never shared.

## Findings

| source | as written | input that shows it | evidently intended | confidence | as-written member | corrected member |
|---|---|---|---|---|---|---|
| scripts/trace_parser_aloha.py:397-407 | The first loop opens the window with the first own-addressed row (count 1) but does not add its UniqueID to `processed_ids`. The second loop, starting at index 1, counts that row again when its index is 1 or more. When the opening row is row 0, a later own-addressed row with row 0's UniqueID is counted again in the same way. | Three RX rows: node 0 with DA "5" (not own), then node 1 with DA "2" at 0 ns (UniqueID 2), then node 1 with DA "2" at 2e10 ns (UniqueID 3). The first window reports 2 packets, a sample of 640 bit/s. | The opening row's UniqueID is marked as processed, so the window holds 1 packet (320 bit/s), and the packets counted over all windows are exactly the distinct own-addressed UniqueIDs. | not executed | `Windows.AsWrittenCountsFirstPacketTwice`, `Windows.DoubleCountWitness` | `Windows.CorrectedCountsEachPacketOnce` |
