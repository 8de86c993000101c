# ECS log replay and scenario bookkeeping, in Dafny

This project models the core of the Sandia Experiment Control System (ECS). That core has two parts.

The first part is the scenario engine, `Scenario_engine_cursesier.py`:
- the scenario workbook validator (`Scenario_Data.Scenario_validate`);
- the `Log_Controller` worker, which replays one recorded log file into Elasticsearch;
- the `Effects_Agent` worker. Only its constructor padding, its command wrapper and its output tagging are modelled;
- the registry bookkeeping of `Scenario_Engine`: the `trash_man` reap pass, `Kill_EFX` / `Kill_Log_Controller`, and `index_select`.

The second part is the command-line replay tool, `toolkit/standalone_log_controller.py`:
- `setup`, with its option precedence and checks;
- `parse_logs`, `update_timestamps`, `send_logs`, `trickle_logs` and `clear_index`.

The modules follow the program:

| module | file | what it holds |
|---|---|---|
| `Wrappers` | wrappers.dfy | `Option` and `Result` |
| `Text` | text.dfy | Python's `str(n)`, `strip`, `lower`, `replace`, `join`, and the order of strings |
| `JsonValues` | json.dfy | decoded JSON values, dict lookup and update, and the `json` codec as a parameter |
| `StampPattern` | stamp_pattern.dfy | the 24-character timestamp pattern and `re.finditer` over it |
| `Calendar` | calendar.dfy | the proleptic Gregorian calendar on integer microseconds, and `strptime`/`strftime` for the tools' format |
| `Shared` | shared.dfy | `threading.Event`, `queue.Queue`, and the Elasticsearch node as a request log with a reply oracle |
| `LogReplay` | log_replay.dfy | `parse_logs`, the bulk body and URLs, the response text, and cancellation |
| `Retime` | retime.dfy | `update_timestamps` |
| `Trickle` | trickle.dfy | the stable sort by `@timestamp`, the wait schedule, and both trickle loops |
| `LogControllers` | log_controller.dfy | the `Log_Controller` class |
| `EffectsAgents` | effects_agent.dfy | the `Effects_Agent` constructor, command wrapper and output relay |
| `StandaloneTool` | standalone.dfy | the standalone tool: its globals, `setup`, and its versions of the operations |
| `ScenarioData` | scenario_data.dfy | the workbook tables and `Scenario_validate` |
| `ScenarioEngine` | scenario_engine.dfy | the worker registries, reaping, killing, and `index_select` |

## How the model stands in for the outside world

- **Instants.** An instant is an integer number of microseconds since 0001-01-01T00:00:00, which is what a Python `datetime` holds. Printing one with the tools' format drops the last three digits by truncation.
- **The current time.** `datetime.now()`/`utcnow()` is a parameter `now`.
- **Epoch `ts` values.** The host's `datetime.fromtimestamp(ts)` and `strftime("%s.%f")` are the function-typed fields of a `DateLib` parameter. `strptime` and `strftime` are fields of it too, and the predicate `Calendar.Python` ties them to the calendar of this model.
- **JSON.** `json.dumps`, `json.loads` and `raw_decode` are a `Codec` parameter. `raw_decode` is required either to fail or to consume between 1 and all of the characters it is given.
- **HTTP.** The Elasticsearch node is a `Network` object. It records every request, and it answers request number k with `reply(k)`: either a status code or an exception.
- **Cancellation.** Another thread may set a worker's `threading.Event` at any time. A `Cancel` value says from which poll on the loop sees it set.
- **Files and config files.** File contents and config files are inputs: a file is its lines, and a config file is a map of sections. Whether a file exists is a predicate `onDisk`.

Where the code and the design differ, the model follows the code:

- **The dual-format abort.** The abort for a record with both timestamp formats can only follow an early break of the match loop. The `finditer` iterator is already used up when it is counted. So the standalone tool never takes that exit (the contract of `Retime.UpdateTimestamps`).
- **`Clear_Thread("all")`.** It matches `all` exactly, with case. It still starts a clear of `all` itself at the end.
- **Missing columns in `index_select`.** A missing `scene_children`, `effects` or `logs` column raises `KeyError` after the steps before it have taken effect.
- **The standalone trickle loop.** A negative wait raises `ValueError` in `time.sleep`. A bad reply raises `TypeError` while the error text is being built. Both end the run.
- **A disabled log.** A `Log_Controller` whose log is disabled, or whose config is bad, ends its constructor in `AttributeError`.

## Model

| member | source | states |
|---|---|---|
| Text.NatToString | Scenario_engine_cursesier.py:379 | `str(n)` has digits only, reads back as n, and has no leading zero |
| Text.IntToString | toolkit/standalone_log_controller.py:153 | `str(i)` starts with `-` exactly for a negative i, and the digits after the sign read back as the absolute value |
| Text.Strip | Scenario_engine_cursesier.py:215 | `strip()` leaves neither a leading nor a trailing whitespace character |
| Text.StripLeft | toolkit/standalone_log_controller.py:73 | the result is a suffix of the line; everything dropped is whitespace, and the result does not start with whitespace |
| Text.StripRight | toolkit/standalone_log_controller.py:73 | the result is a prefix of the line; everything dropped is whitespace, and the result does not end with whitespace |
| Text.Lower | Scenario_engine_cursesier.py:898 | `lower()` keeps the length and lowers each character in place |
| Text.Replace | Scenario_engine_cursesier.py:279 | replacing a target by a text of the same length keeps the length |
| Text.Join | Scenario_engine_cursesier.py:326 | joining no part gives `""`; otherwise the joined text plus one separator is every part followed by the separator |
| Text.ReplaceAbsent | Scenario_engine_cursesier.py:279 | `replace` leaves a text that does not contain the target unchanged |
| Text.LexLessTotal | Scenario_engine_cursesier.py:353 | any two sort keys are comparable: less, equal or greater |
| Text.LexLeTransitive | Scenario_engine_cursesier.py:353 | the order of sort keys is transitive |
| Text.LexLessDigits | Scenario_engine_cursesier.py:353 | on digit strings of the same width, string order is numeric order |
| Text.PaddedValue | Scenario_engine_cursesier.py:277 | a zero-padded field reads back as its number when the number fits in the width |
| Text.PaddedOfValue | Scenario_engine_cursesier.py:273-274 | a digit field printed back at its width gives the same field |
| JsonValues.Lookup | Scenario_engine_cursesier.py:353 | `d[k]` finds a value exactly when k is one of the keys |
| JsonValues.LookupFound | Scenario_engine_cursesier.py:353 | the value found is the one stored with key k |
| JsonValues.Put | Scenario_engine_cursesier.py:291-292 | `d[k] = v`: an existing key keeps its place and a new key goes last |
| JsonValues.PutLookup | Scenario_engine_cursesier.py:291-292 | after `d[k] = v`, k maps to v and every other key keeps its value |
| JsonValues.PutDistinct | Scenario_engine_cursesier.py:291-292 | setting a key keeps the keys of a dict distinct |
| JsonValues.Member | Scenario_engine_cursesier.py:281 | `"ts" in i` on a dict tests its keys; it raises only on a value that is not a dict, list or string |
| JsonValues.Index | Scenario_engine_cursesier.py:282 | `i["ts"]` succeeds exactly on a dict with that key, and gives the value stored there |
| StampPattern.FindAll | Scenario_engine_cursesier.py:267 | `finditer` reports match offsets in increasing order, and matches do not overlap |
| StampPattern.Matches | Scenario_engine_cursesier.py:268-272 | every matched text has 24 characters and matches the pattern |
| StampPattern.FindAllComplete | toolkit/standalone_log_controller.py:114-115 | every place where the pattern matches is reported or lies inside a reported match |
| StampPattern.FindAllNone | toolkit/standalone_log_controller.py:114-115 | a text with no match yields no match |
| Calendar.YearOf | Scenario_engine_cursesier.py:276-277 | a day number falls in exactly one year, at a day inside that year |
| Calendar.MonthOf | Scenario_engine_cursesier.py:276-277 | a day of the year falls in exactly one month, at a day inside that month |
| Calendar.ToInstant | Scenario_engine_cursesier.py:274-275 | a valid datetime denotes an instant in the range `datetime` can represent |
| Calendar.FromInstant | Scenario_engine_cursesier.py:276-277 | every representable instant has a valid datetime that denotes it |
| Calendar.ToInstantInjective | Scenario_engine_cursesier.py:274-275 | distinct valid datetimes denote distinct instants |
| Calendar.FromToInstant | Scenario_engine_cursesier.py:276-277 | converting a datetime to an instant and back gives the same datetime |
| Calendar.ToInstantMonotone | Scenario_engine_cursesier.py:371 | `current_datetime > latest_datetime` on datetimes is `>` on their instants |
| Calendar.StrpTime | Scenario_engine_cursesier.py:251 | `strptime` succeeds exactly on a text in the format's layout whose fields are in range, and gives the instant of those fields |
| Calendar.FormatStamp | Scenario_engine_cursesier.py:277-278 | the stamp written for an instant has the 24-character shape `YYYY-MM-DDTHH:MM:SS.mmmZ`, with the milliseconds truncated |
| Calendar.StrfTime | Scenario_engine_cursesier.py:277 | `strftime` in the tools' format writes 27 characters |
| Calendar.StrfTimeParses | toolkit/standalone_log_controller.py:118-122 | `strptime` reads a written datetime back as the same instant |
| Calendar.FieldsOfStrfTime | toolkit/standalone_log_controller.py:122 | the written text has the shared layout, and its fields are the datetime's |
| Calendar.CanonicalLayout | Scenario_engine_cursesier.py:277-278 | a stamp of the written shape has the layout `strptime` reads, with three fraction digits |
| Calendar.ChopMillis | toolkit/standalone_log_controller.py:122-123 | `strftime(...)[:-4] + 'Z'` drops exactly the last three microsecond digits |
| Calendar.MilliTextCanonical | toolkit/standalone_log_controller.py:122-123 | the written stamp matches the search pattern again |
| Calendar.ParseFormat | Scenario_engine_cursesier.py:273-279 | reading a written stamp gives back the instant truncated to the millisecond |
| Calendar.TruncateMillis | Scenario_engine_cursesier.py:278 | zeroing the sub-millisecond digits truncates the instant to the millisecond |
| Calendar.FormatParse | Scenario_engine_cursesier.py:273-279 | a canonical stamp that parses is written back as itself |
| Calendar.MilliTextOfFields | Scenario_engine_cursesier.py:277-278 | a canonical stamp is the millisecond text of its own fields |
| Calendar.CanonicalLexFields | Scenario_engine_cursesier.py:353 | on canonical stamps, string order is the order of their fields |
| Calendar.CanonicalOrder | Scenario_engine_cursesier.py:353 | on canonical stamps, sorting by the text sorts by time |
| Shared.Event.Set | Scenario_engine_cursesier.py:428 | `Event.set()` leaves the flag set |
| Shared.MessageQueue.Put | Scenario_engine_cursesier.py:192 | `put` appends the message at the back of the queue |
| Shared.MessageQueue.Get | Scenario_engine_cursesier.py:442 | `get` removes and returns the oldest message |
| Shared.Network.Send | Scenario_engine_cursesier.py:334 | every request is recorded, and request number k gets reply k |
| LogReplay.Cutoff | Scenario_engine_cursesier.py:212-213 | a loop that polls the Event before each item processes exactly the items before the first poll that sees it set, and all of them when it is never set |
| LogReplay.DecodeLineSegments | Scenario_engine_cursesier.py:216-220 | the `raw_decode` loop cuts the line into consecutive pieces, each decoded to its value and together covering the whole line |
| LogReplay.DecodeLine | Scenario_engine_cursesier.py:216-220 | a line decodes to at most one value per character, since each `raw_decode` consumes some of the line |
| LogReplay.DecodeLines | Scenario_engine_cursesier.py:214-220 | each line stripped and decoded, in file order, `None` where `raw_decode` raises; its properties are stated by `DecodeLinesFail` and `ParseLines` |
| LogReplay.SegmentsDecodeLine | toolkit/standalone_log_controller.py:74-78 | every such cutting of the line is the one the loop finds |
| LogReplay.SegmentationTail | toolkit/standalone_log_controller.py:74-78 | after the first value, the rest of a cutting cuts the rest of the line |
| LogReplay.DropEmpty | Scenario_engine_cursesier.py:223-224 | no `""` is left, and every other value is kept |
| LogReplay.ParsedLogs | Scenario_engine_cursesier.py:209-226 | the parse fails exactly when a line fails to decode; otherwise no `""` is left and no value is added |
| LogReplay.DropEmptyAppend | Scenario_engine_cursesier.py:223-224 | removing `""` line by line gives the same as removing it once at the end |
| LogReplay.DropEmptyRemoveFirst | toolkit/standalone_log_controller.py:81-82 | one `list.remove("")` does not change the final result of the loop |
| LogReplay.DropEmptyNoop | toolkit/standalone_log_controller.py:81-82 | a list without `""` is left as it is |
| LogReplay.RemoveFirst | toolkit/standalone_log_controller.py:82 | `list.remove` drops exactly one entry |
| LogReplay.ParseLines | Scenario_engine_cursesier.py:209-226 | the loop gives the parse of exactly the lines read before the Event was seen set |
| LogReplay.ParseLine | Scenario_engine_cursesier.py:215-224 | one pass adds one line's values to the records so far and drops `""`; it fails exactly when that line fails to decode |
| LogReplay.DecodeStripped | Scenario_engine_cursesier.py:216-220 | the `pos` loop decodes the line back to back, or fails |
| LogReplay.RemoveEmpties | Scenario_engine_cursesier.py:223-224 | the `while "" in all_logs` loop removes every `""` and keeps the rest in order |
| LogReplay.DecodeLinesFail | Scenario_engine_cursesier.py:217-218 | a line that fails to decode makes the whole parse fail |
| LogReplay.Actions | Scenario_engine_cursesier.py:321-324 | the actions alternate the index header and the record text, two per record |
| LogReplay.BuildBody | Scenario_engine_cursesier.py:321-329 | the body built record by record is the actions joined by newlines, with one more newline at the end |
| LogReplay.BulkBody | toolkit/standalone_log_controller.py:159-167 | with no record the body is a single newline; for N records it is the 2N action and record lines, each ending in a newline |
| LogReplay.BulkUrl | toolkit/standalone_log_controller.py:148-153 | the bulk URL; its contract is `BulkUrlRoundTrip` |
| LogReplay.BulkUrlRoundTrip | toolkit/standalone_log_controller.py:148-153 | the bulk URL is `https://` exactly when security is on, followed by `ip:port/_bulk/?pretty` |
| LogReplay.ClearUrlRoundTrip | Scenario_engine_cursesier.py:391-396 | the clear URL names the index it was built for |
| LogReplay.ClearUrl | Scenario_engine_cursesier.py:391-396 | the clear URL starts with `https://` exactly when security is on |
| LogReplay.ClearUrlInjective | Scenario_engine_cursesier.py:391-396 | two clear URLs on the same node are equal exactly when their index names are |
| LogReplay.ResponseText | Scenario_engine_cursesier.py:378 | `str(response) == "<Response [200]>"` holds exactly for status 200 |
| Retime.Chop | toolkit/standalone_log_controller.py:123 | `[:-4] + 'Z'` shortens a text of four or more characters by three |
| Retime.ChopIsFormatStamp | toolkit/standalone_log_controller.py:122-123 | with Python's `datetime`, the text written for an instant is its canonical stamp |
| Retime.WrittenStampReadsBack | Scenario_engine_cursesier.py:273-279 | with Python's `datetime`, a written stamp reads back as the instant truncated to the millisecond |
| Retime.Shift | Scenario_engine_cursesier.py:275-276 | `origin + (t - anchor)` keeps t's distance from the anchor, and raises exactly when the sum leaves the `datetime` range |
| Retime.Advance | Scenario_engine_cursesier.py:271-276 | one timestamp is shifted and recorded after the ones before it; it fails only by a crash |
| Retime.MatchStep | Scenario_engine_cursesier.py:268-279 | one match is re-timed and recorded; it fails only by a crash |
| Retime.RetimeMatches | Scenario_engine_cursesier.py:268-279 | only a crash fails; without cancellation every match is visited and polled once, and a break leaves fewer matches unvisited than there were |
| Retime.EpochStep | Scenario_engine_cursesier.py:281-293 | only a crash fails; the flag says whether the record has `ts`, and without `ts` nothing changes |
| Retime.RetimeRecords | Scenario_engine_cursesier.py:261-297 | the output extends the records already done by at most one per input record, and by exactly one per record without cancellation; without cancellation the dual-format failure never occurs |
| Retime.RetimeRecord | Scenario_engine_cursesier.py:265-297 | one record fails only by a crash, and without cancellation never by the dual-format exit |
| Retime.Origin | Scenario_engine_cursesier.py:246-254 | the option is refused exactly when it is neither `now` nor starts with a stamp; an accepted origin is a representable instant |
| Retime.RetimeLoop | Scenario_engine_cursesier.py:261-298 | the loop over the records computes the outer-loop function |
| Retime.RetimeOne | Scenario_engine_cursesier.py:265-297 | the body for one record re-times its matches, then its `ts` field, then reads the text back |
| Retime.RetimeMatchesLoop | Scenario_engine_cursesier.py:268-279 | the match loop, with its poll before each match, computes the inner-loop function |
| Retime.AnchorLandsOnOrigin | toolkit/standalone_log_controller.py:115-138 | the first timestamp in scan order, a match or a `ts` field, lands on the origin, and every later one lands at origin + (t - anchor) |
| Retime.RetimeRecordsAnchored | Scenario_engine_cursesier.py:261-297 | every record keeps every written timestamp at its distance from the anchor |
| Retime.RetimeMatchesAnchored | Scenario_engine_cursesier.py:268-279 | the matches of a record keep that property |
| Retime.EpochStepAnchored | Scenario_engine_cursesier.py:281-293 | the `ts` branch keeps it too, and takes the anchor when there is none yet |
| Retime.UpdateTimestamps | toolkit/standalone_log_controller.py:89-143 | `no_update` hands the records back untouched; an unsupported option fails exactly when it is none of the three forms; without cancellation the dual-format exit never fires and one record comes back per record |
| Retime.PlainRecordsUnchanged | Scenario_engine_cursesier.py:265-297 | when `loads` reads back what `dumps` writes, records without timestamps come out unchanged |
| Trickle.KeyFault | Scenario_engine_cursesier.py:353 | the key fails exactly when some record is not a dict holding `@timestamp` |
| Trickle.KeyFaultFirst | toolkit/standalone_log_controller.py:182 | the key's exception is the one of the first such record in list order: `TypeError` for a non-dict, `KeyError` for a dict without the stamp |
| Trickle.SortFault | Scenario_engine_cursesier.py:353 | records whose stamps are all strings always sort |
| Trickle.SortFaultIff | toolkit/standalone_log_controller.py:182 | with every key present, the sort raises `TypeError` exactly on two or more records whose stamps are neither all strings nor all numbers |
| Trickle.Insert | Scenario_engine_cursesier.py:353 | one insertion step adds exactly that record |
| Trickle.SortByStamp | Scenario_engine_cursesier.py:353 | the sort is a permutation of the records |
| Trickle.InsertSorted | Scenario_engine_cursesier.py:353 | inserting a stamped record into records sorted by `@timestamp` keeps them sorted |
| Trickle.SortSorted | Scenario_engine_cursesier.py:353 | after the sort the `@timestamp` strings are in ascending order |
| Trickle.SortStable | toolkit/standalone_log_controller.py:182 | records with equal stamps keep their relative order |
| Trickle.MaxIsPeak | Scenario_engine_cursesier.py:371-372 | the latest instant is one of them and is at least every one of them |
| Trickle.Waits | Scenario_engine_cursesier.py:364-373 | one wait per instant; its contract is `WaitsAreGapsToPeak` |
| Trickle.WaitsAreGapsToPeak | Scenario_engine_cursesier.py:364-373 | the first wait is 0; each later wait is the record's instant minus the latest instant before it |
| Trickle.AscendingWaits | toolkit/standalone_log_controller.py:191-200 | on ascending instants every wait is at least 0, and the waits add up to last minus first |
| Trickle.SortedInstants | Scenario_engine_cursesier.py:353-364 | for stamps of the fixed shape, sorted strings are sorted instants |
| Trickle.SortKeepsCanonical | Scenario_engine_cursesier.py:353 | sorting keeps every stamp in the fixed shape |
| Trickle.SortedWaits | toolkit/standalone_log_controller.py:182-200 | after the sort, instants of fixed-shape stamps are ascending, so no wait is negative |
| Trickle.EngineLoop | Scenario_engine_cursesier.py:358-381 | the engine's loop; its contracts are `EngineLoopEnds` and `EngineLoopSends` |
| Trickle.EngineLoopEnds | Scenario_engine_cursesier.py:358-381 | at most one record sent per record left, one wait per send, and the loop ends `Done` exactly when every record was sent |
| Trickle.EngineLoopSends | Scenario_engine_cursesier.py:358-381 | the engine's loop sends exactly the records before the first poll that sees the Event, in sorted order, each after its wait; it ends `done.` or `thread killed.` accordingly |
| Trickle.NoErrorsIffAllOk | Scenario_engine_cursesier.py:376-379 | nothing is reported exactly when every reply is status 200 |
| Trickle.ToolLoop | toolkit/standalone_log_controller.py:187-206 | at most one record sent per record left, one wait per send, `Done` only when every record was sent, and never stopped by an Event |
| Trickle.ToolLoopSends | toolkit/standalone_log_controller.py:187-206 | on ascending readable stamps with every reply 200, the tool's loop sends every record after its wait and ends normally |
| Trickle.ToolTrickleSends | toolkit/standalone_log_controller.py:182-206 | a trickle over sorted fixed-shape stamps with every reply 200 sends every record after a wait that is never negative |
| EffectsAgents.MissingColumn | Scenario_engine_cursesier.py:465-470 | the constructor raises `KeyError` exactly when a column it reads is missing, and names the first one |
| EffectsAgents.Pad | Scenario_engine_cursesier.py:475 | the list is extended to the target length, the old entries kept, each new one a copy of the last |
| EffectsAgents.PadTo | Scenario_engine_cursesier.py:474-477 | a padding step fails exactly when it must pad an empty list |
| EffectsAgents.PaddingShape | Scenario_engine_cursesier.py:474-488 | usernames and passwords end as long as the agent list or longer, destinations as long as the file list or longer; old entries are kept and new ones repeat the old last one |
| EffectsAgents.PaddingCrash | Scenario_engine_cursesier.py:474-486 | construction raises `IndexError` exactly when a list that must be padded is empty |
| EffectsAgents.PadTwice | Scenario_engine_cursesier.py:475 | padding a padded list again changes nothing |
| EffectsAgents.PaddingIdempotent | Scenario_engine_cursesier.py:474-488 | a second agent built over the same, already padded lists changes nothing |
| EffectsAgents.EffectsAgent.Create | Scenario_engine_cursesier.py:458-488 | the row is padded in place, every other column is untouched, and the agent holds all six of the row's own lists and the queues passed in; a missing row or column raises before anything changes |
| EffectsAgents.EffectsAgent.Init | Scenario_engine_cursesier.py:458-470 | the agent's fields are the row's lists, and its Event is new and unset |
| EffectsAgents.EffectsAgent.Stop | Scenario_engine_cursesier.py:577-580 | `Stop()` sets the Event |
| EffectsAgents.UnwrapWrap | Scenario_engine_cursesier.py:531 | the wrapped command line runs exactly the command it wraps |
| EffectsAgents.WrapUnwrap | Scenario_engine_cursesier.py:531 | every wrapped line is the wrapping of its command |
| EffectsAgents.DecodeAscii | Scenario_engine_cursesier.py:554 | `decode('ascii')` maps each byte to the character with that code |
| EffectsAgents.TrimLeadingNewlines | Scenario_engine_cursesier.py:554 | only leading newlines are dropped, and all of them |
| EffectsAgents.TrimTrailingNewlines | Scenario_engine_cursesier.py:557 | only trailing newlines are dropped, and all of them |
| EffectsAgents.TrimNewlines | Scenario_engine_cursesier.py:554 | `strip("\n")` leaves no newline at either end |
| EffectsAgents.Relay | Scenario_engine_cursesier.py:544-559 | the output loop queues at most one line per chunk, after the lines already queued; the first line is the PID line and the rest are plain |
| EffectsAgents.TagExtends | Scenario_engine_cursesier.py:553-557 | tagging the next chunk keeps the rule "first line PID, the rest plain" |
| EffectsAgents.EffectsAgent.RelayOutput | Scenario_engine_cursesier.py:544-562 | the loop queues exactly the tagged lines of the chunks it reads, and reports a failed connection when decoding raises |
| LogControllers.FirstMissing | Scenario_engine_cursesier.py:162-166 | the first missing option in the order delay, ip, port, time, index, username, password, security, or none when all are present |
| LogControllers.ElkOf | Scenario_engine_cursesier.py:168-181 | `delay` and `security` hold exactly for the text `True`; the other settings are the section's texts |
| LogControllers.SetupOf | Scenario_engine_cursesier.py:151-186 | the path `None` disables the log; a complete `[ELK]` section configures it; otherwise one message names the missing section or the first missing option |
| LogControllers.Cell | Scenario_engine_cursesier.py:130-137 | `row[column][0]` succeeds exactly when the column is there and not empty |
| LogControllers.Seen | Scenario_engine_cursesier.py:440-448 | each queued name other than `all` is cleared once |
| LogControllers.AllErrors | Scenario_engine_cursesier.py:443-445 | each queued `all` yields one error |
| LogControllers.SeenFirstOrder | Scenario_engine_cursesier.py:446-448 | names are cleared in the order of their first appearance |
| LogControllers.LogController.Resolve | Scenario_engine_cursesier.py:305-306 | an index other than `default` is used as given |
| LogControllers.LogController.Blank | Scenario_engine_cursesier.py:122-129 | a new controller holds its queues and a new unset Event, with no setting yet |
| LogControllers.LogController.Setup | Scenario_engine_cursesier.py:151-186 | a complete config sets every option; a bad one queues one error and changes nothing else; the path `None` queues the disabled message and sets the Event |
| LogControllers.LogController.Finish | Scenario_engine_cursesier.py:133-138 | the index and time cells override unless they hold `None`; the index is queued and the controller announced, or the `KeyError`/`AttributeError` is raised |
| LogControllers.LogController.QueueIndex | Scenario_engine_cursesier.py:133-135 | the index cell overrides unless it holds `None`, and the index is queued |
| LogControllers.LogController.Announce | Scenario_engine_cursesier.py:136-138 | the time cell overrides unless it holds `None`, and the controller is announced |
| LogControllers.LogController.Create | Scenario_engine_cursesier.py:122-138 | construction succeeds exactly when the row has its cells and the config is complete; the new controller then has the config's settings with the cells' overrides |
| LogControllers.LogController.Stop | Scenario_engine_cursesier.py:426-429 | `Stop()` sets the Event |
| LogControllers.LogController.ParseLogs | Scenario_engine_cursesier.py:204-229 | the result is the parse of the lines read before the Event was seen; a file that cannot be read reports the file with the exception's text, a decode failure reports the file with the decoder's message, and the worker answers `failed.` |
| LogControllers.LogController.UpdateTimestamps | Scenario_engine_cursesier.py:237-298 | the result is `update_timestamps` with the controller's time option for `default`, and an unsupported option is reported |
| LogControllers.LogController.SendLogs | Scenario_engine_cursesier.py:304-338 | exactly one bulk request carries every record; the answer is the response text, or `failed.` with the exception reported |
| LogControllers.LogController.TrickleLogs | Scenario_engine_cursesier.py:343-381 | a sort that raises is answered with its exception and nothing is sent; stamps that sort but are not strings give `thread killed.` when the first poll sees the Event and the `TypeError` of `strptime` otherwise, with nothing sent; with string stamps the sorted records are sent one per request as the engine's loop says, with the errors it reports |
| LogControllers.LogController.TrickleSorted | Scenario_engine_cursesier.py:358-381 | the loop makes one single-record request per record sent, in sorted order, and reports each bad reply |
| LogControllers.LogController.SendNext | Scenario_engine_cursesier.py:374-379 | record k is sent after the ones before it, and its errors follow theirs |
| LogControllers.LogController.SendOne | Scenario_engine_cursesier.py:374-379 | one single-record request is made, and a reply other than `<Response [200]>` is reported with its number |
| LogControllers.LogController.ClearIndex | Scenario_engine_cursesier.py:385-404 | the clear is announced and one DELETE request for the index is made; an exception propagates |
| LogControllers.LogController.ClearThread | Scenario_engine_cursesier.py:436-452 | for `all` the index queue ends empty, each distinct other name is cleared once in first-seen order, each `all` found is reported, and `all` itself is still cleared last |
| StandaloneTool.WithConfig | toolkit/standalone_log_controller.py:280-288 | ip, port and time come from the config; index, username and password only where the config has them |
| StandaloneTool.Merged | toolkit/standalone_log_controller.py:260-303 | each setting comes from the command line when given and non-empty, else from the config, else keeps its value; the flags only switch on |
| StandaloneTool.Checked | toolkit/standalone_log_controller.py:305-336 | the checks proceed exactly when ip, time, index, username and password are set, no index is to be cleared and a log file is named; they clear exactly when all are set and an index is named; the port then defaults to 9200 |
| StandaloneTool.SetupPlan | toolkit/standalone_log_controller.py:234-336 | a config without `[ELK]` ip, port and time fails at once; otherwise `setup` proceeds or clears exactly as the checks on the merged settings say, with the log file named and the port defaulted |
| StandaloneTool.ParseLogs | toolkit/standalone_log_controller.py:65-84 | the result is every line's values decoded back to back, in order, with `""` removed, or a failure where `raw_decode` raises |
| StandaloneTool.Tool.constructor | toolkit/standalone_log_controller.py:34-43 | the globals start at their initial values |
| StandaloneTool.Tool.Error | toolkit/standalone_log_controller.py:57-60 | `error` prints one line and changes no setting |
| StandaloneTool.Tool.Setup | toolkit/standalone_log_controller.py:234-336 | the globals, the printed errors, the requests and the outcome are those of the setup plan |
| StandaloneTool.Tool.SetFlags | toolkit/standalone_log_controller.py:260-270 | the three flags switch their settings on |
| StandaloneTool.Tool.ReadConfig | toolkit/standalone_log_controller.py:273-288 | the config's settings are applied |
| StandaloneTool.Tool.ReadOptional | toolkit/standalone_log_controller.py:283-288 | index, username and password are taken where the config has them |
| StandaloneTool.Tool.Override | toolkit/standalone_log_controller.py:291-303 | every command-line value that is given and non-empty overrides its setting |
| StandaloneTool.Tool.OverrideTarget | toolkit/standalone_log_controller.py:292-297 | ip, port and time are overridden by the command line |
| StandaloneTool.Tool.OverrideAccount | toolkit/standalone_log_controller.py:298-303 | index, username and password are overridden by the command line |
| StandaloneTool.Tool.Check | toolkit/standalone_log_controller.py:305-336 | the checks run in order: ip, default port, time, index, username, password, then clear or log file |
| StandaloneTool.Tool.ClearIndex | toolkit/standalone_log_controller.py:211-231 | one DELETE request for the index, then `exit(0)` whatever the status |
| StandaloneTool.Tool.UpdateTimestamps | toolkit/standalone_log_controller.py:89-143 | the result is `update_timestamps` without cancellation, and an unsupported option is printed before the exit |
| StandaloneTool.Tool.SendLogs | toolkit/standalone_log_controller.py:145-173 | one bulk request with every record; the answer is the response text, and an exception propagates |
| StandaloneTool.Tool.TrickleLogs | toolkit/standalone_log_controller.py:175-208 | a sort that raises ends the run with its exception, and stamps that sort but are not strings end it with the `TypeError` of `strptime`, in both cases before any request; with string stamps the sorted records are sent as the tool's loop says |
| StandaloneTool.Tool.TrickleSorted | toolkit/standalone_log_controller.py:187-206 | one single-record request per record sent, in sorted order, with the waits handed to `time.sleep` |
| StandaloneTool.Tool.SendOne | toolkit/standalone_log_controller.py:201-203 | record k is sent alone, after the records before it |
| ScenarioData.Ids | Scenario_engine_cursesier.py:113 | the keys of a sheet, one per row, in row order |
| ScenarioData.Lookup | Scenario_engine_cursesier.py:910 | `table[id]` finds a row exactly when id is a key |
| ScenarioData.Validate | Scenario_engine_cursesier.py:46-87 | on sheets that are dictionaries (distinct row keys, distinct headers per row), the counter loop over the three sheets computes the number of dangling references |
| ScenarioData.CountTable | Scenario_engine_cursesier.py:56-84 | the rows loop counts the sheet's errors |
| ScenarioData.CountRow | Scenario_engine_cursesier.py:57-84 | the columns loop counts the row's errors |
| ScenarioData.CountCells | Scenario_engine_cursesier.py:58-84 | the cells loop counts the column's dangling cells |
| ScenarioData.SheetsErrors | Scenario_engine_cursesier.py:46-87 | the total is 0 exactly when every sheet has no error |
| ScenarioData.NoneCell | Scenario_engine_cursesier.py:60-84 | a `None` cell counts as an error only in the `config_file` column |
| ScenarioData.Dangling | Scenario_engine_cursesier.py:60-84 | only the `effects`, `logs`, `scene_children` and file columns can hold an error |
| ScenarioData.CellsErrorsZero | Scenario_engine_cursesier.py:58-84 | a column has no error exactly when none of its cells is dangling |
| ScenarioData.RowErrorsZero | Scenario_engine_cursesier.py:57-84 | a row has no error exactly when none of its cells is dangling |
| ScenarioData.TableErrorsZero | Scenario_engine_cursesier.py:56-84 | a sheet has no error exactly when none of its cells is dangling |
| ScenarioData.ValidIff | Scenario_engine_cursesier.py:46-87 | the count is 0 exactly when each sheet is clean, with scene children looked up in their own sheet |
| ScenarioEngine.MarkedExact | Scenario_engine_cursesier.py:758-761 | the trash list holds exactly the marked indices, in ascending order |
| ScenarioEngine.KeepMember | Scenario_engine_cursesier.py:762-763 | a worker is kept exactly when it sits at an unmarked index |
| ScenarioEngine.KeepUnmarked | Scenario_engine_cursesier.py:762-763 | with no index marked, the registry is left as it is |
| ScenarioEngine.KeepMarked | Scenario_engine_cursesier.py:762-763 | with every index marked, the registry ends empty |
| ScenarioEngine.FindMarked | Scenario_engine_cursesier.py:853 | the `enumerate` comprehension collects the marked indices |
| ScenarioEngine.DeleteMarked | Scenario_engine_cursesier.py:762-763 | deleting the marked indices from the highest down leaves exactly the unmarked entries, in order |
| ScenarioEngine.KeepDistinct | Scenario_engine_cursesier.py:762-763 | deleting entries keeps every remaining worker's Event its own |
| ScenarioEngine.RemoveFinished | Scenario_engine_cursesier.py:758-763 | one registry's half of a reap pass leaves exactly its unfinished workers |
| ScenarioEngine.UnfinishedMembers | Scenario_engine_cursesier.py:758-771 | a reap pass keeps exactly the workers whose Event is not set |
| ScenarioEngine.ReapIdempotent | Scenario_engine_cursesier.py:758-771 | a second pass right after the first removes nothing |
| ScenarioEngine.KillMarks | Scenario_engine_cursesier.py:845-857 | a kill marks every worker for `all` in any case, else the workers whose lowered id is the lowered selection |
| ScenarioEngine.KillAll | Scenario_engine_cursesier.py:845-851 | `all` in any case stops every worker and empties the registry |
| ScenarioEngine.KillNamed | Scenario_engine_cursesier.py:852-857 | a name removes exactly the workers whose lowered id equals it, keeping the rest; a name that matches nothing changes nothing |
| ScenarioEngine.LowerIds | Scenario_engine_cursesier.py:836-837 | the lowered ids, one per worker |
| ScenarioEngine.Kill | Scenario_engine_cursesier.py:835-863 | the selected workers' Events are set and every other Event keeps its state; the registry keeps exactly the unselected workers |
| ScenarioEngine.SelectionKeys | Scenario_engine_cursesier.py:897-899 | every key maps to a scene id that lowers to it |
| ScenarioEngine.SelectionKeysFound | Scenario_engine_cursesier.py:908 | a selection is found exactly when some scene id lowers to the lowered selection |
| ScenarioEngine.SelectionKeysLast | Scenario_engine_cursesier.py:899 | when several ids lower alike, the later one wins |
| ScenarioEngine.NonNone | Scenario_engine_cursesier.py:915 | exactly the cells other than `None` start a worker |
| ScenarioEngine.Start | Scenario_engine_cursesier.py:914-918 | one new worker per non-`None` cell is appended in order, each with a new unset Event |
| ScenarioEngine.Engine.constructor | Scenario_engine_cursesier.py:585-590 | scene `0` is current, its children are read, and both registries are empty |
| ScenarioEngine.Engine.Reap | Scenario_engine_cursesier.py:758-771 | both registries lose exactly their finished workers, and every Event stays distinct |
| ScenarioEngine.Engine.KillEfx | Scenario_engine_cursesier.py:835-863 | the selected effect workers are stopped and removed; the log workers and their Events are untouched |
| ScenarioEngine.Engine.KillLogs | Scenario_engine_cursesier.py:865-893 | the selected log workers are stopped and removed; the effect workers and their Events are untouched |
| ScenarioEngine.Engine.IndexSelect | Scenario_engine_cursesier.py:901-930 | a miss changes nothing; a hit sets the scene, then its children, then appends one effect worker and one log worker per non-`None` cell in table order; a missing column raises after the steps before it |
| ScenarioEngine.Engine.StartEffects | Scenario_engine_cursesier.py:914-918 | the effects loop appends one new effect worker per non-`None` cell |
| ScenarioEngine.Engine.StartLogs | Scenario_engine_cursesier.py:921-925 | the logs loop appends one new log worker per non-`None` cell |

## Left out

- Printing, colours and the curses interface. This covers `notify`'s colour codes, the progress lines of the standalone trickle, `Top_clr`/`mid_clr`/`bot_clr`, the key loop and `Exit`. These are display and user input.
- Threads. `Run`, `Wait`, `join`, the daemon threads, the `trash_man` sleep cadence and `mid_update_thread` are left out. `Stop()` is modelled as setting the Event, and another thread's `set()` is a `Cancel` value.
- `Engine.Reap`, `Engine.KillEfx` and `Engine.KillLogs` are modelled as running alone. A reap pass that runs at the same time as `index_select` or a kill is left out.
- SSH and SCP. The connection, the upload loop and the channel `select`/`recv` of `Effects_Agent.Commander` are network I/O. The output relay takes the chunks as a sequence.
- `parse_update_and_send` and the `__main__` blocks only chain the modelled operations and print.
- `Scenario_Data.read`: loading the workbook with `openpyxl` is file I/O. The tables are inputs.
- `configparser` reading a file and `argparse` opening the files named by `-c` and `-f` are left out. The config is an input map, and the command line is an `Args` value.
- The validator's `ValueError` for a sheet that is not a dict cannot arise in the model: a sheet is always a table.
- Python's `None` cells are represented by the text `None`, which is what the workbook reader produces.
- Instants are microseconds, so that truncation to milliseconds is explicit. `strptime` leniency, such as one-digit fields, is left out: a stamp must have the zero-padded layout. Non-ASCII decimal digits, which Python's `\d` in the time-option pattern and `strptime` both accept, are left out too: `StampPattern` and `Calendar.StrpTime` accept ASCII digits only.
- `Text.Lower` lowers ASCII letters only. Python's Unicode case mapping is left out.
- The epoch arithmetic of `fromtimestamp` and `strftime("%s.%f")` is a `DateLib` parameter. Its floats and local time zone are not modelled.
- `Trickle.SortFault` takes a sort over stamps that are all JSON lists to raise `TypeError`. Python compares lists element by element and may sort them; the engine would then poll its Event before `strptime` raises. The exception texts of the sort are abbreviated to the exception class and a short message.
- `Calendar.StrfTime` writes `%Y` as four zero-filled digits, as Python documents. CPython on glibc writes a year below 1000 without padding, which would make a re-timed stamp shorter than 24 characters; that platform behaviour is left out.
- `Trickle.SortByStamp` models the in-place `list.sort` as a function that returns the sorted sequence. In-place update and aliasing of the caller's list are not captured.
- `ScenarioEngine.Engine.IndexSelect` starts a worker for every non-`None` cell. An `Effects_Agent` or `Log_Controller` constructor that raises inside `index_select` is not modelled here. Both constructors are modelled on their own as `EffectsAgent.Create` and `LogController.Create`.
- `ScenarioEngine.Engine.constructor` requires scene `0` with a `scene_children` column. Without one, the source raises `KeyError` and no engine exists.
- `LogControllers.LogController.ParseLogs` reports `str(e)` as given: the text of a read error comes with the read result, and the text of a decode error is the `decodeMessage` parameter. The model does not derive the decoder's message from the line that failed.
- `Shared.MessageQueue.Get` requires a non-empty queue. The source calls `get` only after `empty()` returned false.
