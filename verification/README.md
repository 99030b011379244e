# DataManager: serial telemetry ingestion, in Dafny

This project models `DataManager`, the data layer of a desktop monitor for an
Arduino that reports voltage, current and temperature over a serial line. The
manager does five things:

- It opens the configured serial port. If that fails, it tries every port a scan
  finds, one after the other, and reports each attempt to a status callback.
- It reads lines from the device and classifies each one. A line may be a JSON
  object, a tagged line (`V:4.85,C:1.23,T:24.5`), a `#` debug line or a
  positional line (`4.85,1.23,24.5`). A tagged or positional line reaches
  `process_data` only as a complete reading. Any JSON object that decodes
  reaches it, and a missing field counts as 0.
- `process_data` always updates the latest-reading slot. A reading that is not
  all zeros goes to the `sensor_readings` table. It also goes to the dated CSV
  file, with a power column, unless it is synthetic.
- When the device cannot be reached, or a read fails, the manager runs a demo
  loop. The demo loop clamps synthetic readings into realistic ranges and probes
  for the device again when more than five seconds have passed since the last
  probe. When a port opens, it switches back to the real-data loop.
- `get_historical_data(limit)` returns the newest rows, newest first. A `None`
  limit gives no rows at all (see Findings).

The model is spread over these modules:

- `Text`: `str.strip`, `split`, `startswith`, `endswith` and `in`.
- `Numbers`: `float()` on a string.
- `Json`: `json.loads`, and `float(data.get(key, 0))`.
- `LineParser`: `parse_arduino_csv` and the dispatch in the real-data loop.
- `Storage`: the two sinks and the `ORDER BY timestamp DESC LIMIT ?` query.
- `Simulation`: the clamp of the demo generator.
- `Manager`: the `DataManager` class.

Inside the `DataManager` class:

- The table and the CSV file are `seq` fields that the methods append to.
- A ghost log records every reading `process_data` has handled. The class
  invariant ties each sink, and the latest-reading slot, to a function of that
  log.
- The two collection loops call each other in the source: on a read failure the
  real loop starts the demo loop, and on a successful probe the demo loop starts
  the real loop. The model turns this into one loop over a `mode` field. A
  finite script of events drives the loop. Each event is either a stop request
  or one pass with the clock, the serial read, the port scan and the raw demo
  values.
- Each step also exists as a function on a `State` value, the fields of the
  object: `BeginState` for what `start_collection` does before a loop runs,
  `PassOf` for one pass of either loop, and `RunOf` for the loop, the fold of
  `PassOf` over the events until collection stops. The methods are proved to
  end in exactly the state these functions give, and the lemmas about the
  loop are stated on `RunOf`.

Behaviour of the code that a reader may not expect, which the model follows:

- A JSON object with a missing `voltage`, `current` or `temperature` key still
  gives a reading, because `data.get(key, 0)` supplies 0. See
  `LineParser.JsonMissingFieldIsZero` and `LineParser.JsonExample`.
- A line that no framing matches, such as `garbage`, is dropped without a log
  message. It does not have exactly three comma-separated pieces, so the
  positional branch never calls `float()` and nothing raises. See
  `LineParser.GarbageIsDropped` and `LineParser.PositionalSpec`.
- A line that is not valid UTF-8 makes `decode('utf-8')` raise. The code treats
  that as a disconnect and falls back to the demo loop; it does not substitute
  characters.
- The CSV path is fixed when the object is made. Readings after midnight go to
  the previous day's file; there is no rotation to a new file.
- `last_arduino_check` starts at 0, so the first demo pass probes for the
  device at once whenever the clock reads more than 5.0, which `time.time()`
  always does. Later probes are more than five seconds apart. In the model the
  first probe happens when `now - 0.0 > 5.0`.

## Model

| member | source | states |
|---|---|---|
| Text.Strip | python_app/data/data_manager.py:206 | a stripped string neither starts nor ends with whitespace |
| Text.StripRemovesOnlySpace | python_app/data/data_manager.py:206 | `strip()` removes only whitespace: the input is whitespace + result + whitespace |
| Text.StripIdempotent | python_app/data/data_manager.py:367 | stripping a stripped line changes nothing |
| Text.FirstIndex | python_app/data/data_manager.py:208 | `split(':', 1)` cuts at the first colon: the key holds no colon |
| Text.ContainsAt | python_app/data/data_manager.py:377 | `'C:' in line` holds exactly when `C:` occurs at some offset |
| Text.SplitCount | python_app/data/data_manager.py:388-389 | `split(',')` gives one piece more than there are commas |
| Text.JoinSplit | python_app/data/data_manager.py:202 | joining the pieces of `split(',')` with commas gives the line back |
| Text.SplitJoin | python_app/data/data_manager.py:202 | splitting comma-free pieces joined by commas gives the pieces back |
| Numbers.ParseNatText | python_app/data/data_manager.py:210 | `float(str(n))` is `n` for every natural number |
| Numbers.ParseNegatedNatText | python_app/data/data_manager.py:210 | `float('-' + str(n))` is `-n` |
| Numbers.NoDigitNoNumber | python_app/data/data_manager.py:210 | in the model, a token without an ASCII digit makes `float()` fail (Python's own `float()` also accepts `inf`, `nan` and other Unicode digits; see Left out) |
| Numbers.PointText | python_app/data/data_manager.py:210 | `float()` of digits, a point and digits is the whole part plus the fraction the digits after the point write |
| Numbers.DecimalFraction | python_app/data/data_manager.py:210 | for every natural `a` and digit string `d`, `float(str(a) + '.' + d)` is `a + d / 10^len(d)` |
| Numbers.PointToken | python_app/data/data_manager.py:210 | a token of digits with one inner point converts to its decimal value |
| Numbers.SeparatorRefused | python_app/data/data_manager.py:210 | a token that starts with one of the separators U+001C to U+001F makes `float()` fail, although `str.isspace()` counts them as whitespace and `strip()` removes them |
| Numbers.FourPointEightyFive | python_app/data/data_manager.py:199 | `float('4.85')` is 4.85 |
| Numbers.OnePointTwentyThree | python_app/data/data_manager.py:199 | `float('1.23')` is 1.23 |
| Numbers.TwentyFourPointFive | python_app/data/data_manager.py:199 | `float('24.5')` is 24.5 |
| Numbers.ThreePointThree | python_app/data/data_manager.py:391 | `float('3.3')` is 3.3 |
| Numbers.ZeroPointFive | python_app/data/data_manager.py:392 | `float('0.5')` is 0.5 |
| Numbers.TwentyOnePointZero | python_app/data/data_manager.py:393 | `float('21.0')` is 21.0 |
| Json.ParseValue | python_app/data/data_manager.py:373 | a successful parse consumes at least one character and stays inside the text |
| Json.PlainString | python_app/data/data_manager.py:373 | a string literal without quotes, backslashes or control characters decodes to its own text |
| Json.LoneSurrogateDecodes | python_app/data/data_manager.py:373 | an escaped lone surrogate (`"\ud800"`) is accepted, not refused |
| Json.DecodeExample | python_app/data/data_manager.py:373 | `json.loads('{"voltage":3.3}')` is the object with the one member `voltage: 3.3` |
| Json.PointNumber | python_app/data/data_manager.py:373 | a number written as digits, a point and digits reads as its whole part plus the fraction its last digits write, and ends where the digits end |
| Json.DigitValue | python_app/data/data_manager.py:373 | a value that starts with a digit is the number read there |
| Json.MemberAt | python_app/data/data_manager.py:373 | a member `"key":value` without whitespace reads as that key and that value |
| Json.MemberThenNext | python_app/data/data_manager.py:373 | a member followed by `,` is added to the members read so far, and the object continues with the next member |
| Json.MemberThenClose | python_app/data/data_manager.py:373 | a member followed by `}` ends the object, holding the members read so far and then this one |
| Json.FieldsObject | python_app/data/data_manager.py:373 | the members of `{"voltage":3.3,"current":0.5,"temperature":21.0}` are read in order, each after the comma of the one before |
| Json.DecodeFieldsExample | python_app/data/data_manager.py:373 | `json.loads('{"voltage":3.3,"current":0.5,"temperature":21.0}')` is the object with those three members, in that order |
| Json.LookupLast | python_app/data/data_manager.py:264-266 | `data.get(key)` finds nothing exactly when no member has the key, and otherwise the value of the last such member |
| LineParser.Tags.Set | python_app/data/data_manager.py:209-214 | storing a tag's value sets that slot and leaves the other two as they were |
| LineParser.ReadPart | python_app/data/data_manager.py:206-214 | one pass of the loop over the pieces is one step of the scan: a failed conversion fails, a known tag overwrites its slot |
| LineParser.ParseArduinoCsv | python_app/data/data_manager.py:198-224 | the loop returns what the scan of the split line gives: a reading only when all three tags were set |
| LineParser.ScanFails | python_app/data/data_manager.py:205-214 | parsing fails exactly when some V, C or T piece has a value `float()` refuses |
| LineParser.FailureSticks | python_app/data/data_manager.py:222-224 | a failed conversion at any piece fails the whole line |
| LineParser.ScanLastWins | python_app/data/data_manager.py:209-214 | a slot is empty exactly when no piece sets that tag, and otherwise holds the last such piece's value |
| LineParser.ReadTagsSpec | python_app/data/data_manager.py:216-220 | the line gives a reading exactly when no conversion fails and V, C and T are all present; each value is the one from the last piece with that tag |
| LineParser.OtherPieceInvisible | python_app/data/data_manager.py:207-209 | a piece with no colon or an unknown key changes nothing, wherever it stands |
| LineParser.CommentIgnored | python_app/data/data_manager.py:385 | a line is ignored exactly when it starts with `#` |
| LineParser.PositionalSpec | python_app/data/data_manager.py:385-398 | an unframed line gives a reading exactly when it has three pieces that all convert, in the order voltage, current, temperature; it is dropped silently exactly when it does not have two commas |
| LineParser.TaggedSpec | python_app/data/data_manager.py:377-384 | a tagged line gives a reading exactly when `parse_arduino_csv` returns one, and it is that reading; it is rejected exactly when a conversion fails |
| LineParser.GarbageIsDropped | python_app/data/data_manager.py:385-398 | the line `garbage` is dropped without a message |
| LineParser.JsonMissingFieldIsZero | python_app/data/data_manager.py:264-266 | a field missing from the JSON object counts as 0, not as a failure |
| LineParser.KnownPiece | python_app/data/data_manager.py:206-214 | a stripped piece `V:x`, `C:x` or `T:x` sets that tag to `float(x)` |
| LineParser.ScanThree | python_app/data/data_manager.py:205-214 | three pieces are stored in order, left to right |
| LineParser.TaggedParseExample | python_app/data/data_manager.py:198-224 | `parse_arduino_csv('V:4.85,C:1.23,T:24.5')` gives voltage 4.85, current 1.23, temperature 24.5 |
| LineParser.TaggedExample | python_app/data/data_manager.py:377-384 | the line `V:4.85,C:1.23,T:24.5` is the reading (4.85, 1.23, 24.5) |
| LineParser.PositionalExample | python_app/data/data_manager.py:385-395 | the line `3.3,0.5,21.0` is voltage 3.3, current 0.5, temperature 21.0 |
| LineParser.JsonExample | python_app/data/data_manager.py:369-374 | the line `{"voltage":3.3}` is the reading (3.3, 0.0, 0.0) |
| LineParser.JsonFieldsExample | python_app/data/data_manager.py:369-374 | the line `{"voltage":3.3,"current":0.5,"temperature":21.0}` is the reading (3.3, 0.5, 21.0): each field is found in a multi-member object |
| Storage.InitCsvFileIdempotent | python_app/data/data_manager.py:133-138 | a new CSV file is just the header, an existing file is untouched, and setting up twice changes nothing |
| Storage.StoreAdded | python_app/data/data_manager.py:270-283 | a processed sample adds one table row if it is not all zeros, and none otherwise |
| Storage.CsvAdded | python_app/data/data_manager.py:281-287 | a processed sample adds one CSV row only if it is not all zeros and not synthetic |
| Storage.ImagesAppend | python_app/data/data_manager.py:281-287 | the sinks after one more sample are the sinks before it plus exactly what it adds |
| Storage.SkippedSamples | python_app/data/data_manager.py:281-292 | an all-zero sample reaches neither sink; a synthetic sample never reaches the CSV file; a valid sample adds one table row |
| Storage.StoreRowsFromValidSamples | python_app/data/data_manager.py:281-283 | every table row comes from some processed sample that was not all zeros |
| Storage.CsvRowsFromRealSamples | python_app/data/data_manager.py:286-287 | every CSV row comes from a valid real sample, and its power column is voltage times current |
| Storage.CsvNoLongerThanStore | python_app/data/data_manager.py:281-287 | the CSV file never gains more rows than the table |
| Storage.Insert | python_app/data/data_manager.py:463 | inserting a row into the ordered rows adds exactly that row |
| Storage.InsertSorted | python_app/data/data_manager.py:463 | inserting into rows in descending timestamp order keeps them in that order |
| Storage.SortDescSorted | python_app/data/data_manager.py:463 | `ORDER BY timestamp DESC` gives the rows in descending timestamp order |
| Storage.SortDescPermutes | python_app/data/data_manager.py:463 | the ordering neither loses nor invents a row |
| Storage.QuerySpec | python_app/data/data_manager.py:460-467 | the query returns `limit` rows (all of them for a negative or large limit), in descending order, drawn from the table, and no row left out is newer than a row returned |
| Storage.SortAscendingIsReverse | python_app/data/data_manager.py:463 | rows inserted in strictly increasing time come back in reverse order |
| Storage.QueryOfAscending | python_app/data/data_manager.py:460-467 | for rows inserted in increasing time, the query gives the last `limit` of them, newest first |
| Storage.QueryExample | python_app/data/data_manager.py:460-467 | rows at t1 < t2 < t3 < t4 with limit 3 give t4, t3, t2 |
| Simulation.Clamp | python_app/data/data_manager.py:338-340 | `max(lo, min(hi, x))` lies within the bounds, is `x` when `x` is already inside, and is always `x`, `lo` or `hi` |
| Simulation.ClampReading | python_app/data/data_manager.py:337-340 | every clamped reading is in the demo ranges: 3.0-5.2 V, 0.1-2.5 A, 18.0-35.0 C |
| Simulation.ClampIdempotent | python_app/data/data_manager.py:338-340 | clamping twice is clamping once |
| Simulation.ClampMonotone | python_app/data/data_manager.py:338-340 | clamping keeps the order of two values |
| Simulation.ClampReadingKeepsInRange | python_app/data/data_manager.py:337-340 | a reading already in range passes unchanged, and clamping a reading is idempotent |
| Simulation.DemoReadingIsValid | python_app/data/data_manager.py:337-350 | a clamped reading is never all zeros, so every demo reading reaches the table |
| Manager.StatusTextInjective | python_app/data/data_manager.py:154-178 | the four status strings are four different strings |
| Manager.FirstOpenedFrom | python_app/data/data_manager.py:89-93 | finds the first scanned port, from a given index on, that opens, or reports that none does |
| Manager.Tried | python_app/data/data_manager.py:89-96 | auto-connect tries no more ports than the scan found |
| Manager.AttemptTraceShape | python_app/data/data_manager.py:154-179 | each attempt reports `connecting`, then `connected` if its port opened and `error` if it did not |
| Manager.AttemptTraceSilent | python_app/data/data_manager.py:147-150 | without a callback, connection attempts report nothing |
| Manager.AutoConnectNotices | python_app/data/data_manager.py:80-96 | every port tried reports `connecting` then `error`, except the first port that opens, which reports `connected` |
| Manager.TracedStep | python_app/data/data_manager.py:311-407 | a reading made by an event later than every event traced so far extends the trace |
| Manager.AllRangeShowsNothing | python_app/pages/past_data.py:186-189 | as written: the "All" range passes `None`, and a table with rows then shows none of them, unlike `AllRows` |
| Manager.AllRows | python_app/pages/past_data.py:186-189 | as intended for "All": every row of the table, no row lost or invented, newest first |
| Manager.LatestAfter | python_app/data/data_manager.py:273-278 | the slot holds zeros and no timestamp before the first reading, and the last reading's time afterwards |
| Manager.DataManager.constructor | python_app/data/data_manager.py:14-27 | not collecting, no connection, no callback, zero slot, the existing table, and a CSV file with its header |
| Manager.DataManager.RegisterStatusCallback | python_app/data/data_manager.py:143-145 | replaces the callback and nothing else |
| Manager.DataManager.UpdateStatus | python_app/data/data_manager.py:147-150 | reports to the registered callback, if any, and changes nothing else |
| Manager.DataManager.ConnectArduino | python_app/data/data_manager.py:152-179 | succeeds exactly when the port opens; only success replaces the connection; reports `connecting` then the outcome |
| Manager.DataManager.AutoConnect | python_app/data/data_manager.py:80-96 | succeeds exactly when some scanned port opens, and is then connected to the first such port; otherwise the connection is unchanged and `port` names the last port tried |
| Manager.DataManager.ProcessData | python_app/data/data_manager.py:261-295 | the slot takes the reading; the table gains a row unless the reading is all zeros; the CSV file gains a row unless it is all zeros or synthetic; the sink invariant holds |
| Manager.DataManager.StoreData | python_app/data/data_manager.py:409-424 | appends one row with timestamp, voltage, temperature and current, and nothing else changes |
| Manager.DataManager.StoreCsvData | python_app/data/data_manager.py:426-446 | appends one CSV row with power = voltage × current, and nothing else changes |
| Manager.DataManager.HandleLine | python_app/data/data_manager.py:369-398 | a line that gives a reading is processed as real data; any other line changes nothing |
| Manager.DataManager.EnterDemo | python_app/data/data_manager.py:305-309 | reports `demo`, sets collecting, and resets the probe clock |
| Manager.DataManager.EnterReal | python_app/data/data_manager.py:361-362 | reports `connected` / `Collecting real data` and enters the real-data loop |
| Manager.PassMadeFromEvent | python_app/data/data_manager.py:311-407 | one pass of either loop makes at most one reading, and it is the one its event gives |
| Manager.PassKeepsNotices | python_app/data/data_manager.py:311-407 | one pass keeps the callback and every notice sent so far |
| Manager.RunKeepsNotices | python_app/data/data_manager.py:311-407 | the loops keep the callback and every notice sent before they started; they only add notices |
| Manager.RunWithoutStop | python_app/data/data_manager.py:311-407 | without a stop request, collection that is running is still running after every event |
| Manager.RunStops | python_app/data/data_manager.py:484-488 | after a stop request, collection is no longer running, whatever comes after it |
| Manager.RealRunStaysReal | python_app/data/data_manager.py:364-407 | until a read fails, the real-data loop stays the real-data loop, and every reading it processes is real |
| Manager.FallbackRecovery | python_app/data/data_manager.py:315-322 | a demo pass whose probe finds a port enters the real-data loop and processes no synthetic reading; the next pass, and every pass until a read fails, processes only real readings |
| Manager.TracedDemoInRange | python_app/data/data_manager.py:337-350 | every synthetic reading traced to its event is the clamp of that event's raw values, so it lies in the demo ranges |
| Manager.BeginStateFields | python_app/data/data_manager.py:181-196 | `start_collection` collects; it enters the real-data loop exactly when the configured port or a scanned port opens, over that port, and the demo loop otherwise, with the probe clock at 0; the notices are those of the attempts then the loop's opening notice; the callback, slot and sinks stay |
| Manager.DataManager.RealStep | python_app/data/data_manager.py:364-407 | the new state is `RealPass` of the old one: no data changes nothing; a received line is stripped and dispatched, and only the slot, the table and the CSV file can change; a read failure drops the connection, reports `demo`, resets the probe clock and enters the demo loop, and nothing else changes |
| Manager.DataManager.Probe | python_app/data/data_manager.py:315-322 | the new state is `Probed` of the old one: it probes only when more than five seconds have passed; reports the scan's attempts and, on a switch, `Collecting real data`; switches exactly when a scanned port opens, connected to the first such port; a failed probe moves the probe clock to `now` and leaves `port` at the last port tried |
| Manager.DataManager.DemoStep | python_app/data/data_manager.py:311-357 | the new state and the readings made are `DemoPass` of the old state: the probe's notices, port, connection and probe clock as above; after a switch nothing is processed; otherwise the clamped synthetic reading is processed at `now` |
| Manager.DataManager.Pass | python_app/data/data_manager.py:311-407 | the new state and the readings made are `PassOf` of the old state and the event: a stop request ends collection, a tick runs one pass of the loop the mode names; at most one reading is processed, and it is the one its event makes |
| Manager.DataManager.StopCollection | python_app/data/data_manager.py:484-488 | collection stops and an existing port is closed; nothing else changes |
| Manager.DataManager.Run | python_app/data/data_manager.py:311-407 | the new state and the readings made are `RunOf` of the old state and the events, the fold of one pass per event that stops when collection stops; keeps the sink invariant, the callback and every earlier notice; without a stop request collection is still running at the end; each new reading comes from its own event, in event order: a demo reading is the clamp of that tick's raw values at its time, a real one the reading of the stripped line that tick received; every synthetic reading is in the demo ranges; a stop request ends collection |
| Manager.DataManager.Begin | python_app/data/data_manager.py:181-196 | the new state is `BeginState` of the old one: it tries the configured port, then the scan; enters the real loop exactly when one of them opens, else the demo loop with the probe clock at 0; the port, the connection and the exact list of notices follow |
| Manager.DataManager.StartCollection | python_app/data/data_manager.py:181-196 | enters the real-data loop exactly when the configured port or a scanned port opens, else the demo loop; the notices start with exactly those of the attempts and of the loop's opening; the final state and readings are `RunOf` from `BeginState`, and with no events they are `BeginState` itself; every reading comes from its own event, in order; a stop request ends collection, and without one collection is still running |
| Manager.DataManager.GetLatestData | python_app/data/data_manager.py:448-452 | returns the last processed reading, with no timestamp exactly when nothing was processed yet |
| Manager.DataManager.GetHistoricalData | python_app/data/data_manager.py:454-482 | a failing database or a `None` limit gives `[]`; otherwise `min(limit, rows)` rows (all for a negative limit), in descending order, drawn from the table, each either pre-existing or stored from a valid sample |
| Manager.DataManager.GetRecentData | python_app/data/data_manager.py:454 | the default limit gives the newest 100 rows, or all rows when there are fewer, newest first |

## Findings

| source | as written | input that shows it | evidently intended | confidence | as-written member | corrected member |
|---|---|---|---|---|---|---|
| python_app/pages/past_data.py:186-189 | the "All" range calls `get_historical_data(None)`; SQLite refuses a NULL `LIMIT` with "datatype mismatch", and the `except` in `get_historical_data` returns `[]` | the text "All" typed into the editable range combobox, whose list offers only 25, 50, 100 and 200 (python_app/pages/past_data.py:44-45), over a table with at least one row | every row, newest first | not executed; rests on SQLite's refusal of a NULL limit | Manager.AllRangeShowsNothing | Manager.AllRows |

## Left out

- Floating point: numbers are exact reals. Rounding to binary doubles is not modelled, and neither are `NaN` and `Infinity` in JSON.
- Numbers.ParseFloat: strips the whitespace `float()` strips, which excludes the separators U+001C to U+001F that `strip()` removes. It accepts ASCII digits only. Python's `float()` also accepts other Unicode decimal digits (`float('٣')` is 3.0), `inf`, `nan` and underscores between digits; the model refuses all of these.
- Numbers.NoDigitNoNumber: holds of the model only. In Python, `float('nan')`, `float('inf')` and `float('٣')` succeed without an ASCII digit.
- Json.ParseString: an escaped lone surrogate decodes to U+FFFD, because a Dafny `char` cannot hold a lone surrogate; Python keeps the code point. Such a key never equals `voltage`, `current` or `temperature`, and `float()` refuses such a value, in both.
- Manager.DataManager.GetHistoricalData: keeps the code's result for a `None` limit; `Manager.AllRows` is what the "All" range is meant to show, and the past-data page itself is not part of this model.
- The `%.2f` and `%.1f` formatting of the CSV columns and the `strftime` of the timestamp: CSV rows hold the unformatted values.
- Timestamps are reals supplied by the caller; `datetime.now()` and `time.time()` are not modelled.
- Write failures of SQLite and of the CSV file: in the model every write succeeds. The source only logs such failures.
- The sine trends and random noise of the demo generator: the raw values are a parameter, and only the clamp is modelled.
- The sleeps, and the two-second wait after opening a port.
- Serial I/O: `in_waiting`, `readline` and UTF-8 decoding are folded into one `ReadResult` per pass. Opening a port is an `OpenOutcome` parameter.
- `scan_ports`: the ports it finds are a parameter, given as a list of names with the outcome of opening each one.
- Concurrency: `stop_collection` runs on another thread in the source. In the model a stop request takes effect between two loop passes.
- The stack growth of the two loops calling each other: the model runs them as one loop.
- Python's recursion limit: a deeply nested JSON line raises `RecursionError` in `json.loads`, which the outer handler treats as a disconnect. The model's decoder has no depth limit.
- `setup_data_paths`, `init_database`, `get_csv_file_path`, `get_csv_directory` and `get_csv_info`: they deal with paths and files only, and are not part of this model.
- The status callback is a number that identifies it, and its calls are a list of notices. What the callback does is not modelled.
- The `else` branch of `get_latest_data` cannot be taken, because the slot is never empty. The model always returns the slot.
- Ties in `ORDER BY timestamp DESC`: SQLite leaves their order open. The model puts a later insertion first.
- Run: requires the worker to be in one of the two loops. It is only reached through `StartCollection`, which sets that up.
- The event script is finite: the model does not capture what happens after the last event.
- Json.ParseValue: its contract states only that parsing makes progress; the decoder is not proved against the JSON grammar.
- Json.ParseNumber: reads an integer part of any length. CPython 3.11 and later refuse to convert a decimal string of more than 4300 digits to an integer, so `json.loads` raises `ValueError` for such a number. That is not a `JSONDecodeError`, so the `except` at python_app/data/data_manager.py:375 does not catch it. The outer handler (python_app/data/data_manager.py:402-407) then drops the port and starts the demo loop. The model decodes the number and stays connected.
- Json.ToFloat: keeps the exact value of a JSON integer. In Python, `float()` of an integer of 309 or more digits raises `OverflowError`. The handler at python_app/data/data_manager.py:294-295 catches it, so such a line processes nothing. The model processes the value.
