# VoiceClip, modelled in Dafny

VoiceClip is a voice-to-clipboard utility. A Super+Shift+V chord, or a click on
a floating badge, toggles recording. On the second toggle:

1. an audio worker thread saves the capture as a WAV file;
2. the back end transcribes the file with whisper;
3. the text goes to the clipboard and into a desktop notification;
4. one session record is written to a SQLite table;
5. the badge walks through "recording", "processing", "success" or "error", and back to "idle" three seconds later.

A statistics window, written once in GTK and once in React, lists the recent sessions.

This project models the core of that system and proves properties of the model.
Each module follows one part of the program.

| module | models |
|---|---|
| `Wrappers` | Option and Result |
| `Numeric` | Rust's `as u32` cast and its truncating signed `/` and `%` |
| `Text` | Rust's `char::is_whitespace`, `trim` and `split_whitespace` |
| `Delivery` | the clipboard composition rule and the notification urgency of both `delivery.rs` files |
| `SessionStore` | the `sessions` table of `src-tauri/src/db.rs`, as a sequence of rows with its AUTOINCREMENT counter |
| `Decimal` | Rust's zero-padded width formatting of integers, with a reader for the printed digits |
| `StatsView` | `truncate_str`, `format_timestamp`, `days_to_date` and the body line of `src/ui/stats.rs` |
| `StatsWindow` | the preview rule of `StatsWindow.tsx`, on UTF-16 code units as JavaScript counts them |
| `Hotkey` | the pressed-key set and chord detection of `src/hotkey.rs` |
| `Badge` | the badge states, their icons and the 30-slot level buffer of `Badge.tsx` |
| `Commands` | the `AppEvent` and `AudioCommand` types of `src-tauri/src/lib.rs` |
| `AudioWorker` | the worker thread of `src-tauri/src/lib.rs` and its `recorder` variable |
| `Orchestrator` | the orchestrator task of `src-tauri/src/lib.rs`, with the poll task and the idle timers beside it |

Code that updates state in place is a class. Each class method is proved
equal to a pure step function of the old state:

- `AudioWorker.Worker` is proved against `Serve`;
- `Orchestrator.Orchestrator` against `ToggleStep`, `PollTickStep` and `TimerStep`, and its `Run` against `RunAll`;
- `Hotkey.DeviceListener` against `NextPressed` and `Toggles`;
- `Badge.BadgeView` against `PushLevel` and `Zeros`: a level event leaves the buffer of `PushLevel`, and a state change leaves the old buffer or `Zeros`;
- `SessionStore.Database` against `Insert`, and its query against an ordering specification.

The source's properties are then proved as lemmas about those functions.

Every call the orchestrator makes to the outside world is an input of its step (`ToggleEnv`), and its result is recorded as an `Effect` in an ordered trace. This covers the capture device, the WAV writer, whisper, the clipboard, the notification daemon, the database and the clocks. The proofs state that trace and the records it logs.

## Model

| member | source | states |
|---|---|---|
| Numeric.AsU32 | src-tauri/src/lib.rs:271-272 | `as u32` keeps a value that fits, and otherwise differs from it by a multiple of 2^32 |
| Numeric.RustDiv | src/ui/stats.rs:154-157 | the quotient is truncated toward zero: for a non-negative dividend the product lies below it within one divisor, for a negative one above it |
| Numeric.RustRem | src/ui/stats.rs:154-157 | dividend = quotient × divisor + remainder, with the remainder taking the dividend's sign |
| Text.TrimStart | src-tauri/src/delivery.rs:7-8 | the result is a suffix of the input, everything dropped is whitespace, and it does not start with whitespace |
| Text.TrimEnd | src-tauri/src/delivery.rs:7-8 | the result is a prefix of the input, everything dropped is whitespace, and it does not end with whitespace |
| Text.TrimEmptyIff | src-tauri/src/delivery.rs:7 | `trim()` is empty exactly when the text is all whitespace |
| Text.TrimEnds | src-tauri/src/delivery.rs:7-8 | a trimmed text neither starts nor ends with whitespace |
| Text.TrimUnchanged | src-tauri/src/delivery.rs:8 | text without whitespace at either end is its own trim |
| Text.TokenLength | src-tauri/src/lib.rs:271 | the length of the longest whitespace-free prefix: that prefix has no whitespace, and the next character is whitespace |
| Text.TokenLengthUnique | src-tauri/src/lib.rs:271 | any length meeting those two conditions is that length |
| Text.SplitWhitespace | src-tauri/src/lib.rs:271 | every word is non-empty and free of whitespace |
| Text.RemoveWhitespace | src-tauri/src/lib.rs:271 | the reference text for the split: the input with its whitespace removed, which has no whitespace |
| Text.RemoveWhitespaceAppend | src-tauri/src/lib.rs:271 | removing whitespace distributes over concatenation |
| Text.RemoveWhitespaceOfToken | src-tauri/src/lib.rs:271 | a whitespace-free text loses nothing |
| Text.SplitWhitespaceCovers | src-tauri/src/lib.rs:271 | the words concatenated are exactly the non-whitespace characters of the text, in order |
| Text.WordCountBlank | src-tauri/src/lib.rs:271 | a blank text has zero words |
| Text.WordThenRest | src-tauri/src/lib.rs:271 | a word followed by whitespace splits off as the first word |
| Text.WordCountExamples | src-tauri/src/lib.rs:271 | "hello there friend" has 3 words and the empty text has 0 |
| Delivery.ComposeClipboard | src-tauri/src/delivery.rs:5-13 | with append off the clipboard becomes the text; with append on and readable non-blank content it becomes trimmed content, one space, then the text; with blank or unreadable content it becomes the text (same rule in src/delivery.rs:3-15) |
| Delivery.ComposeEndsWithText | src-tauri/src/delivery.rs:8-13 | the new text always ends the clipboard unaltered; anything before it is the trimmed current content plus one space |
| Delivery.AppendAccumulates | src-tauri/src/delivery.rs:6-9 | two deliveries in append mode leave the kept content, then each text after one space |
| Delivery.CopyToClipboard | src-tauri/src/delivery.rs:3-15 | it succeeds exactly when the clipboard opens and the write succeeds; an open failure is returned as is; on success the written text is the composed value, and a failed read only turns appending off |
| Delivery.UrgencyFor | src/delivery.rs:18-22 | the urgency is Critical exactly for an error |
| Delivery.TauriNotification | src-tauri/src/delivery.rs:17-31 | summary and body are kept; the urgency is set only on Linux, and it is Critical exactly on Linux for an error |
| Delivery.GtkNotification | src/delivery.rs:17-29 | summary and body are kept; the urgency is always set, Critical for an error and Normal otherwise |
| SessionStore.Insert | src-tauri/src/db.rs:69-85 | a successful insert appends one row with the record unchanged under the next id and bumps the counter; a failed one leaves the table unchanged and returns the error |
| SessionStore.InsertKeepsInvariant | src-tauri/src/db.rs:53-54 | ids stay strictly increasing in insertion order and below the counter |
| SessionStore.InsertIdIsFresh | src-tauri/src/db.rs:54 | the new row's id is different from every earlier row's id |
| SessionStore.Successful | src-tauri/src/db.rs:89-90 | the `WHERE error IS NULL` rows: drawn from the table, all without error |
| SessionStore.Summarize | src-tauri/src/db.rs:87-100 | the summary exists exactly when the count and the duration sum fit in u32; it then holds the number of error-free rows and the sum of their durations; otherwise reading the column fails |
| SessionStore.SuccessfulAppend | src-tauri/src/db.rs:89-90 | the filter of an extended table is the old filter plus the new row if it has no error |
| SessionStore.SumDurationsAppend | src-tauri/src/db.rs:89 | the duration sum distributes over concatenation |
| SessionStore.LoggingUpdatesSummary | src-tauri/src/db.rs:69-90 | logging an error-free session adds one recording and its duration to the summary; logging a failed one adds nothing |
| SessionStore.FailedSessionsExcluded | src-tauri/src/db.rs:89-90 | a table holding only failed sessions reports 0 recordings and 0 seconds |
| SessionStore.ToSessionRow | src-tauri/src/db.rs:104-116 | every returned column equals the stored one; `model_used` is not returned |
| SessionStore.RemoveAt | src-tauri/src/db.rs:105 | dropping one candidate keeps the others in order and without duplicates |
| SessionStore.TakeNewest | src-tauri/src/db.rs:105 | moving the newest remaining row to the result keeps the result newest-first and no newer than it anything left behind |
| SessionStore.MostRecent | src-tauri/src/db.rs:105 | the chosen candidate has the latest `started_at` of all candidates |
| SessionStore.Database.constructor | src-tauri/src/db.rs:52-64 | the store opens on the table the file already holds, rows and AUTOINCREMENT counter included, since `CREATE TABLE IF NOT EXISTS` keeps them; a new file gives `EmptyTable` |
| SessionStore.Database.LogSession | src-tauri/src/db.rs:69-85 | the new table and the result are those of `Insert` on the old table |
| SessionStore.Database.GetRecentSessions | src-tauri/src/db.rs:102-123 | returns min(limit, rows) distinct rows, failed ones included, each converted column by column, in non-increasing `started_at` order, and none left out is newer than any returned |
| Decimal.Pow10 | src/ui/stats.rs:160 | powers of ten are positive |
| Decimal.DigitChar | src/ui/stats.rs:160 | a digit's character reads back as that digit |
| Decimal.Digits | src/ui/stats.rs:160 | `Display` of a natural number is a non-empty digit string without leading zeros |
| Decimal.Repeat | src/ui/stats.rs:160 | the padding is `k` copies of the fill character |
| Decimal.ZeroPad | src/ui/stats.rs:160 | Zero-padded formatting prints the sign, then zeros, then the digits; the result is as wide as the width or the number, whichever is wider |
| Decimal.DigitsValue | src/ui/stats.rs:160 | the digits read back as the number |
| Decimal.DigitsLength | src/ui/stats.rs:160 | a number below 10^k has at most k digits |
| Decimal.LeadingZeros | src/ui/stats.rs:160 | zero padding does not change the value read |
| Decimal.ZerosValue | src/ui/stats.rs:160 | a run of zeros reads as 0 |
| Decimal.ParseNumeral | src/ui/stats.rs:160 | a digit string reads as its value, and with a minus sign as its negation |
| Decimal.ZeroPadRoundTrip | src/ui/stats.rs:160 | every padded number, negative ones included, reads back as itself |
| Decimal.ZeroPadExactWidth | src/ui/stats.rs:160 | a non-negative number below 10^w fills exactly w digits |
| StatsView.TruncateStr | src/ui/stats.rs:144-151 | a text of at most `max_chars` characters is returned unchanged; a longer one becomes its first `max_chars` characters and "..." |
| StatsView.TruncateShape | src/ui/stats.rs:147-149 | a cut text has `max_chars + 3` characters; never more than that; it starts with as much of the text as fits |
| StatsView.TruncateFixedPoint | src/ui/stats.rs:145-149 | the text comes back unchanged exactly when it fits or already has the cut shape |
| StatsView.TruncateIdempotent | src/ui/stats.rs:144-151 | truncating twice is truncating once |
| StatsView.SessionBody | src/ui/stats.rs:105-109 | an error row shows "Error: " and the truncated error; any other row shows the truncated transcription |
| StatsView.SessionBodyBounded | src/ui/stats.rs:105-109 | a body is at most 83 characters, or at most 90 with the "Error: " prefix |
| StatsView.EraDecomposition | src/ui/stats.rs:168-170 | Hinnant's year-of-era estimate is exact: year in 0..399, day of year in 0..365, and day 365 only in a year whose February has 29 days |
| StatsView.MonthOfYear | src/ui/stats.rs:171-173 | the month index is 0..11 and the day is 1..31 and within the month's length |
| StatsView.LeapYearPeriod | src/ui/stats.rs:169 | leap years repeat every 400 years |
| StatsView.EraIsFloor | src/ui/stats.rs:166 | the offset truncating division is the floor division by 146097 |
| StatsView.DaysToDate | src/ui/stats.rs:163-176 | month in 1..12, day in 1..31 and within the month; the day of era lies in 0..146096, so the `as u64` cast and the u64 subtractions are exact |
| StatsView.CivilFromDayOfEra | src/ui/stats.rs:167-175 | the same bounds from the era and the day within it |
| StatsView.CivilFromDayOfEraRoundTrip | src/ui/stats.rs:167-175 | `days_from_civil` of the computed date gives back the era's day count |
| StatsView.DaysToDateRoundTrip | src/ui/stats.rs:163-176 | `days_from_civil(days_to_date(d)) == d` for every day count |
| StatsView.EpochIsDayZero | src/ui/stats.rs:163-176 | day 0 is 1970-01-01 |
| StatsView.TimestampFields | src/ui/stats.rs:153-159 | from 1970 on, seconds and minutes are 0..59 and hours 0..23; before it they are the negated ranges; month and day are always valid |
| StatsView.TimestampFieldsRoundTrip | src/ui/stats.rs:154-157 | days × 86400 + hours × 3600 + minutes × 60 + seconds adds back up to the timestamp |
| StatsView.FormatTimestamp | src/ui/stats.rs:153-161 | the text is at least 19 characters for every timestamp, negative ones included; FormatTimestampLayout gives its exact layout |
| StatsView.FormatFields | src/ui/stats.rs:160 | the `format!` text is at least 19 characters |
| StatsView.TwoDigitField | src/ui/stats.rs:160 | Width-2 zero padding of 0..99 gives two digits that read back as the value |
| StatsView.Layout | src/ui/stats.rs:160 | where each field and separator sits in "YYYY-MM-DD HH:MM:SS" |
| StatsView.FormatFieldsLayout | src/ui/stats.rs:160 | with non-negative fields and a four-digit year the text is exactly 19 characters with its separators, and each field reads back as its value |
| StatsView.MarchStartMonotone | src/ui/stats.rs:163-176 | the calendar years begin in increasing order of day count |
| StatsView.CivilYearBounds | src/ui/stats.rs:163-176 | a date whose day count lies from the epoch to the end of 9999 has a year in 1970..9999 |
| StatsView.YearTenThousand | src/ui/stats.rs:163-176 | 10000-01-01 is day 2932897 |
| StatsView.FormatTimestampLayout | src/ui/stats.rs:153-161 | every timestamp from 1970 to the end of 9999 prints as "YYYY-MM-DD HH:MM:SS" with a year in 1970..9999, and each field of the text reads back as the field of the timestamp |
| StatsView.FormatTimestampInjective | src/ui/stats.rs:153-161 | two timestamps from 1970 to the end of 9999 that print the same text are equal |
| StatsView.LastSecondOfEpochDay | src/ui/stats.rs:154-159 | timestamp 86399 has the fields 1970-01-01 23:59:59 |
| StatsView.PaddedFieldsExample | src/ui/stats.rs:160 | 1970 pads to "1970", 1 to "01", 23 to "23" and 59 to "59" |
| StatsView.FormatFieldsExample | src/ui/stats.rs:160 | those fields print as "1970-01-01 23:59:59" |
| StatsView.FormatTimestampExample | src/ui/stats.rs:153-161 | `format_timestamp(86399)` is "1970-01-01 23:59:59" |
| StatsWindow.EncodeChar | src/components/StatsWindow.tsx:51-52 | a character takes one UTF-16 code unit inside the Basic Multilingual Plane and two outside it |
| StatsWindow.Utf16 | src/components/StatsWindow.tsx:51-52 | a JavaScript string has at least as many code units as characters |
| StatsWindow.Preview | src/components/StatsWindow.tsx:46-53 | an error row shows the error verbatim; a transcription of at most 80 code units is shown unchanged; a longer one shows its first 80 code units and "..." |
| StatsWindow.Utf16Append | src/components/StatsWindow.tsx:52 | the encoding distributes over concatenation |
| StatsWindow.Utf16OfBmp | src/components/StatsWindow.tsx:51-52 | inside the Basic Multilingual Plane a character is one code unit of the same value |
| StatsWindow.PreviewBounded | src/components/StatsWindow.tsx:51-53 | a non-error preview is at most 83 code units and starts with as much of the transcription as fits |
| StatsWindow.PreviewAgreesWithGtkBody | src/components/StatsWindow.tsx:49-53 | for a transcription inside the Basic Multilingual Plane the web preview equals the GTK body line |
| StatsWindow.ErrorPreviewNotCut | src/components/StatsWindow.tsx:49-50 | an error is shown whole on the web, while the GTK body cuts it after 80 characters behind "Error: " |
| StatsWindow.PreviewCanSplitSurrogatePair | src/components/StatsWindow.tsx:52 | 79 letters and one emoji leave a lone high surrogate as the 80th code unit of the preview |
| Hotkey.NextPressed | src/hotkey.rs:20-26 | a KEY event with value 1 adds its key and with value 0 removes it; other values and other event types leave the set unchanged |
| Hotkey.EmitsIff | src/hotkey.rs:28-34 | a toggle is sent exactly for a press of V while a Meta key and a Shift key are held |
| Hotkey.OnlyPressesEmit | src/hotkey.rs:32 | releases, autorepeats and non-KEY events never send a toggle |
| Hotkey.Toggles | src/hotkey.rs:19-35 | a run of events sends at most one toggle per event |
| Hotkey.RunAppend | src/hotkey.rs:19-35 | processing two runs one after the other is processing their concatenation |
| Hotkey.ChordScenario | src/hotkey.rs:14-35 | Meta, Shift, V, V autorepeat, V release, V sends exactly two toggles |
| Hotkey.UntilErrorAppend | src/hotkey.rs:16-41 | batches read without error contribute their events in order |
| Hotkey.DeviceListener.constructor | src/hotkey.rs:6-14 | the listener starts with no key pressed, whatever hotkey is configured |
| Hotkey.DeviceListener.HandleEvent | src/hotkey.rs:20-35 | the set becomes `NextPressed` of the old one; a toggle is sent exactly when `Emits` holds for the old set |
| Hotkey.DeviceListener.HandleBatch | src/hotkey.rs:19-36 | a batch leaves the set and sends the toggles of the run of its events |
| Hotkey.DeviceListener.Listen | src/hotkey.rs:16-41 | the thread handles the events of every batch before the first read error, and nothing after it |
| Badge.NameInjective | src/lib/commands.ts:31 | different states have different names |
| Badge.Icon | src/components/Badge.tsx:118-122 | recording ⏹, processing …, success ✓, error ✗, and 🎤 for every other name |
| Badge.IconInjective | src/components/Badge.tsx:118-122 | the five states show five different icons |
| Badge.Zeros | src/components/Badge.tsx:15 | 30 zero levels |
| Badge.PushFull | src/components/Badge.tsx:39-42 | a push on a full buffer drops the oldest level, appends the new one last and keeps 30 entries |
| Badge.PushAllWindow | src/components/Badge.tsx:38-43 | after any run of pushes the buffer holds the last 30 levels of the old contents followed by the new ones |
| Badge.BadgeView.constructor | src/components/Badge.tsx:11-15 | the badge starts "idle" with 30 zeros |
| Badge.BadgeView.SetState | src/components/Badge.tsx:19-29 | the state becomes the payload, and the buffer resets to 30 zeros unless the payload is "recording" |
| Badge.BadgeView.OnAudioLevel | src/components/Badge.tsx:38-43 | while recording the buffer becomes `PushLevel` of the old one, which drops the oldest level and appends the new one last; otherwise nothing changes |
| AudioWorker.StartKeepsRecorder | src-tauri/src/lib.rs:125-131 | `Start` never replaces an open recorder; a failed start leaves none; a successful one opens exactly the captured stream |
| AudioWorker.StopTakesRecorder | src-tauri/src/lib.rs:133-140 | `StopAndSave` leaves no recorder whatever the save gives and replies once with the save result; without a recorder it replies "Not recording" |
| AudioWorker.GetLevelReadOnly | src-tauri/src/lib.rs:141-147 | `GetLevel` changes nothing and replies 0.0 when no recorder is open |
| AudioWorker.StoppedStaysStopped | src-tauri/src/lib.rs:123 | once the thread has ended, every command is answered by a dropped channel |
| AudioWorker.ServeAll | src-tauri/src/lib.rs:123-149 | one reply per command |
| AudioWorker.ServeAllInOrder | src-tauri/src/lib.rs:123-149 | reply `i` is the answer to command `i`, given the worker as the commands before it left it |
| AudioWorker.ServeAllAppend | src-tauri/src/lib.rs:123-149 | serving one more command extends the run |
| AudioWorker.AtMostOneRecorder | src-tauri/src/lib.rs:125-131 | with a recorder open, no run of `Start` and `GetLevel` changes the worker, so a second stream is never opened |
| AudioWorker.Worker.constructor | src-tauri/src/lib.rs:121-122 | the thread starts running, with no recorder |
| AudioWorker.Worker.Handle | src-tauri/src/lib.rs:124-148 | the new state and the reply are those of `Serve` |
| AudioWorker.Worker.Run | src-tauri/src/lib.rs:123-149 | the state and the replies after a run of commands are those of `ServeAll` |
| Orchestrator.JoinPath | src-tauri/src/lib.rs:230 | the joined path ends with the file name |
| Orchestrator.Launch | src-tauri/src/lib.rs:110-122 | at launch nothing is recording, no poll task or timer exists, the worker is fresh and the table is the one the database file holds |
| Orchestrator.InitialConsistent | src-tauri/src/lib.rs:110-122 | every launch starts in the orchestrator's invariant, on a new database file or on one holding earlier sessions |
| Orchestrator.CountLogged | src-tauri/src/lib.rs:286 | the number of logged records is at most the length of the trace |
| Orchestrator.CountLoggedAppend | src-tauri/src/lib.rs:286 | counting distributes over concatenation of traces |
| Orchestrator.CountLoggedExactly | src-tauri/src/lib.rs:286 | a trace whose only logged effect sits at one position counts one record |
| Orchestrator.ToggleFlips | src-tauri/src/lib.rs:191-221 | every toggle flips `is_recording` and keeps the invariant |
| Orchestrator.StartTrace | src-tauri/src/lib.rs:191-218 | a start sends `Start` with the live microphone, shows "recording" and spawns the poll task, whether or not capture opens; it records the start time and logs nothing |
| Orchestrator.StopTracePrefix | src-tauri/src/lib.rs:221-236 | a stop aborts the poll task, then shows "processing", then sends `StopAndSave` for the fixed temporary file |
| Orchestrator.StopFailureLogsNothing | src-tauri/src/lib.rs:327-335 | a failed stop, including a dropped reply channel, shows "error", schedules "idle", and logs nothing |
| Orchestrator.SuccessRecord | src-tauri/src/lib.rs:271-282 | the success record has no error, the text itself, the number of whitespace-separated words cut to u32, the start time, `now - start` cut to u32, the model path and the latency cut to u32 |
| Orchestrator.FailureRecord | src-tauri/src/lib.rs:304-313 | the failure record has the error message, an empty text and no words, with the start time, duration, model path and latency of a success |
| Orchestrator.SavedStopTrace | src-tauri/src/lib.rs:221-250 | a stop whose save succeeded emits the abort, "processing" and the stop command, then the effects of transcription, delivery and logging |
| Orchestrator.TranscriptionSuccessTrace | src-tauri/src/lib.rs:250-295 | after a transcription the order is: clipboard with the start-up append mode, then the success notification with its urgency, then exactly one logged `SuccessRecord`, then "success", then "idle"; a successful insert appends that record to the table |
| Orchestrator.TranscriptionFailureTrace | src-tauri/src/lib.rs:297-324 | after a failed transcription the order is: "error", then the error notification with its urgency, then exactly one logged `FailureRecord`, then "idle" |
| Orchestrator.LogsIffSaved | src-tauri/src/lib.rs:238-335 | a toggle logs exactly one record when it stops a recording whose save succeeded, and none otherwise |
| Orchestrator.DeliveryDoesNotAffectLogging | src-tauri/src/lib.rs:258-262 | the clipboard's behaviour never changes the state reached, the table included |
| Orchestrator.FailedStartLogsNothing | src-tauri/src/lib.rs:127-138 | after a start whose capture fails, the next stop gets "Not recording", shows "error" and logs nothing |
| Orchestrator.PollTickKeepsConsistent | src-tauri/src/lib.rs:207-218 | a poll round keeps the invariant and changes neither `is_recording` nor the table |
| Orchestrator.LevelsOnlyWhilePolling | src-tauri/src/lib.rs:207-218 | levels are emitted only by a running poll task while recording |
| Orchestrator.TimerShowsIdle | src-tauri/src/lib.rs:292-295 | a pending timer fires "idle" and nothing else |
| Orchestrator.StaleIdleDuringRecording | src-tauri/src/lib.rs:331-334 | timers are never cancelled: a recording started before the last stop's timer fires sees "idle" on the badge |
| Orchestrator.StepBracketed | src-tauri/src/lib.rs:182-341 | each toggle, poll round or timer keeps the invariant, and emits levels only while a poll handle is held |
| Orchestrator.TranscribePollFree | src-tauri/src/lib.rs:238-326 | transcription, delivery and logging never touch the poll task or the levels |
| Orchestrator.NoPollEffects | src-tauri/src/lib.rs:221-236 | after the abort, "processing" and the stop command, the stop branch emits no level and spawns no task |
| Orchestrator.NoPollEffectsBracketed | src-tauri/src/lib.rs:221-236 | a trace without poll effects keeps the bracket closed |
| Orchestrator.BracketedAppend | src-tauri/src/lib.rs:182-341 | the bracket check composes over concatenated traces |
| Orchestrator.RunBracketed | src-tauri/src/lib.rs:182-341 | over any interleaving of toggles, poll rounds and timers the invariant holds, and no level is emitted between an abort and the next spawn |
| Orchestrator.RunAllAppend | src-tauri/src/lib.rs:187-340 | one more input extends the run |
| Orchestrator.Orchestrator.constructor | src-tauri/src/lib.rs:110-122 | the state of `Launch` on the table the database file holds: not recording, start time 0, no poll task, a fresh worker |
| Orchestrator.Orchestrator.Toggle | src-tauri/src/lib.rs:190-338 | one `ToggleRecording` takes the task, the worker and the database to the state of `ToggleStep` and returns its trace; the invariant is kept |
| Orchestrator.Orchestrator.LogAndDeliver | src-tauri/src/lib.rs:239-326 | the `Ok(())` arm of the stop leaves the table, the timers and the trace of `TranscribeBranch` and keeps the other variables |
| Orchestrator.Orchestrator.PollTick | src-tauri/src/lib.rs:207-218 | one poll round gives the state and the trace of `PollTickStep` |
| Orchestrator.Orchestrator.TimerFires | src-tauri/src/lib.rs:292-295 | a timer gives the state and the trace of `TimerStep` |
| Orchestrator.Orchestrator.Run | src-tauri/src/lib.rs:187-340 | a run of inputs gives the state and the trace of `RunAll` |

## Left out

- Audio capture (cpal, hound, downmixing and clamping in `src/audio.rs`) is not part of this model. The model only says whether the stream opens, how saving ends, and the level its meter reports.
- Whisper is not modelled: `src-tauri/src/whisper.rs` is an external process plus file reading. Its outcome is an input `Result<string, string>`.
- The arboard clipboard and notify-rust are not modelled. The model keeps the composed clipboard value, whether opening or writing fails, and the notification handed over.
- Configuration loading and saving (`src-tauri/src/config.rs`) is file I/O. The model takes the live `microphone` and `model_name` and the models directory as inputs. It takes `append_mode` from the start-up configuration, as the orchestrator does.
- The Tauri commands, windows, menus and rendering are out, and so are the GTK and React layouts and the waveform drawing. That covers `src/ui/badge.rs`, `src/ui/settings.rs`, SettingsWindow.tsx, ContextMenu.tsx and main.tsx.
- `db::current_timestamp` and `Instant::elapsed` are inputs: each toggle takes one `now` for `current_timestamp` and one elapsed time for `start_time.elapsed()`. The code reads the latency at different points: the success arm before delivery (src-tauri/src/lib.rs:252), the failure arm after the notification (src-tauri/src/lib.rs:311). With one elapsed value per toggle the model does not tell these moments apart.
- Concurrency is reduced to a sequential model. The mutexes and the tokio and mpsc channels are gone, and so is `spawn_blocking`. The poll task and the three-second timers are separate inputs that a scheduler interleaves with toggles. `task.abort()` takes effect at once.
  - As a result the model does not show a level that was already in flight when the poll task was aborted.
  - A `Start` sent without an answer is served before the next command, matching the worker's in-order queue.
- Orchestrator.AUDIO_FILE_NAME and JoinPath cover `PathBuf::join` for relative names on Unix only. Absolute names and other platforms' separators are not modelled.
- Stop failure: a failed stop logs no session (src-tauri/src/lib.rs:327-335), and the model follows the code.
- `avg_words` and the minute formatting of both statistics windows use floating point, and are not modelled.
- SQL errors other than a failed INSERT and a u32 column that does not fit are not modelled. Rows are taken to be well typed.
- The duplicate copy `src/db.rs` is not part of this model; `src-tauri/src/db.rs` covers it.
- SessionStore.Database.GetRecentSessions is weaker than a fixed order: SQL leaves the order of equal `started_at` values open. The contract states only the order, the size and the rows drawn, not which of two rows with the same start time comes first.
- StatsView.DaysToDate requires `days_since_epoch + 719468` to fit in i64, where the Rust code would overflow. `format_timestamp` always meets this.
- StatsView.FormatTimestampLayout and StatsView.FormatTimestampInjective cover timestamps from 1970 to the end of 9999. Before 1970 the Rust code prints negative time fields, and from 10000 on the year has five digits; FormatTimestamp models both, but no layout is stated for them.
- A failure to open or create `voiceclip.db` panics at launch (src-tauri/src/lib.rs:112) and is not modelled; the constructors start from a table that satisfies the id invariant.
- Orchestrator.TranscriptionSuccessTrace and Orchestrator.TranscriptionFailureTrace require a poll handle to be held while recording, which the orchestrator's invariant gives.
- Orchestrator.SuccessRecord uses the exact `as u32` cast of `now - start`. It does not model the overflow check on the i64 subtraction.
- AudioWorker.Worker.Handle models a dead worker thread only through a panic while saving. Other panics in the capture code are not modelled.
