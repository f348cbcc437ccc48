# AppArmor log path: decoding, batched ingestion and checkpointed reading

This project models two sequential pieces of AppAnvil's audit-log path and
proves properties of them in Dafny.

**Logs tab controller** (`LogsController`):
- `format_log_data` strips quotes with the pattern `"(\S*)"`. It is modelled
  as a leftmost-longest search. The first quote that opens a match is used,
  and the match extends to the furthest closing quote reachable through
  non-whitespace.
- `add_row_from_json` maps one journal entry to the arguments of one
  `put_data` call. The entry is a map from field name to string, and a
  missing key reads as `""`.
- `std::stol`, `std::stoul`, `std::to_string` and C++'s truncating division
  are written out in `StdConv`.
- `add_data_to_record_helper` is the resumable step: at most 127 lines per
  call, one refresh per call that does not throw, and a result saying
  whether to run again.
- The Glib idle source that repeats the step is modelled as a loop
  (`AddDataToRecord`). Its meaning is the function `Drive`.
- 254 well-formed lines take three calls of the step and three refreshes,
  not two. After each full batch the step returns true, so a third call is
  needed to find the input exhausted (`TwoFullBatches`). The model follows
  the code here.
- `std::getline` line splitting is in `TextLines`. A final line without a
  newline still counts. A trailing newline adds no empty line. A stream at
  its end yields nothing more.

**Log reader** (`LogReader`):
- The constructor stores its sources with `emplace_front`, so they are kept
  in reverse order.
- `read_logs` drains every open file stream line by line and keeps the
  lines whose record is valid. It then calls `append_audit_logs`.
- `append_audit_logs` fetches the audit output for the held checkpoint.
  When no checkpoint is held, it takes the first output line as the new
  checkpoint. It then appends the valid records of the remaining lines.

Modules:
- `Wrappers`: Option and Result.
- `Seqs`: associativity of concatenation, and `ConcatMap` (a function applied to each element, the results concatenated), on which the reader's file records are built.
- `StdConv`: the number conversions.
- `TextLines`: getline splitting, and a string stream as the `LineStream` class.
- `LogEntry`: `format_log_data` and the entry-to-row mapping.
- `IdleLoop`: the batch step and its driver, over any row and failure type.
- `Controller`: the controller class.
- `Reader`: the reader class.

## Model

| member | source | states |
|---|---|---|
| LogEntry.FormatLogData | src/tabs/controller/logs_controller.cc:15-21 | The extracted text never contains whitespace. |
| LogEntry.FormatNoMatch | src/tabs/controller/logs_controller.cc:15-21 | When no quote-delimited whitespace-free run exists, the result is `""`. |
| LogEntry.FormatLeftmostLongest | src/tabs/controller/logs_controller.cc:17-20 | If `i` is the leftmost quote that opens a match and `k` its furthest closing quote, the result is exactly `data[i+1..k]`. |
| LogEntry.FormatQuoted | src/tabs/controller/logs_controller.cc:15-21 | For every whitespace-free `s`, unquoting `"` + s + `"` gives back `s`. |
| LogEntry.RowFromEntry | src/tabs/controller/logs_controller.cc:25-87 | A row is produced iff both `stol(timestamp)` and `stoul(pid)` succeed. A timestamp failure is reported first. The row's type is the unquoted `_AUDIT_FIELD_APPARMOR`, which has no whitespace. |
| LogEntry.EventFields | src/tabs/controller/logs_controller.cc:28-30 | For an entry holding a decimal timestamp, a quoted type and a decimal pid within range, `stol`, `stoul` and the unquoting read those values back. |
| LogEntry.StatusEntryDecodes | src/tabs/controller/logs_controller.cc:37-41 | A STATUS entry gives timestamp = micros / 1000000, name = the raw `_AUDIT_FIELD_NAME`, operation = the unquoted operation, status = the unquoted profile. |
| LogEntry.DeniedCapableDecodes | src/tabs/controller/logs_controller.cc:43-49 | A DENIED `capable` entry gives name = the unquoted profile and status = `"capname: " + CAPNAME + " capability: " + CAPABILITY`, built from the raw values. |
| LogEntry.DeniedMaskDecodes | src/tabs/controller/logs_controller.cc:43-53 | A DENIED entry with any other operation gives status = `"requested mask: " + unquote(REQUESTED_MASK) + " denied mask: " + unquote(DENIED_MASK)`. |
| LogEntry.UnknownTypeFallsBack | src/tabs/controller/logs_controller.cc:74-86 | Any other type is not rejected. It decodes exactly as a STATUS entry would, and its own unquoted type is passed on to `put_data`. |
| LogEntry.NonNumericFieldFails | src/tabs/controller/logs_controller.cc:28-86 | A timestamp or pid with no digit makes the entry fail. If the timestamp converts, the failure is `invalid_argument`. |
| StdConv.Stol | src/tabs/controller/logs_controller.cc:28 | A result lies in the `long` range. `invalid_argument` is raised exactly when no numeral follows the leading whitespace. |
| StdConv.Stoul | src/tabs/controller/logs_controller.cc:85 | A result lies in the `unsigned long` range. `invalid_argument` is raised exactly when no numeral follows the leading whitespace. |
| StdConv.TruncDiv | src/tabs/controller/logs_controller.cc:28 | Division rounds toward zero. The remainder has the sign of the dividend and is smaller than the divisor in magnitude. |
| StdConv.ToDecimal | src/tabs/controller/logs_controller.cc:141 | `std::to_string` of a count: a non-empty digit string with no leading zero whose value is the count. |
| StdConv.NonNumericRejected | src/tabs/controller/logs_controller.cc:28-85 | A string with no digit makes both `stol` and `stoul` raise `invalid_argument`. |
| StdConv.ScanDecimal | src/tabs/controller/logs_controller.cc:28-85 | Leading whitespace, a decimal numeral, then a non-digit: the scanner reads exactly that numeral's value. |
| StdConv.StolOfDecimal | src/tabs/controller/logs_controller.cc:28 | `stol(to_string(n)) == n` for every `n` in the `long` range. |
| StdConv.StoulOfDecimal | src/tabs/controller/logs_controller.cc:85 | `stoul(to_string(n)) == n` for every `n` in the `unsigned long` range. |
| TextLines.GetLine | src/tabs/controller/logs_controller.cc:113 | `getline` fails exactly at the end of the data. Otherwise it advances the position by at least one character. |
| TextLines.GetLineContents | src/tabs/controller/logs_controller.cc:113 | The line read is the text up to the next `'\n'` or the end, without the `'\n'`. The position moves past the terminator. |
| TextLines.ReadLineAt | src/threads/log_reader.cc:20 | One `getline` on a file stream agrees with `GetLine`. On failure it returns `""` and leaves the position unchanged. |
| TextLines.LineStream.constructor | src/tabs/controller/logs_controller.cc:93 | A string stream over `data` has `Lines(data)` left to deliver. |
| TextLines.LineStream.ReadLine | src/tabs/controller/logs_controller.cc:113 | Succeeds iff a line is pending. It delivers the first pending line and removes it. On failure it delivers `""` and nothing is left. |
| TextLines.LinesNewlineFree | src/tabs/controller/logs_controller.cc:113 | No line delivered by `getline` contains `'\n'`. |
| TextLines.LinesCons | src/threads/log_reader.cc:39 | A line followed by `'\n'` is delivered first, ahead of the lines of the rest. |
| TextLines.LinesOfJoin | src/tabs/controller/logs_controller.cc:113 | Newline-free lines, each terminated by `'\n'`, split back into exactly those lines. A trailing newline adds no empty line. |
| TextLines.LinesUnterminated | src/tabs/controller/logs_controller.cc:113 | A final non-empty line without `'\n'` is still delivered as a line. |
| TextLines.JoinOfLines | src/tabs/controller/logs_controller.cc:113 | Re-terminating the delivered lines gives back the data, plus one `'\n'` exactly when the data does not already end in one. Nothing is lost. |
| TextLines.LinesFromShift | src/threads/log_reader.cc:20 | Reading from a position in a longer text yields the same lines as reading the suffix alone. |
| IdleLoop.Step | src/tabs/controller/logs_controller.cc:110-133 | A step consumes no more lines than it has. It asks to run again only after a full budget of lines. |
| IdleLoop.StepHead | src/tabs/controller/logs_controller.cc:112-128 | One loop iteration: exhausted input ends the step with Done. A failing line throws after being consumed. A good line is sent, and the rest of the budget follows. |
| IdleLoop.StepSpec | src/tabs/controller/logs_controller.cc:110-133 | The rows sent are the decodings of the lines read, in input order. Throw: the last line read is the failing one. Done: all lines were read and fewer than the budget. Again: exactly the budget was read. |
| IdleLoop.StepWellFormed | src/tabs/controller/logs_controller.cc:110-133 | On well-formed input, a step sends 127 rows and continues, or sends every remaining row and stops. |
| IdleLoop.StepMalformed | src/tabs/controller/logs_controller.cc:121-128 | A step that reaches a failing line throws there, after sending the rows of the earlier lines of its batch. |
| IdleLoop.DecodeAll | src/tabs/controller/logs_controller.cc:128 | One row per line, and row k is the decoding of line k. |
| IdleLoop.DriveShape | src/tabs/controller/logs_controller.cc:110-133 | The driver calls the step at least once. It shows one label per call that does not throw, and it only appends rows. |
| IdleLoop.DriveLastLabel | src/tabs/controller/logs_controller.cc:113-133 | Without a failure, the last label shown is the refresh of the final adapter content. |
| IdleLoop.DriveWellFormed | src/tabs/controller/logs_controller.cc:110-133 | n well-formed lines take n / 127 + 1 calls and the same number of refreshes. They yield one row per line, in order, and no failure. |
| IdleLoop.DriveMalformed | src/tabs/controller/logs_controller.cc:121-128 | At the first failing line m, ingestion throws during call m / 127 + 1. That call shows no label, and the rows of lines 0..m-1 stay with the adapter. |
| Controller.ParseLine | src/tabs/controller/logs_controller.cc:121-123 | An empty line never parses. Any other line parses as the JSON reader decides. |
| Controller.RefreshLabel | src/tabs/controller/logs_controller.cc:141 | The label begins with a space and is longer than `" logs"`. |
| Controller.DecodeLine | src/tabs/controller/logs_controller.cc:121-128 | `invalid_argument` from JSON happens exactly when parsing fails. Otherwise the result is the row, or the conversion error, of `add_row_from_json`. |
| Controller.CallsCoverLines | src/tabs/controller/logs_controller.cc:110 | With 127-line batches, `c` calls just cover `n` lines exactly when `c == n / 127 + 1`. |
| Controller.TwoFullBatches | src/tabs/controller/logs_controller.cc:110-133 | 254 well-formed lines take three calls and three refreshes. The first two calls each send 127 rows and ask to run again. The third call reads no line, sends nothing and returns false. |
| Controller.RefreshLabelReadsBack | src/tabs/controller/logs_controller.cc:140-141 | The label carries the visible count modulo 2^32 (`uint`) in decimal, and `stol` reads it back. |
| Controller.EmptyLineThrows | src/tabs/controller/logs_controller.cc:121-125 | An empty line raises `invalid_argument`. |
| Controller.LogsController.constructor | src/tabs/controller/logs_controller.cc:145-149 | A controller with no rows and no labels, whose step decodes with the given parser and whose refresh shows the visible count. |
| Controller.LogsController.Refresh | src/tabs/controller/logs_controller.cc:138-142 | Appends exactly the label `" " + to_string(visible) + " logs"` and leaves the rows alone. |
| Controller.LogsController.AddRowFromJson | src/tabs/controller/logs_controller.cc:25-87 | Exactly one `put_data` of the decoded row, or none together with the conversion error. No label changes. |
| Controller.LogsController.ConsumeLine | src/tabs/controller/logs_controller.cc:112-128 | Reads one line if one is pending. Its row is sent, or its failure is reported with no row added. |
| Controller.LogsController.AddDataToRecordHelper | src/tabs/controller/logs_controller.cc:102-134 | The step agrees with `Step`: the same rows are appended and the same lines consumed. One refresh is shown unless the step threw. |
| Controller.LogsController.Pump | src/tabs/controller/logs_controller.cc:95-97 | One idle-time call peels exactly one call off `Drive`: its rows, its label, and what remains of the loop. |
| Controller.LogsController.AddDataToRecord | src/tabs/controller/logs_controller.cc:91-98 | Repeating the step until it returns false or throws gives exactly `Drive`'s rows, labels, call count and failure. |
| Reader.Open | src/threads/log_reader.cc:10 | An opened file holds its contents at position 0. A path that cannot be opened gives a closed stream. |
| Reader.Drained | src/threads/log_reader.cc:20 | A drained file has no pending lines and keeps its open/closed state. |
| Reader.Keep | src/threads/log_reader.cc:21-25 | The records never outnumber the lines. |
| Reader.Stored | src/threads/log_reader.cc:7-12 | One stream per source, each with a valid position. |
| Reader.StoredReversed | src/threads/log_reader.cc:9-10 | Stored stream k is source `n - 1 - k`: the order given is reversed. |
| Reader.LastSourceReadFirst | src/threads/log_reader.cc:7-20 | The last source listed is read first, ahead of all the others. |
| Reader.KeepAppend | src/threads/log_reader.cc:19-27 | Filtering commutes with concatenation, so each source keeps its own line order. |
| Reader.KeepExactlyValid | src/threads/log_reader.cc:21-24 | A record is kept exactly when its line is among the lines and is valid. |
| Reader.FileRecordsAppend | src/threads/log_reader.cc:19-27 | The file records of a run of streams are those of each stream, in stored order. |
| Reader.OpenedDeliversAll | src/threads/log_reader.cc:10-20 | A freshly opened file has all of its `getline` lines still to deliver, so `read_logs` reads every line. |
| Reader.UnopenedGivesNothing | src/threads/log_reader.cc:20 | A stream that is not open contributes no records. |
| Reader.DrainedFilesGiveNothing | src/threads/log_reader.cc:20 | Streams read to their end contribute no records. |
| Reader.NextReadGetsNoFileRecords | src/threads/log_reader.cc:19-20 | After `read_logs`, the next call gets no file records, because streams are never rewound. So each file line is delivered at most once. |
| Reader.FirstLineBecomesCheckpoint | src/threads/log_reader.cc:38-40 | With no checkpoint, the first output line becomes the checkpoint and is not a candidate record. This holds whether that line ends in `'\n'` or is the whole output without one. |
| Reader.CheckpointKept | src/threads/log_reader.cc:35-49 | A held checkpoint stays unchanged, and every output line is a candidate record. |
| Reader.CheckpointNeverOverwritten | src/threads/log_reader.cc:38 | Once a non-empty checkpoint is set, a later call on any output keeps it. |
| Reader.EmptyOutputChangesNothing | src/threads/log_reader.cc:38-43 | No checkpoint and empty output: the checkpoint stays empty and nothing is appended. |
| Reader.EmptyFirstLineKeepsCheckpointUnset | src/threads/log_reader.cc:38-40 | An empty first output line leaves the checkpoint empty, so the next call takes a line again. |
| Reader.LogReader.constructor | src/threads/log_reader.cc:7-12 | The streams are `Stored(sources)`, the sources reversed. The checkpoint starts empty. |
| Reader.LogReader.ReadFile | src/threads/log_reader.cc:20-26 | The `getline` loop on one stream gives the valid records of its pending lines, in order, and leaves the stream at its end. |
| Reader.LogReader.ReadLogs | src/threads/log_reader.cc:14-31 | The result is the file records (first stored stream first), then the audit records. Every stream is left drained, and the checkpoint is as `append_audit_logs` sets it. |
| Reader.LogReader.AppendAuditLogs | src/threads/log_reader.cc:33-50 | Only appends: the list given is a prefix of the result, followed by the valid records of the output lines left after the checkpoint. The checkpoint is set only when it was empty. |
| Reader.LogReader.ReadStream | src/threads/log_reader.cc:42-49 | The `getline` loop over the output gives the valid records of every pending line and empties the stream. |

## Left out

- The JsonCpp reader is abstracted as a function from a non-empty line to an optional entry (`JsonParser`). Its grammar and error texts (`errs`) are not modelled.
- The general `std::regex` engine is not modelled. Only the one pattern `"(\S*)"` is, as a leftmost-longest search.
- `std::cerr` output for an unknown event type (logs_controller.cc:75) is not modelled. It has no effect on the row.
- `filter_rows` is abstracted as the function `visibleCount` of the adapter's content.
- The adapter, the database and the view appear only through the rows they receive and the labels they are given.
- Glib idle scheduling (logs_controller.cc:93-97) is replaced by a loop that calls the step until it returns false or throws. Interleaving with other idle sources is not modelled. Neither are two `add_data_to_record` calls running concurrently, nor what Glib does with an exception thrown from an idle callback.
- The production constructor's signal wiring (logs_controller.cc:153-163) is not modelled.
- JsonCpp's `LogicError` is not modelled. `Entry` is a flat map from field name to string, so a line that parses to a non-object document (such as `42` or `[1]`) is outside the model. So is a field whose value is an array or an object, which `journalctl -o json` writes for repeated or non-UTF-8 fields. On such input `entry[...]` or `asString()` throws `Json::LogicError` and the step aborts. `Failure` has no constructor for that exception, because the parser abstraction only yields an entry or a parse failure.
- `CommandCaller::get_logs` is an oracle: a function from the checkpoint to the output text. The subprocess behind it is not part of this model.
- `LogRecord` construction and `LogRecord::valid` are abstracted: a record holds its line, and validity is a predicate on the line.
- Records are values, not shared pointers, so aliasing between lists is not modelled.
- A file source is a snapshot of the file's contents plus a read position. Opening a path is given as an optional content, and growth of a file between calls is not modelled.
- The string stream of `add_data_to_record` is modelled as the queue of lines `getline` will deliver (`LineStream`). The splitting itself is modelled and proved in `TextLines`.
- `time_t` and `uint` widths: timestamps stay within `long`. The visible count is taken modulo 2^32. The step counter `uint i` never exceeds 127.
