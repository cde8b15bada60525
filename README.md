# Log analyzer core, modelled in Dafny

The analyzer in `Automated_log_analyzer/log_analyzer.py` runs in cycles. Each cycle
tails a set of local and remote (SFTP) log files from where the previous cycle
stopped. It classifies every new line against an ordered registry of regular
expressions, one list per category, and stores each matched line as an event.
It then adds up the cycle's counts per category, keeping at most five examples
of each. At most one alert goes out per cycle, with one line for each category
whose count reached its threshold.

This project models that core and proves properties of it:

- `LogTypes`: the shared vocabulary.
  - source identities `(host, path)`, checkpoints `(offset, mtime)` and events;
  - the three hard-coded counter keys `FAILED_LOGIN`, `CRASH`, `SUSPICIOUS`;
  - the cap of five samples per category.
- `Lines`: how the unread part of a file is cut into the lines that iterating
  over an open file yields, and `str.strip()`.
- `Classifier`: the registry and first-match classification. Categories are
  tried in configured order, then each category's patterns in order. The regex
  search is a function-valued field `matches(pattern, line)` of the registry.
- `Tailer`: the resume-offset rule, one tail read, and the resume-correctness
  theorem over a run of cycles.
- `CheckpointStore`: the file, checkpoint and event tables as a class with
  in-memory maps (`upsert_file_id`, `get_checkpoint`, `update_checkpoint`, the
  event insert).
- `FileScan`: the tail-and-classify loop and the per-file tallies, plus
  `scan_local_file` and `scan_remote_file` over the store. Both are proved
  against one specification function, `ScanSpec`, of the stored checkpoint and
  the file.
- `Alert`: the trigger decision and the chosen lines of `alert_if_needed`.
- `Cycle`: `scan_once`. Its loops run over the store and are proved against
  `RunCycle`, a function that threads the checkpoints, the summary and the
  stored events through the cycle's scans. The aggregation and alert
  theorems are stated about `RunCycle`.

Points worth noting about the code:

- A category without a configured threshold uses the default 999999, so it
  fires only from a count of 999999 on.
- The counter dictionaries are created with the three names above. A line
  classified into any other configured category raises `KeyError` at
  `counts[category] += 1`.
  - In the local scan, the error reaches `scan_once`, which skips the source.
  - In the remote scan, the surrounding `try` turns it into `(0, [], {}, {})`.
  - In both cases no event is stored and the checkpoint is not advanced. The
    model treats this as a scan failure (`FileScan.Counted`).
- The per-file samples hold the source's `(host, path)` once for each of the
  first five events of a category, repeated.

## Model

| member | source | states |
|---|---|---|
| Lines.SplitLines | Automated_log_analyzer/log_analyzer.py:352 | the lines glue back to exactly the unread text, in order; each is non-empty, has a newline at most as its last character, and all but the last end with one |
| Lines.StripTrims | Automated_log_analyzer/log_analyzer.py:359 | the stored text is the infix left after cutting whitespace off both ends, and it neither starts nor ends with whitespace |
| Lines.StripCutsSeparators | Automated_log_analyzer/log_analyzer.py:359 | the file, group, record and unit separators U+001C to U+001F are cut off both ends like the other whitespace |
| Lines.StripUnique | Automated_log_analyzer/log_analyzer.py:359 | any infix of the line with only whitespace outside it that neither starts nor ends with whitespace is exactly what Strip keeps |
| Lines.Strip | Automated_log_analyzer/log_analyzer.py:359 | the stored text is never longer than the line; StripTrims and StripUnique fix its exact value |
| Lines.StripLeadingSpace | Automated_log_analyzer/log_analyzer.py:359 | for every string and every whitespace character, putting it in front does not change the stripped text |
| Lines.StripTrailingSpace | Automated_log_analyzer/log_analyzer.py:359 | for every string and every whitespace character, putting it after the end does not change the stripped text |
| Tailer.ResumeOffset | Automated_log_analyzer/log_analyzer.py:344 | the start is the stored offset exactly when the mtime has not gone back and the file has not shrunk below it, 0 otherwise, and always within the file |
| Tailer.TailRead | Automated_log_analyzer/log_analyzer.py:344-366 | the lines read are exactly the content from the resume offset to the end; the new checkpoint is (end of file, current mtime); after a rotation the whole content is read |
| Tailer.NoGrowthReadsNothing | Automated_log_analyzer/log_analyzer.py:344-375 | a file unchanged since its checkpoint yields no line and the same checkpoint back |
| Tailer.ResumeReadsEachByteOnce | Automated_log_analyzer/log_analyzer.py:344-375 | over any run of cycles on an append-only file, the cycles together read every byte after the checkpoint exactly once, in order |
| Tailer.FirstSightingReadsWholeFile | Automated_log_analyzer/log_analyzer.py:202-208 | from the default checkpoint (0, 0) the cycles together read the whole file |
| Classifier.FirstHit | Automated_log_analyzer/log_analyzer.py:352-365 | the winning (category, pattern) position matches, and no earlier category and no earlier pattern of its category does; there is none exactly when nothing matches |
| Classifier.Classify | Automated_log_analyzer/log_analyzer.py:352-365 | a line gets no category exactly when no pattern matches; otherwise it gets the category and pattern text of the first hit |
| Classifier.FirstHitUnique | Automated_log_analyzer/log_analyzer.py:352-365 | the first hit is unique, so classification is deterministic |
| Classifier.EarlierCategoryWins | Automated_log_analyzer/log_analyzer.py:354-365 | a line matching a pattern of category a is never given a later category b, even if it also matches b |
| Classifier.ClassifyLine | Automated_log_analyzer/log_analyzer.py:352-365 | the nested loop with its two breaks computes exactly the first-hit classification |
| CheckpointStore.Store.UpsertFileId | Automated_log_analyzer/log_analyzer.py:192-199 | the same (host, path) always gets the same id; a new source gets a fresh id; no checkpoint or event changes |
| CheckpointStore.Store.GetCheckpoint | Automated_log_analyzer/log_analyzer.py:202-208 | returns the stored row, or (0, 0) after recording that default row; no source's reported checkpoint changes |
| CheckpointStore.Store.UpdateCheckpoint | Automated_log_analyzer/log_analyzer.py:211-216 | the id's row becomes (offset, mtime), inserted or overwritten; every other source keeps its checkpoint |
| CheckpointStore.Store.AppendEvents | Automated_log_analyzer/log_analyzer.py:368-372 | the events are appended to the event table, and nothing else changes |
| CheckpointStore.UpdateThenGet | Automated_log_analyzer/log_analyzer.py:192-216 | after update_checkpoint(id, o, m), get_checkpoint of the same source returns (o, m) and another source's checkpoint is unchanged |
| FileScan.EventsOf | Automated_log_analyzer/log_analyzer.py:352-365 | the events of a run of lines are at most one per line, each from this source and with a registry category |
| FileScan.ScanSpec | Automated_log_analyzer/log_analyzer.py:336-376 | the effect of one scan; a scan that raises is a local one and writes no checkpoint |
| FileScan.EventsOfOneLine | Automated_log_analyzer/log_analyzer.py:352-365 | each line yields at most one event, carrying its first-match category and pattern and the stripped text, and an unmatched line yields none |
| FileScan.EventsOfAppend | Automated_log_analyzer/log_analyzer.py:352-365 | the events of two runs of lines are those of the first followed by those of the second |
| FileScan.ScanLines | Automated_log_analyzer/log_analyzer.py:346-365 | the loop finishes exactly when every event has a counter key, and then returns the events of the lines in order, the per-category counts and the first five sources per category; otherwise it stops with KeyError |
| FileScan.ScanLine | Automated_log_analyzer/log_analyzer.py:353-363 | one iteration keeps events, counts and samples equal to those of the lines so far, or stops on a category without a counter, which the whole run of lines then contains |
| FileScan.OpenSource | Automated_log_analyzer/log_analyzer.py:333-334 | the source gets its file id and its checkpoint is read; no reported checkpoint and no stored event changes (the remote scan does the same at 424-425) |
| FileScan.TallySnoc | Automated_log_analyzer/log_analyzer.py:360-362 | one more event raises its category's counter by one and adds its source to the samples only while fewer than five are kept |
| FileScan.CountsSumToEvents | Automated_log_analyzer/log_analyzer.py:359-360 | with distinct category names covering every event, the per-category counts add up to the number of events |
| FileScan.ScanCountsConsistent | Automated_log_analyzer/log_analyzer.py:346-376 | a returned tuple has found == number of events, counts agreeing with the events and adding up to found, and for each category samples that are this source, once for each of its first min(5, count) events |
| FileScan.FailedSourceLeavesNoTrace | Automated_log_analyzer/log_analyzer.py:336-341 | a stat or read failure writes no checkpoint and either raises or returns (0, [], {}, {}); a missing file, or any remote failure, returns (0, [], {}, {}) |
| FileScan.ReadableSourceAdvances | Automated_log_analyzer/log_analyzer.py:344-376 | a readable file's checkpoint moves to (end of file, mtime) exactly when every event has a counter key; otherwise the local scan raises, the remote one returns (0, [], {}, {}), and nothing is written |
| FileScan.CountedRegistryNeverFails | Automated_log_analyzer/log_analyzer.py:347-360 | when every configured category is one of the counter keys, a readable file is always read to its end and its checkpoint advanced |
| FileScan.NoGrowthScanIsNoOp | Automated_log_analyzer/log_analyzer.py:344-376 | a file that has not grown and whose mtime is unchanged gives zero events, zero counts and empty samples, and its checkpoint is written back unchanged |
| FileScan.RotationRescansWholeFile | Automated_log_analyzer/log_analyzer.py:343-344 | after a truncation or an mtime going back, the scan classifies the whole current content |
| FileScan.ReadAndRecord | Automated_log_analyzer/log_analyzer.py:344-376 | after a successful loop the events are appended and the checkpoint set to (end of file, mtime), leaving other sources alone; after a KeyError nothing is stored |
| FileScan.ScanLocalFile | Automated_log_analyzer/log_analyzer.py:324-376 | the outcome, the new checkpoints and the appended events are those of the scan specification for host "localhost" |
| FileScan.ScanRemoteFile | Automated_log_analyzer/log_analyzer.py:423-477 | the outcome, the new checkpoints and the appended events are those of the scan specification for a remote host, where every failure returns (0, [], {}, {}) |
| Alert.ExamplesFor | Automated_log_analyzer/log_analyzer.py:291 | at most five examples are shown per category |
| Alert.AlertLines | Automated_log_analyzer/log_analyzer.py:286-292 | at most one line per counter visited; which lines and in what order is fixed by the three lemmas below |
| Alert.AlertLinesExactly | Automated_log_analyzer/log_analyzer.py:286-292 | each alert line is a counter that reached its threshold (count >= threshold, inclusive), with its count, threshold and first five examples; every such counter has a line |
| Alert.AlertLinesInCounterOrder | Automated_log_analyzer/log_analyzer.py:287-292 | the lines chosen from the first i counters are a prefix of all the lines, so the lines follow counter order |
| Alert.AlertLinesOnePerCounter | Automated_log_analyzer/log_analyzer.py:287-292 | when each counter is listed once, no two alert lines share a category |
| Alert.NoAlertWhenNothingExceeds | Automated_log_analyzer/log_analyzer.py:286-295 | there is no alert line exactly when no counter reached its threshold |
| Alert.UnconfiguredThreshold | Automated_log_analyzer/log_analyzer.py:288 | a category with no configured threshold fires only from a count of 999999 on |
| Alert.AlertIfNeeded | Automated_log_analyzer/log_analyzer.py:282-295 | the loop computes exactly the alert lines; the trigger is set exactly when some counter reached its threshold, that is, when there is a line |
| Cycle.LocalTargetsInOrder | Automated_log_analyzer/log_analyzer.py:492-496 | the local scans are one per listed file, in list order, on host "localhost" |
| Cycle.Targets | Automated_log_analyzer/log_analyzer.py:492-517 | the local scans come first, one per file when the mode is local or mixed, none otherwise; then the remote scans, one per path of each connected host when the mode is remote or mixed, none otherwise |
| Cycle.RemoteTargets | Automated_log_analyzer/log_analyzer.py:508-517 | exactly one scan per configured path of each host whose connection succeeded |
| Cycle.InitialSummary | Automated_log_analyzer/log_analyzer.py:486-488 | the total starts at 0 and every counter key starts at count 0 with no samples, with no other key |
| Cycle.HostTargetsInOrder | Automated_log_analyzer/log_analyzer.py:515-517 | the scans of a host are one per configured path, in order, under the host's label |
| Cycle.RemoteTargetsSkipUnconnected | Automated_log_analyzer/log_analyzer.py:508-517 | every remote scan belongs to a host whose connection succeeded; a host that could not be reached contributes no scan |
| Cycle.RemoteTargetsAppend | Automated_log_analyzer/log_analyzer.py:509-517 | the hosts are visited in list order: the scans of two runs of hosts are those of the first followed by those of the second |
| Cycle.UnconnectedHostAddsNothing | Automated_log_analyzer/log_analyzer.py:510-514 | a host whose session could not be set up, wherever it stands in the list, contributes no scan: removing it leaves the remote scans unchanged |
| Cycle.TopUp | Automated_log_analyzer/log_analyzer.py:501-503 | topping up only appends to the kept samples, never beyond five |
| Cycle.TopUpLoop | Automated_log_analyzer/log_analyzer.py:501-503 | the inner sample loop appends offered samples while fewer than five are kept |
| Cycle.TopUpIsTake | Automated_log_analyzer/log_analyzer.py:500-503 | topping up keeps exactly the first five of the kept samples followed by the offered ones |
| Cycle.TopUpOfTake | Automated_log_analyzer/log_analyzer.py:500-503 | topping up from capped lists keeps the first five of the whole concatenation |
| Cycle.AbsorbedOnlyGrows | Automated_log_analyzer/log_analyzer.py:498-503 | folding in a file keeps the keys; the counters never decrease; the cross-file samples only grow by appending and stay at most five |
| Cycle.Absorbed | Automated_log_analyzer/log_analyzer.py:497-503 | folding in a file's tuple adds its found count to the total and keeps the summary's keys |
| Cycle.NothingAbsorbsNothing | Automated_log_analyzer/log_analyzer.py:496-503 | folding in (0, [], {}, {}) changes neither counts nor samples |
| Cycle.Absorb | Automated_log_analyzer/log_analyzer.py:497-503 | the merge loop adds the file's count to every counter and tops up every category's samples from the file's |
| Cycle.FailedSourceChangesNothing | Automated_log_analyzer/log_analyzer.py:494-505 | an unavailable source leaves the cycle's checkpoints, counts, samples and stored events as they were |
| Cycle.ApplyAccounts | Automated_log_analyzer/log_analyzer.py:495-505 | merging a returned consistent tuple, or skipping a raising source, keeps the summary equal to the tallies of the stored events |
| Cycle.RunCycle | Automated_log_analyzer/log_analyzer.py:490-525 | the reference definition of a cycle: the targets are scanned in order, each from the checkpoints and summary the earlier scans left; a scan only ever appends to the stored events |
| Cycle.RunCycleAccounts | Automated_log_analyzer/log_analyzer.py:490-525 | across any sequence of scans the summary keeps agreeing with the stored events |
| Cycle.StoredCategorized | Automated_log_analyzer/log_analyzer.py:490-525 | every event a cycle stores has one of the counter categories |
| Cycle.CycleAccounts | Automated_log_analyzer/log_analyzer.py:486-525 | the cycle's total is the number of events stored by the sources that did not raise; each counter is their number of events of its category; the counters add up to the total; each category's samples are the sources of its first five stored events, across files, in scan order |
| Cycle.CycleAlert | Automated_log_analyzer/log_analyzer.py:486-528 | each alert line of a cycle reports the number of stored events of its category, reached its threshold, and shows the sources of the first five of them; there is no line exactly when every counter is below its threshold |
| Cycle.ScanSources | Automated_log_analyzer/log_analyzer.py:490-525 | after the local and remote loops, the store's checkpoints and events and the summary are those of the cycle function |
| Cycle.ScanLocalFiles | Automated_log_analyzer/log_analyzer.py:492-505 | the local loop scans each file in order and keeps the store and summary in step with the cycle function |
| Cycle.ScanRemoteHosts | Automated_log_analyzer/log_analyzer.py:508-525 | the remote loop skips a host whose connection failed and scans the paths of every other host in order, in step with the cycle function |
| Cycle.ScanHost | Automated_log_analyzer/log_analyzer.py:515-525 | the paths of one connected host are scanned in order, in step with the cycle function |
| Cycle.ScanTarget | Automated_log_analyzer/log_analyzer.py:496-517 | a target is scanned by the local or the remote scan according to its kind, as the scan specification says |
| Cycle.ScanStep | Automated_log_analyzer/log_analyzer.py:494-505 | one scan inside the try block: a returned tuple is merged, a raised error skips the source, and store and summary stay in step with the cycle function |
| Cycle.ScanOnce | Automated_log_analyzer/log_analyzer.py:484-528 | the cycle leaves the store's events and checkpoints as the cycle function says; its summary accounts for the stored events; the alert lines and trigger are those of alert_if_needed on the cycle's counters and samples |

## Left out

- SQLite and CSV: the DDL, the SQL text, WAL, VACUUM and `append_csv` are not modelled. The tables are maps and a sequence in memory. A failing database or CSV write is not modelled.
- SSH and SFTP: the session cache and paramiko are not modelled. Whether a host's session could be set up this cycle is the `connected` flag of `Cycle.RemoteHost`. In `scan_remote_file` only an `IOError` from `sftp.stat` is caught. Any other error there, such as a dropped session, escapes to the `try` of `scan_once`, which skips the source. `FileScan.ScanSpec` returns `(0, [], {}, {})` for every remote failure instead. The cycle cannot tell the two apart: both store no event, write no checkpoint and add nothing to the summary.
- File-system discovery: `expand_local_paths` (walking, globbing, existence filtering) is not modelled. The local files come in as an ordered list.
- Text decoding: UTF-8 decoding with ignored errors is absent. Offsets are positions in `content` for both scans. For the local scan, the text-mode `tell()` cookie (log_analyzer.py:366) is taken to be the content length. For the remote scan, paramiko's `f.tell()` (log_analyzer.py:456) is a byte position, taken to be the content length too. `stat` and the read are taken to see the same snapshot, so there is no race between them.
- Regex matching: `pat.search(line)` is the abstract `matches` function of the registry. The configured patterns are not encoded. Case-insensitive compilation is assumed to be part of `matches`.
- Lines.SplitLines: universal-newline translation of `\r` and `\r\n` is not modelled; lines are split on `\n` only.
- Lines.StripTrims: the whitespace stripped is the ASCII set `str.strip()` uses (space, tab, line feed, vertical tab, form feed, carriage return, and U+001C to U+001F). The non-ASCII whitespace it also removes, such as U+0085, U+00A0 and U+2028, is kept.
- Console output: the `print` of the scanning banner, the `[WARN]` lines for failed scans and connections, and the per-cycle summary line is not modelled.
- Floats and clocks: mtimes are integers, since only `>=` is used on them. The UTC timestamp of each event row is not modelled.
- Alert formatting and delivery: only the chosen lines and the trigger are modelled. The subject, the body text, `send_email` and `send_slack` are not.
- Scheduling and startup: the schedule loop, `main`, the daily database maintenance and building `CONFIG` are not modelled. Patterns and thresholds are parameters.
- Cycle.CycleAccounts: "aggregate counts equal the sum of the per-file counts of the sources that did not raise" is stated through the events those sources stored. Each per-file count is the count of that file's events (`FileScan.ScanCountsConsistent`), so the two statements agree.
