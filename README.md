# Ingram scanner core, in Dafny

Ingram is a network vulnerability scanner for webcams and similar devices.
Its `Core` class runs the scan and reports on it. This project models three
parts of `Ingram/core.py`:

- **`Core._scan(target)`**: the scan of one target. It parses `ip` or
  `ip:port` and picks the port list. For each port in order it probes and
  fingerprints, then runs every PoC registered for the product, in order and
  without stopping at the first success. It updates the shared progress store
  (`found`, the vulnerable and not-vulnerable logs, `done`, the running-state
  checkpoint) and the snapshot queue. This is modelled imperatively as class
  `Scan.Core`, with classes `Scan.Data` and `Scan.SnapshotPipeline` for the
  store and the queue. Their logs are `seq` fields.
- **`Core.finish()`**: the completion predicate, `Scan.Core.Finish`.
- **`Core.report()`**: groups the records of the results file by device and
  vulnerability name, counts them, and scales histogram bars. It is modelled
  as pure functions over the file's lines (`Report.ReportOf`, which reads
  the records with `Report.Items` and reports on them with
  `Report.ReportOfItems`), plus the counting loop as methods
  (`Report.Report`, `Report.CountRecords`). The
  result is returned as data instead of being printed.

The network collaborators are passed in as function values of datatype
`Scan.Probe`: `port_scan`, `fingerprint` and each PoC's `verify`. The PoC
registry `poc_dict[product]` is a function `string -> seq<Poc>`. A falsy
`fingerprint` is the empty string and a falsy `verify` result is the empty
sequence. Every general lemma is proved for all answers these functions can give; `Scan.OneFindingScenario` and `Scan.TwoFindingsOneTarget` fix particular answers.

The Python string operations used are modelled in `text.dfy`: `str.split`
with a one-character separator, `str.strip()` and `str(int)`.

Files:

- `wrappers.dfy`: `Option`.
- `seqs.dfy`: generic sequence facts.
- `text.dfy`: the string operations.
- `scan.dfy`: `_scan`, `finish` and the store.
- `report.dfy`: `report`.

## Model

| member | source | states |
|---|---|---|
| Text.Split | Ingram/core.py:64 | `str.split(sep)` gives at least one piece, and no piece contains the separator |
| Text.JoinSplit | Ingram/core.py:64 | joining the pieces of a split with the separator gives back the original text: nothing is lost |
| Text.SplitJoin | Ingram/core.py:36 | splitting a join of separator-free pieces gives back exactly those pieces |
| Text.SplitFirst | Ingram/core.py:64-65 | the first piece is the text before the first separator (the whole text when there is none); when there is one, the remaining pieces are the split of the text after it |
| Text.Strip | Ingram/core.py:36 | `strip()` is a slice of the text with only whitespace before and after it; it is empty exactly when every character is whitespace, and otherwise starts and ends with non-whitespace |
| Text.StripEmpty | Ingram/core.py:36 | `strip()` is empty exactly when every character is whitespace |
| Text.StripTrimmed | Ingram/core.py:36 | `strip()` is the slice after the leading whitespace and before the trailing whitespace |
| Text.StripEnds | Ingram/core.py:36 | a non-empty `strip()` starts and ends with non-whitespace |
| Text.Decimal | Ingram/core.py:90 | reference definition of `str(n)`: an optional minus sign, then the decimal digits |
| Text.DecimalRoundTrip | Ingram/core.py:90 | `int(str(n)) == n` for every integer, `str(n)` holds no `:` or `,`, and a non-negative number has no leading zero |
| Scan.PortText | Ingram/core.py:90 | `str(port)` is the given text for an explicit port, and reads back as the number for a configured port |
| Scan.ParseTarget | Ingram/core.py:64-65 | `ip` is the `:`-free prefix before the first `:` (the whole target when there is none); a port is present exactly when the target has a `:`, and it is the text between the first `:` and the next `:` or the end |
| Scan.PortsOf | Ingram/core.py:66 | an explicit port gives the one-element list of that port; otherwise the configured ports, in their order |
| Scan.ParseIpPort | Ingram/core.py:64-66 | for a `:`-free address and port, `ip:port` parses back to exactly that address and port |
| Scan.Product | Ingram/core.py:72-75 | reference definition: the fingerprinted product of a port that `port_scan` finds open, or nothing |
| Scan.PocHits | Ingram/core.py:77-83 | reference definition: the PoCs of the list, in order, whose `verify` returns a non-empty result, with those results |
| Scan.PortHits | Ingram/core.py:72-83 | reference definition: the hits on one port, none unless it is open and fingerprinted |
| Scan.ScanHits | Ingram/core.py:71-83 | reference definition: the hits of a port list, port by port |
| Scan.PortNotVulnerable | Ingram/core.py:75-90 | reference definition: `[ip, str(port), product]` for an identified port without hits, else nothing |
| Scan.NotVulnerable | Ingram/core.py:71-90 | reference definition: the not-vulnerable records of a port list, port by port |
| Scan.TargetNotVulnerable | Ingram/core.py:64-90 | reference definition: the not-vulnerable records `_scan` writes for one target string |
| Scan.RunStep | Ingram/core.py:112-113 | scanning one more target appends exactly that target's hits and not-vulnerable records |
| Scan.TargetHits | Ingram/core.py:64-83 | reference definition: the hits `_scan` finds for one target string, over its parsed ports |
| Scan.RunHits | Ingram/core.py:112-113 | reference definition: the hits of the scan loop, target by target in feed order |
| Scan.RunNotVulnerable | Ingram/core.py:112-113 | reference definition: the not-vulnerable records of the scan loop, target by target in feed order |
| Scan.Truncate | Ingram/core.py:85 | `results[:6]` has length min(6, len(results)) and is a prefix of the results |
| Scan.VulnerableRecords | Ingram/core.py:85 | reference definition: the `add_vulnerable(results[:6])` records of a run of hits, one per hit, in order |
| Scan.SnapshotJobs | Ingram/core.py:87-88 | reference definition: the `(poc.exploit, results)` jobs `put` receives for a run of hits, one per hit, in order |
| Scan.ScanStep | Ingram/core.py:71 | scanning one more port appends exactly that port's hits and not-vulnerable record |
| Scan.PocStep | Ingram/core.py:79-81 | verifying one more PoC appends its hit, with its full results, when `verify` returns a non-empty result, and nothing otherwise |
| Scan.HitStep | Ingram/core.py:83-88 | one more hit appends one record, its truncated results, and one snapshot job, its PoC and full results |
| Scan.HitsEffectsAt | Ingram/core.py:85-88 | there is one record and one job per hit; record k is `results[:6]` of hit k and job k is `(poc, results)` of hit k |
| Scan.HitsEffectsAppend | Ingram/core.py:83-88 | the records and jobs of two runs of hits are those of the first run, then those of the second |
| Scan.PocHitsAppend | Ingram/core.py:79-83 | the PoC loop does not stop at a success: the hits of a list are the hits of its first part, then those of the rest |
| Scan.ScanHitsAppend | Ingram/core.py:71-90 | the hits and not-vulnerable records of a port list are those of its first part, then those of the rest (port order) |
| Scan.PocHitsMember | Ingram/core.py:79-81 | a hit on a port is exactly a PoC of the list whose `verify` returned a non-empty result, which the hit carries |
| Scan.PocHitsEmpty | Ingram/core.py:77-89 | a port has no hit (so `verified` stays false) exactly when no PoC of the list verifies |
| Scan.ScanHitsMember | Ingram/core.py:71-83 | a hit of a target is exactly an (open and fingerprinted port, registered PoC) pair whose `verify` is non-empty |
| Scan.NotVulnerableMember | Ingram/core.py:72-90 | a not-vulnerable record is exactly `[ip, str(port), product]` for a scanned port that is open and fingerprinted and on which no registered PoC verifies |
| Scan.QuietPorts | Ingram/core.py:72-90 | at most one not-vulnerable record per port; when no port is both open and fingerprinted, there are no hits and no records |
| Scan.SinglePocPort | Ingram/core.py:72-90 | an identified port whose product has one PoC that verifies gives exactly one hit and no not-vulnerable record |
| Scan.OneFindingScenario | Ingram/core.py:64-90 | for `10.0.0.1:80` with a `camera-x` product whose one PoC returns seven fields, only port 80 is scanned; it gives one hit and one six-field record, and no not-vulnerable record |
| Scan.TwoFindingsOneTarget | Ingram/core.py:79-83 | one target whose product has two verifying PoCs gives two hits; `found` counts PoCs, not targets |
| Scan.Data.constructor | Ingram/core.py:24 | the store starts from the given counters with empty logs |
| Scan.Data.AddFound | Ingram/core.py:83 | `found` grows by one |
| Scan.Data.AddDone | Ingram/core.py:91 | `done` grows by one |
| Scan.Data.AddVulnerable | Ingram/core.py:85 | the record is appended to the vulnerable log |
| Scan.Data.AddNotVulnerable | Ingram/core.py:90 | the record is appended to the not-vulnerable log |
| Scan.Data.RecordRunningState | Ingram/core.py:92 | one more running-state checkpoint |
| Scan.SnapshotPipeline.constructor | Ingram/core.py:25 | the queue starts empty |
| Scan.SnapshotPipeline.Put | Ingram/core.py:88 | the job is appended to the queue |
| Scan.Core.constructor | Ingram/core.py:22-26 | the core holds the configuration, the registry, and a fresh store (the given counters, empty logs, no checkpoint) and an empty queue |
| Scan.Core.Finish | Ingram/core.py:28-29 | `finish()` holds exactly when `done >= total` and the queue's task count is at most 0; this is the source's expression itself, and the property that uses it is the last ensures of `Scan.Core.ScanAll` |
| Scan.Core.VerifyPoc | Ingram/core.py:80-88 | one pass of the PoC loop: the effects of the PoC's own hits, so `verified` iff its result is non-empty, and then `found` + 1, its first six fields logged and, with snapshots enabled, `(exploit, results)` enqueued; nothing otherwise |
| Scan.Core.VerifyPocs | Ingram/core.py:77-88 | the PoC loop on one port: `verified` is true iff some PoC verified; `found` grows by the number of verifying PoCs; the log gets their truncated results in PoC order; the queue gets their jobs iff snapshots are enabled |
| Scan.Core.ScanPort | Ingram/core.py:72-90 | one port: the store and queue receive exactly that port's hits and its not-vulnerable record, if any |
| Scan.Core.ScanPorts | Ingram/core.py:71-90 | the port loop: `found`, both logs and the queue grow by exactly the effects of the target's hits, in port order and then PoC order |
| Scan.Core.ScanTarget | Ingram/core.py:59-92 | `_scan(target)`: the effects of its hits and not-vulnerable records, as above; `done` and the checkpoint count grow by exactly one whatever the collaborators answer; `total` is unchanged |
| Scan.Core.ScanAll | Ingram/core.py:112-113 | `_scan` on each target in feed order: `done` and the checkpoint count grow by the number of targets; `found`, both logs and the snapshot queue grow by exactly the effects of all targets' hits and not-vulnerable records, target by target; once every target is done, `finish()` depends only on the queue's task count |
| Report.Items | Ingram/core.py:36 | reference definition: one record per non-blank line, its stripped text split on `,`, in line order |
| Report.FindingOf | Ingram/core.py:41 | reference definition: a record's device (field 3 up to its first `-`) and its last field |
| Report.Findings | Ingram/core.py:40-41 | the `dev, vul` pair of every well-formed record: one per record, in record order, each that record's `FindingOf` |
| Report.VulCountOf | Ingram/core.py:42 | reference definition of `results[dev][vul]`: the count of the first entry with that name, or 0 as the inner `defaultdict` gives |
| Report.GroupOf | Ingram/core.py:48-49 | reference definition of `results[dev]`: the counts of the first group of that device, or none |
| Report.Total | Ingram/core.py:50 | reference definition of `dev_sum`: the sum of a device's counts |
| Report.Render | Ingram/core.py:43-54 | reference definition: the device blocks, `results_sum` and `results_max` of a tally |
| Report.ReportOfItems | Ingram/core.py:38-55 | reference definition: no report for no records, the error at the first short record, or the rendered tally |
| Report.ReportOf | Ingram/core.py:31-55 | reference definition: `report` on the lines of the file, the report of its records |
| Report.ItemsAppend | Ingram/core.py:36 | the records of a concatenation of lines are the records of each part, in order |
| Report.BlankLinesIgnored | Ingram/core.py:36 | a blank or all-whitespace line adds no record wherever it occurs; any other line adds exactly one, its stripped text split on `,` |
| Report.ItemsEmpty | Ingram/core.py:36-38 | there are no records exactly when every line is blank |
| Report.DeviceOf | Ingram/core.py:41 | the device is the `-`-free prefix of field 3 up to its first `-`, or the whole field when it has none |
| Report.Dedup | Ingram/core.py:48 | the first-occurrence order of dict keys: no repeats, same members |
| Report.BumpVul | Ingram/core.py:42 | `results[dev][vul] += 1` on one device keeps counts positive and adds one to the device total |
| Report.Bump | Ingram/core.py:42 | `results[dev][vul] += 1` keeps counts positive and adds one to the sum of device totals |
| Report.Tally | Ingram/core.py:39-42 | the counting loop: all counts are positive and they add up to the number of records |
| Report.BumpVulNames | Ingram/core.py:42 | a name already present keeps its place; a new name is added last |
| Report.BumpVulCount | Ingram/core.py:42 | the increment adds one to that name's count and changes no other |
| Report.BumpDevices | Ingram/core.py:42 | a device already present keeps its place; a new device is added last |
| Report.BumpGroup | Ingram/core.py:42 | the increment changes the counts of its own device only |
| Report.VulTallyNames | Ingram/core.py:42-49 | a device's names appear once each, in first-seen order |
| Report.VulTallyCount | Ingram/core.py:42 | each name's count is its number of occurrences |
| Report.TallyDevices | Ingram/core.py:42-48 | the devices appear once each, in first-seen order |
| Report.TallyGroup | Ingram/core.py:42 | each device's counts are the counts of that device's names alone |
| Report.VulsForCount | Ingram/core.py:41-42 | a device's names hold each name as often as the records hold that (device, name) pair |
| Report.GroupAt | Ingram/core.py:48-49 | with distinct devices, `results[dev]` finds each group at its own position |
| Report.CountAt | Ingram/core.py:49 | with distinct names, `results[dev][vul]` finds each count at its own position |
| Report.TallyDistinct | Ingram/core.py:39-49 | the tally has one group per device and one entry per name within a group |
| Report.TallyCount | Ingram/core.py:39-42 | each count equals the number of records with that device and that vulnerability name |
| Report.TallyComplete | Ingram/core.py:40-42 | every record is counted: its device has a group and its name an entry there |
| Report.MaxIn | Ingram/core.py:44 | the largest count of a device bounds all its counts and is attained (0 for none) |
| Report.MaxCount | Ingram/core.py:44 | `results_max` bounds every count and is attained by one of them, or is 0 when there are none |
| Report.Blocks | Ingram/core.py:53 | the bar has between 0 and 25 blocks, 25 exactly for the largest count, and is the floor of count * 25 / max |
| Report.RenderBars | Ingram/core.py:52-54 | one bar per name, in order, carrying that name, its count and its scaled length |
| Report.RenderDevices | Ingram/core.py:48-51 | one block per device, in order, carrying `dev_sum` and the device's bars |
| Report.FirstShort | Ingram/core.py:40-41 | the first record with fewer than three fields (where `i[2]` raises), or none exactly when all records are well formed |
| Report.FindingsStep | Ingram/core.py:40-41 | reading one more well-formed record adds its (device, name) last |
| Report.TallyStep | Ingram/core.py:40-42 | counting one more record is one more increment of the counts so far |
| Report.FirstShortAt | Ingram/core.py:40-41 | a short record after well-formed ones stops the report there |
| Report.WellFormedReport | Ingram/core.py:43-55 | with every record well formed, the report renders the tally of all records with `sum` = the number of records |
| Report.Report | Ingram/core.py:31-55 | `report` on the lines of the file computes `ReportOf(lines)`: nothing when every line is blank, the error at the first short record, otherwise the rendered tally whose properties the `Report*` lemmas state |
| Report.Aggregate | Ingram/core.py:38-55 | on the records: no report for none, the error at the first short record, or the rendered tally |
| Report.CountRecords | Ingram/core.py:39-42 | the counting loop stops at the first short record; otherwise it ends with the tally of all records |
| Report.BarsTotal | Ingram/core.py:50 | a device's printed total `dev_sum` is the sum of the counts on its bars |
| Report.DevicesTotal | Ingram/core.py:48-50 | the printed device totals add up to the sum of all counts |
| Report.NoRecordsIff | Ingram/core.py:36-38 | nothing is reported exactly when every line is blank |
| Report.MalformedIff | Ingram/core.py:40-41 | the report fails at record k exactly when k is the first record with fewer than three fields |
| Report.ReportTotals | Ingram/core.py:43-55 | with at least one record and all well formed, a report is printed; its `sum` is the number of records (one per non-blank line); the device totals add up to it; each device total is the sum of its bar counts |
| Report.ReportOrder | Ingram/core.py:39-49 | devices are printed once each in first-seen order, and within a device its vulnerability names once each in first-seen order |
| Report.ReportBars | Ingram/core.py:42-54 | each bar's count is the number of records of its device and name; it is positive and at most `results_max`; the bar has 0 to 25 blocks, and 25 exactly when its count is the maximum |
| Report.ReportComplete | Ingram/core.py:40-54 | every record appears: its device has a block and its vulnerability name a bar in it |
| Report.MaxAt | Ingram/core.py:44 | when there is a count, `results_max` is positive and held by some entry |
| Report.BarAt | Ingram/core.py:48-54 | each rendered bar is its entry's name and count, scaled against `results_max` |
| Report.ReportFullBar | Ingram/core.py:44-53 | `results_max` is never 0 in a report, and some bar has exactly 25 blocks |

## Left out

- File I/O: reading the results file (`os.path.exists`, `open`) is not modelled. `Report.Report` takes the file's lines as input.
- Printing and colouring: the report is returned as a `Report.Summary` instead of printed.
- Logging calls, the `@common.singleton` decorator and `Core.run`'s greenlets, pool and join timeouts are not modelled. Neither is its exception handling: this is concurrency and control plumbing.
- `Scan.Core.ScanAll` is the sequential reading of `run`'s scan loop: a pool of one task, targets in feed order. Interleavings of concurrent `_scan` calls are not modelled.
- `port_scan`, `fingerprint`, `poc.verify`, `poc.exploit` and `get_poc_dict` live in files that are not part of this model. They are parameters: any total function.
- `Scan.Core.VerifyPocs`: the registry is a total function returning a (possibly empty) list for every product. If `get_poc_dict`, which is not part of this model, returns a plain dictionary, `poc_dict[product]` raises `KeyError` for a product it lacks; that error path is not modelled.
- Exceptions raised by the collaborators are not modelled. `_scan` has no exception handler of its own, so such an exception would end the target before `add_done`; the model's collaborators always return.
- `Scan.Data` and `Scan.SnapshotPipeline` model only what `_scan` and `finish` touch: the counters, the two logs, a checkpoint count and the queued jobs. Persistence, the contents of `record_running_state` and the consumer `process` live in `Ingram/data.py`, which is not part of this model.
- `Scan.SnapshotPipeline.Put`: how `put` changes `task_count` is not visible in the core. `Put` promises nothing about it, so `Scan.Core.ScanAll` states `finish()` only in terms of whatever the task count is.
- `Scan.Port`: configured ports are assumed to be integers and an explicit port is the text after the `:`, as the code passes them. `str(port)` is modelled by `Text.Decimal`.
- `Report.Blocks`: `int(vul_count / results_max * 25)` is computed in floating point; the model uses the integer floor of `count * 25 / max`. The two agree for realistic counts: when `count * 25 / max` is a whole number k, the float quotient is the correctly rounded k/25 and multiplying back by 25 gives k; otherwise the exact value is at least 1/max from a whole number, far more than the rounding error. Floating point itself is not modelled.
- `Report.Report`: a `KeyboardInterrupt` or I/O error while reading is not modelled. A record with fewer than three fields makes `i[2]` raise `IndexError`; the model returns `Malformed` with the record's index, before anything is printed.

## Notes on the code

- Counting PoCs, not targets: `found <= done` does not hold. `found` grows once per verifying PoC, `done` once per target (`Scan.TwoFindingsOneTarget`).
- Errors: `_scan` has no `try`/`except`, so a collaborator's exception ends the whole call before `add_done`. The model covers collaborators that return.
