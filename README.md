# XenServer metrics for New Relic: the normalisation engine

`newrelic_xenserver.js` polls XenServer pools for RRD metric exports and forwards them to New
Relic. Its core is `parseXenMetrics`. This function takes one host's batch of samples and files
each one into the process-wide store `parsedMetrics`, which `newrelicPost` later publishes.

A batch maps keys of the form `<mode>:<type>:<uuid>:<path>` to values. For each key, the engine:

- decodes the key,
- drops samples of VMs that do not run on the batch's host, and of unknown hosts,
- classifies the `_`-separated path into a metric name with a unit suffix, and scales and
  rounds the value,
- stores the value as `Component/<name>` in that entity's map in `parsedMetrics`,
- pushes vif traffic and per-core CPU values into per-entity buckets.

It then derives memory use for every entity the batch touched. For VMs it also derives network
totals and the CPU average, using the helpers `sum` and `average`.

The model consists of these modules:

- `Wrappers`: `Option`.
- `JsStrings`: the JavaScript string operations the engine depends on, with their exact
  behaviour.
  - `split` on one character, as `Split`, with its inverse `Join`.
  - `replace`, which replaces only the first occurrence.
  - `substring(0, n)`.
  - An `undefined` value used as a property key or concatenated into a string, which becomes
    the text "undefined".
- `Helpers`: `sum`, `average` and `toObject`.
  - Values are exact reals, and `Math.round(y)` is `floor(y + 1/2)`.
  - `Sum`, `Average` and `ToObject` are loops proved against their specification functions.
- `Inventory`:
  - the read-only index `xenData` as the engine reads it,
  - the per-record steps of `getXenHosts` that fill it,
  - the component naming of `newrelicPost`.
- `Classify`:
  - key decoding,
  - the admission filter,
  - the dispatch table, as `Classify.Classify`, with one lemma per rule.
- `Engine`:
  - `parsedMetrics` as the field `parsed` of the class `MetricStore`.
  - `ParseXenMetrics`, the first loop (one sample at a time) and the second loop (derived
    metrics), proved to compute the specification function `ParseBatch`.
  - Lemmas about what one batch does to the store.

Two behaviours of the code shape the model:

- **A key without a path field ends the batch.** A processed key with fewer than four
  `:`-separated fields leaves `metricArray` empty. The call `metricArray[0].substring(0, 3)`
  at newrelic_xenserver.js:469 then throws a TypeError outside any `try`. That ends
  `parseXenMetrics`: the samples before it stay stored, and no later sample and no
  post-processing runs. `ParseXenMetrics` returns `completed == false` in that case.
  `CollectAborted`, `FileAllAborts` and `AbortSkipsRest` state the effect.
- **`parsedMetrics` is never cleared.** The store is created once (newrelic_xenserver.js:107)
  and persists across batches, so values from earlier batches stay until a later sample
  overwrites them. `NothingForgotten`, `BatchFrame` and `LastWriteWins` state this.

The models of JavaScript's own vocabulary carry no contract of their own, since each is its
definition: `JsStrings.Str` (a missing value read as the text "undefined"), `JsStrings.At`
(an array index past the end reads `undefined`), `JsStrings.Prefix` (`substring(0, n)`),
`Wrappers.Get` (a property read that may miss) and `Inventory.DeviceEntry` (the two-level
read `xenData[table][owner][device]`). The lemmas about the operations built from them state
what those reads mean where the engine uses them. Two more members are glue of the same
kind. `Inventory.NetworkLabel` is the network lookup that `AddVif` and `AddPif` share
(newrelic_xenserver.js:224-230, 258-262), and `InterfaceLabelRoundTrip` states what it
files. `Engine.FileAll` lists one filing per key of a batch, in order. `FileAllAborts`,
`LastWriteWins` and `VmAggregatesOfBatch` state what the batch does with those filings.

## Model

| member | source | states |
|---|---|---|
| JsStrings.Split | newrelic_xenserver.js:377 | `split` on one character never returns an empty list. No part contains the separator, and joining the parts with the separator gives the input back. |
| JsStrings.SplitOfJoin | newrelic_xenserver.js:377 | The other half of the round trip: separator-free parts are recovered by splitting their join. |
| JsStrings.SplitHasSecondPart | newrelic_xenserver.js:474-477 | `s.split(c)` has a second element exactly when `s` contains `c`. This is the test `cpuArray[1] != undefined`. |
| JsStrings.FirstPartIsPrefix | newrelic_xenserver.js:293 | The first part of a split is the longest separator-free prefix of the string. |
| JsStrings.ReplaceFirst | newrelic_xenserver.js:424 | `replace("/", "-")` keeps the string's length. |
| JsStrings.ReplaceFirstAt | newrelic_xenserver.js:424 | Only the first occurrence is replaced; every other character stays. |
| JsStrings.ReplaceFirstAbsent | newrelic_xenserver.js:456 | A string without the pattern is unchanged. |
| JsStrings.ReplaceFirstCount | newrelic_xenserver.js:493 | Exactly one occurrence of the pattern is removed when there is one. |
| Helpers.Floor | newrelic_xenserver.js:619 | `Math.floor(y)` is a whole number `r` with `r <= y < r + 1`, that is, the greatest whole number not above `y`. |
| Helpers.Round | newrelic_xenserver.js:420 | `Math.round(y)` is a whole number `r` with `y - 1/2 < r <= y + 1/2`: the nearest whole number, with halves rounded up. |
| Helpers.Round2Error | newrelic_xenserver.js:823 | Rounding to two decimals moves a value by at most 0.005. |
| Helpers.Round2Idempotent | newrelic_xenserver.js:814 | Results of two-decimal rounding are whole hundredths, and rounding them again changes nothing. |
| Helpers.SeqSumAppend | newrelic_xenserver.js:820-822 | The running total of a concatenation is the sum of the two totals. |
| Helpers.SeqSumBounds | newrelic_xenserver.js:820-822 | Bounds on every sample bound the total by the count times the bound. |
| Helpers.Sum | newrelic_xenserver.js:818-825 | `sum(input)` is the sum of the whole list, rounded to two decimals. |
| Helpers.Average | newrelic_xenserver.js:808-816 | `average(input)` is the mean of the list, rounded to two decimals. |
| Helpers.AverageWithinRange | newrelic_xenserver.js:808-816 | The rounded average lies within 0.005 of the range of the samples. |
| Helpers.AggregationExamples | newrelic_xenserver.js:808-825 | `sum([10.005, 20.003])` is 30.01 and `average([10, 20, 30])` is 20. |
| Helpers.FirstOccurrences | newrelic_xenserver.js:801-806 | The own keys of the object built: the same names, each once. |
| Helpers.ToObject | newrelic_xenserver.js:801-806 | The object built has each name once, in order of first appearance. Each name holds the value at its last occurrence. |
| Inventory.ResolveFallback | newrelic_xenserver.js:422-428 | A missing index entry yields "Unnamed". A found label has exactly one `/` fewer when it had any, and is unchanged otherwise. |
| Inventory.VmEntry | newrelic_xenserver.js:186-192 | Templates and control domains get no entry. Other VMs keep their label, and get a host exactly when `resident_on` is a known host reference. That host is `host_OpaqueRef[resident_on]`, the translation of the VM's own reference. |
| Inventory.AddVm | newrelic_xenserver.js:189-192 | The VM's entry is stored under its UUID, or the table is unchanged. No other VM's entry changes. |
| Inventory.AddVif | newrelic_xenserver.js:221-238 | A VIF record is filed under its VM's UUID (the text "undefined" for an unknown VM reference) and its device, with its network's label. The VM's other devices keep their labels, and other owners are unchanged. |
| Inventory.AddPif | newrelic_xenserver.js:253-270 | A PIF record is filed under its host's UUID (the text "undefined" for an unknown host reference) and its device, with its network's label. The host's other devices keep their labels, and other owners are unchanged. |
| Inventory.InterfaceLabelRoundTrip | newrelic_xenserver.js:221-270 | The label a VIF or PIF record files for a known owner is what parsing resolves for that owner and device: its network's label with the first `/` replaced by `-`. |
| Inventory.AddDevice | newrelic_xenserver.js:237-238 | The new device label is stored. Other devices of the owner, and other owners, are unchanged. Nothing else is added. |
| Inventory.SrShortKeyIsPrefix | newrelic_xenserver.js:293-294 | The short key of an SR is its UUID up to the first `-`, or the whole UUID when it has none. |
| Inventory.DeviceLabelRoundTrip | newrelic_xenserver.js:269-270 | A device label filed while the index is built is what parsing resolves for that owner and device, with its first `/` replaced. |
| Inventory.SrLabelRoundTrip | newrelic_xenserver.js:293-294 | An SR filed by `getXenHosts` is found by parsing under the first group of its UUID. |
| Inventory.ComponentNameCases | newrelic_xenserver.js:751-763 | A known host is named "Host: " plus its label, and a known VM "VM: " plus its label. An entity without an index entry is named by its UUID. |
| Classify.Segments | newrelic_xenserver.js:382-387 | The path segments are empty exactly when the key has no path field. |
| Classify.DecodeOfJoin | newrelic_xenserver.js:377-381 | A key built from colon-free fields decodes to its first four fields, with `undefined` for missing ones. |
| Classify.SegmentsOfJoin | newrelic_xenserver.js:384 | A path built from underscore-free segments gives those segments back. |
| Classify.AdmitCases | newrelic_xenserver.js:389-405 | The filter's definition, one case per type rather than a property of it: a VM sample is processed exactly when the VM is indexed and resident on the batch's host. A host sample is processed exactly when the host is indexed. Samples of any other type are always processed. |
| Classify.VmAdmittedForOneHost | newrelic_xenserver.js:391-399 | No VM sample is processed for two different hosts. |
| Classify.HaltedVmNeverAdmitted | newrelic_xenserver.js:186-192 | A VM record that is neither a template nor a control domain, entered by `AddVm` with a `resident_on` that is no known host, has none of its samples processed, for any batch host. |
| Classify.ResidentVmAdmitted | newrelic_xenserver.js:186-192 | A VM record that is neither a template nor a control domain, entered by `AddVm` with a `resident_on` that is a known host reference, has its samples processed by exactly the batch of the host that reference translates to. |
| Classify.Classify | newrelic_xenserver.js:418-679 | Classification fails (the TypeError) exactly when there are no segments. |
| Classify.NetworkRule | newrelic_xenserver.js:418-420 | vif and pif values become value×8 rounded to two decimals, under a `network/...[bits/second]` name. |
| Classify.VifRule | newrelic_xenserver.js:418-439 | A vif name embeds the interface's label, or "Unnamed" when the index lacks it. The value goes on the rx or tx bucket exactly when the direction is "rx" or "tx". |
| Classify.PifRule | newrelic_xenserver.js:444-465 | `aggr` gives `network/total/<dir>` and `lo` gives `network/local/<dir>`. Any other device gives `network/eth/<label> (<dev>)/<dir>`. No bucket is used. |
| Classify.CpuRule | newrelic_xenserver.js:469-483 | CPU values become value×100 rounded. `cpu_avg` gives the average metric. A hyphenated first segment gives nothing. A lone `cpuN` gives `cpu/byCpu/cpuN[%]` and is pushed on the cpu bucket. Other shapes give nothing. |
| Classify.HostDiskRule | newrelic_xenserver.js:488-566 | Host `io` throughput is value×1048580 rounded, named total by the third segment. Latency is value/1000. Other counters are unscaled. Labels come from `srShort`, falling back to "Unnamed". |
| Classify.IoErrorsHeadUnreachable | newrelic_xenserver.js:488 | The `io_errors` test never succeeds: the first segment of a path split on `_` is never "io_errors". |
| Classify.IoErrorsReadAsThroughput | newrelic_xenserver.js:488-566 | A host `io_errors_<x>` counter is classified as `io` throughput. "errors" fills the slot of "throughput" and never appears in the name. The third segment `x` is the direction and decides the total test. There is no fourth segment, so the SR short id is "undefined". The value is scaled like throughput. |
| Classify.VbdRule | newrelic_xenserver.js:568-595 | VM disk names use the device segment and do not depend on the index. The iops total test reads the device segment and the throughput total test the fifth segment. Throughput is scaled and rounded. Latency is named `disks/latency/<dev>/<counter>[ms]` and divided by 1000. `inflight` gives `disks/inflight/<dev>[requests]` and `iowait` `disks/iowait/<dev>[second/second]`, both unscaled. A write/read counter without latency gives `disks/write_read/<dev>/<counter>[bytes/second]`, unscaled. A counter whose third segment is missing or none of `inflight`, `iowait`, `iops`, `io`, `write` and `read` gives an empty name. |
| Classify.MemoryRule | newrelic_xenserver.js:600-619 | Host memory is value×1000 floored and VM memory is floored. Host `reclaimed` gives nothing. A VM's bare `memory` is total and `memory_internal` is free. Every other host or VM memory counter gives an empty name. |
| Classify.HostMemoryCounter | newrelic_xenserver.js:600-619 | A host's `memory_total_kib` and `memory_free_kib` become `memory/total[bytes]` and `memory/free[bytes]`, valued at kilobytes×1000 floored, with no bucket. |
| Classify.XapiRule | newrelic_xenserver.js:624-644 | xapi `open` is unscaled `xapi/open_fds[fds]`. `memory`, `free`, `live` and `allocation` become `xapi/memory/usage[bytes]`, `xapi/memory/free[bytes]`, `xapi/memory/live[bytes]` and `xapi/memory/allocation[bytes]`, each kilobytes×1000 floored. Any other xapi counter gives an empty name. No bucket is used. |
| Classify.PoolLoadavgRule | newrelic_xenserver.js:649-661 | Pool `task` and `session` counters become `pool/tasks[tasks]` and `pool/session[sessions]`; any other pool counter gives an empty name. `loadavg` becomes `loadavg/Load Average[Load Average]`. Values are unscaled and use no bucket. |
| Classify.DroppedCounters | newrelic_xenserver.js:469-666 | Tapdisks, host reclaimed memory and hyphenated CPU variants produce an empty name, so nothing is stored. |
| Classify.BucketSources | newrelic_xenserver.js:433-439 | Only vif traffic and lone per-core CPU values reach a bucket. |
| Classify.JoinFallback | newrelic_xenserver.js:671-678 | The catch-all loop computes the catch-all name. |
| Classify.FallbackNameIsJoin | newrelic_xenserver.js:672-678 | The catch-all name is the first segment and every later non-"kib" segment, joined by `/`. |
| Classify.FallbackRoundTrip | newrelic_xenserver.js:672-678 | Splitting a catch-all name on `/` gives those segments back. |
| Classify.FallbackRule | newrelic_xenserver.js:671-679 | A counter no earlier rule recognises passes through unscaled under the catch-all name. The host-disk heads count as recognised only for hosts, and `vbd` only for VMs. |
| Classify.ScaleExamples | newrelic_xenserver.js:418-420 | 1.23456 bytes/s of network is 9.88 bits/s. 2 MiB/s of host throughput is 2097160 bytes/s. 1500 µs of read latency is 1.5 ms. |
| Engine.Push | newrelic_xenserver.js:434-438 | A value is appended to exactly one bucket of one entity, or to none. |
| Engine.Store | newrelic_xenserver.js:681-684 | Writing a metric sets that key of that entity, creating its map if needed. Other keys and other entities are kept. |
| Engine.FileSample | newrelic_xenserver.js:375-679 | A sample is skipped exactly when it is not admitted. It raises the TypeError exactly when it is admitted and its key has no path field. Otherwise it is filed under the entity its key names. |
| Engine.Step | newrelic_xenserver.js:375-692 | An unprocessed sample changes nothing. The TypeError sets the abort flag and nothing else does. A processed sample only adds to the store and to the touched entities. A sample filed with an empty name leaves the store and the touched entities as they were. |
| Engine.StepFrame | newrelic_xenserver.js:681-690 | A sample leaves every entity other than its own with the same map, touched flag and buckets. |
| Engine.MetricStore.File | newrelic_xenserver.js:681-690 | One iteration's writes for a filed sample leave the store, touched set and buckets that `Step` describes. |
| Engine.Collect | newrelic_xenserver.js:374-693 | The first loop only adds to the store, and never continues after the TypeError. |
| Engine.PostMemory | newrelic_xenserver.js:707-710 | With total and free both present and non-negative, used is total−free and percent is used/total×100, unrounded. Otherwise the map is unchanged. No other key changes. |
| Engine.PostVm | newrelic_xenserver.js:712-722 | For a VM, the rx/tx totals are the rounded bucket sums and the CPU average is the rounded mean. Each is written only when its bucket has values, and no other key changes. |
| Engine.PostProcess | newrelic_xenserver.js:704-726 | Post-processing one entity stores memory used as total−free and, for a positive total, the percentage used, when total and free are present and non-negative. For a VM it also stores the rounded sums of the rx/tx buckets and the rounded mean of the CPU bucket, each when that bucket has values. Every other metric is kept, and none is removed. |
| Engine.PostProcessOne | newrelic_xenserver.js:704-726 | The body of the second loop computes the post-processing of one entity. |
| Engine.PostMemoryOne | newrelic_xenserver.js:707-710 | The memory block of the second loop computes the memory used and percent of `PostMemory`. |
| Engine.PostVmOne | newrelic_xenserver.js:712-722 | The VM block of the second loop computes the bucket totals and CPU average of `PostVm`. |
| Engine.PostAll | newrelic_xenserver.js:700-728 | Post-processing keeps every entity and metric, and leaves untouched entities as they were. Every touched entity with total and free memory present and non-negative gets memory used and, for a positive total, the percentage used. Every touched VM gets the rounded rx/tx bucket sums and the rounded CPU mean, each when that bucket has values. |
| Engine.PostAllMemory | newrelic_xenserver.js:704-710 | Post-processing a touched entity of any kind with both memory readings known keeps the readings and stores used and, for a positive total, the percentage used. |
| Engine.PostAllVm | newrelic_xenserver.js:712-722 | Post-processing a touched VM stores the rounded sums of its network buckets and the rounded mean of its CPU bucket, each when that bucket has values. |
| Engine.MetricStore.constructor | newrelic_xenserver.js:107 | The store starts empty. |
| Engine.MetricStore.ParseXenMetrics | newrelic_xenserver.js:368-732 | The new `parsedMetrics` is `ParseBatch` of the old one. The call completes exactly when no key of the batch is both admitted and without a path field. |
| Engine.MetricStore.PostProcessAll | newrelic_xenserver.js:700-728 | The second loop leaves `PostAll` of the store in place. |
| Engine.MetricStore.Components | newrelic_xenserver.js:747-773 | One component per stored entity, each exactly once, named by the naming rule. Each carries the fixed guid, a duration of 60 and that entity's metrics. |
| Engine.CollectAborted | newrelic_xenserver.js:374-693 | The first loop ends aborted exactly when it started aborted or some filing of the batch is the TypeError. |
| Engine.FileAllAborts | newrelic_xenserver.js:469 | A batch aborts exactly when one of its keys is admitted and has no path field. |
| Engine.AbortIsFinal | newrelic_xenserver.js:469 | Once the TypeError has happened, no later key changes anything. |
| Engine.CollectFrame | newrelic_xenserver.js:681-690 | An entity no processed key is filed under keeps its metrics, its touched flag and its buckets through the first loop. |
| Engine.BatchFrame | newrelic_xenserver.js:681-728 | An entity no processed key is filed under keeps exactly what earlier batches stored. |
| Engine.ForeignEntitiesUntouched | newrelic_xenserver.js:389-405 | A batch changes nothing for a VM not resident on its host, nor for an unindexed host. |
| Engine.NothingForgotten | newrelic_xenserver.js:107 | A batch never removes an entity or a metric from `parsedMetrics`. |
| Engine.AbortSkipsRest | newrelic_xenserver.js:469 | When the first key that is admitted and has no path field is the `j`-th, the batch leaves exactly the writes of the `j` samples before it, with no post-processing. |
| Engine.CollectLastWrite | newrelic_xenserver.js:684 | In the first loop, the last sample to write a metric decides that metric's value. |
| Engine.StepPushed | newrelic_xenserver.js:433-483 | One sample appends its value to its own bucket of its own entity (the vif pushes at 433-439, the CPU push at 481-482), and to no other bucket. |
| Engine.CollectPushed | newrelic_xenserver.js:433-483 | After the first loop, each bucket of an entity holds what it held before, followed by the values the batch's filings pushed there, in key order. |
| Engine.FinishVmAggregates | newrelic_xenserver.js:712-722 | For a batch that does not abort and stores some metric for a VM: the VM's rx and tx totals are the rounded sums of the values filed on its rx and tx buckets, and its CPU average is the rounded mean of the values filed on its CPU bucket. Each is written when that bucket got a value. |
| Engine.VmAggregatesOfBatch | newrelic_xenserver.js:433-722 | The same over a batch's keys: when no key raises the TypeError, a VM that some sample stores a metric for ends with those totals and that average. |
| Engine.CollectTouches | newrelic_xenserver.js:681-690 | A filing with a non-empty name marks its entity as touched, unless the loop aborts. |
| Engine.CollectTouchedOnly | newrelic_xenserver.js:681-690 | Conversely, an entity touched after the first loop was touched before it, or some filing with a non-empty name is filed under it. |
| Engine.LastWriteWins | newrelic_xenserver.js:684 | After a batch in which no key is admitted without a path field, a metric it stores that is not derived holds the value of the batch's last sample writing it. This overwrites earlier values. |
| Engine.MemoryExamples | newrelic_xenserver.js:707-710 | Total 1000 and free 400 give used 600 and 60 percent. Without free, neither is written. |
| Engine.MemoryPercentRange | newrelic_xenserver.js:707-710 | With free at most total, used lies between 0 and total, and percent between 0 and 100. |
| Engine.KeptByPostAll | newrelic_xenserver.js:700-728 | Post-processing keeps the value of every stored metric that it does not derive. |
| Engine.HostMemoryFiled | newrelic_xenserver.js:600-619 | A total or free memory reading of an indexed host is filed under that host, in bytes (kilobytes×1000, floored), with no bucket. |
| Engine.NoWriteAfterMeans | newrelic_xenserver.js:681-684 | `NoWriteAfter(fs, j, e, k)` holds exactly when no filing after the `j`-th stores `k` of `e`. |
| Engine.LastMemoryCollect | newrelic_xenserver.js:681-690 | When the `jt`-th and `jf`-th filings are the last to store a host's total and free memory, the first loop leaves the host touched with those two values. |
| Engine.FinishMemory | newrelic_xenserver.js:700-710 | After a first loop that leaves an entity of any kind touched with total and free memory known, the batch ends with both kept, memory used as total minus free and, for a positive total, the percentage used as used/total×100. |
| Engine.LastMemoryFilings | newrelic_xenserver.js:681-710 | In any batch that does not abort, where the last filings to store an entity's total and free memory carry non-negative values, the batch ends with those values, with memory used as their difference and, for a positive total, with the percentage used, whatever else the batch holds. Hosts and VMs alike. |
| Engine.MemoryBatch | newrelic_xenserver.js:681-710 | A batch of exactly an entity's total and free memory filings, in that order, stores both as they are; memory used is their difference and, for a positive total, the percentage used is used/total×100. |
| Engine.HostMemoryPair | newrelic_xenserver.js:375-619 | A batch of exactly two keys, an indexed host's total and free memory readings, gives the two filings of those readings in bytes. |
| Engine.HostMemoryBatch | newrelic_xenserver.js:600-710 | A batch of exactly two keys, an indexed host's total and free memory readings in that order, stores both in bytes and derives memory used as total minus free and, for a positive total, the percentage used. |
| Engine.ReadingOfKey | newrelic_xenserver.js:377-384 | The key `AVERAGE:host:<uuid>:memory_<which>_kib` decodes to that host and the segments `memory`, `<which>`, `kib`. |

## Left out

- Network I/O: the XAPI connections and RPC calls, the HTTP fetch and XML parsing of the RRD export, and the New Relic POST. The index and each batch are parameters of the model.
- Scheduling: `async.each`/`async.series`, `setInterval` and `setTimeout`. Each batch runs to completion before the next.
- Console logging: it is observability only.
- Configuration and credentials.
- `parseFloat` and IEEE-754 arithmetic. Values are exact reals, so binary rounding of decimals such as 10.005 is not modelled. NaN and Infinity are not modelled either.
- `Object.keys` ordering rules: a batch's keys and an object's keys are the given sequence, in order.
- The index keeps only labels, plus the host of each VM; the other fields of the XAPI records are not read by the engine. Host and network records are filed under their UUID with their label, and are not modelled as separate steps.
- The `data` envelope of `newrelicPost` (agent host and version) and the request itself. `Components` models only the component list.
- Engine.PostMemory: with a total of 0 the source stores NaN or -Infinity as the percentage. The model does not write a percentage in that case.
- Helpers.Average: requires a non-empty list. The source would return NaN for an empty one, but it only calls `average` on a bucket that received a value.
- Helpers.ToObject: requires at least as many values as names. With fewer, the source stores `undefined`, which is not a number.
- Engine.MetricStore.Components: the order of the components is not fixed. The source follows `Object.keys` order of `parsedMetrics`.
- Inventory.EntityLabel: only the `host`, `vm`, `network` and `sr` tables are consulted. For any other type, the name falls back to the UUID.
- Engine.LastWriteWins: does not cover metrics that post-processing derives. Memory used and percent, and a VM's network totals and CPU average, may be rewritten after the first loop; `LastMemoryFilings` states the final memory used and percentage of any entity, and `VmAggregatesOfBatch` a VM's final totals and CPU average.
- Engine.HostMemoryBatch: stated for a batch of exactly the two memory readings, in that order. For any other batch it follows from `LastMemoryFilings` over the batch's filings together with `HostMemoryFiled`, which gives the filing of each reading; that combination is not proved as one lemma over keys.
