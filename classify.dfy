/**
 * The per-sample part of `parseXenMetrics` (newrelic_xenserver.js:374-679): decoding a key
 * `<mode>:<type>:<uuid>:<path>`, deciding whether the sample belongs to the host whose batch
 * is being parsed, and the dispatch table that turns the `_`-separated path into a namespaced
 * metric name with a unit suffix and a scaled, rounded value.
 */
module Classify {
  import opened Wrappers
  import opened JsStrings
  import opened Helpers
  import opened Inventory

  // ---------------------------------------------------------------------------------------
  // Decoding and filtering
  // ---------------------------------------------------------------------------------------

  /** `key.split(":")` read as mode, type, uuid and path; a field past the end of the key is
      `undefined`. */
  datatype DecodedKey = DecodedKey(mode: string, kind: Option<string>, id: Option<string>, path: Option<string>)

  function Decode(key: string): DecodedKey
  {
    var fields := Split(key, ':');
    DecodedKey(fields[0], At(fields, 1), At(fields, 2), At(fields, 3))
  }

  /** `metricArray`: the path split on '_', or `[]` when the key has no path field. */
  function Segments(d: DecodedKey): (segs: seq<string>)
    ensures segs == [] <==> d.path.None?
  {
    if d.path.Some? then Split(d.path.value, '_') else []
  }

  /** Decoding a key built from colon-free fields gives those fields back: the first four,
      with `undefined` for those the key lacks; fields after the fourth are ignored. */
  lemma DecodeOfJoin(fields: seq<string>)
    requires |fields| >= 1
    requires forall i :: 0 <= i < |fields| ==> ':' !in fields[i]
    ensures Decode(Join(fields, ':')) == DecodedKey(fields[0], At(fields, 1), At(fields, 2), At(fields, 3))
  {
    SplitOfJoin(fields, ':');
  }

  /** The path's segments are recovered from a path built from underscore-free segments. */
  lemma SegmentsOfJoin(d: DecodedKey, segs: seq<string>)
    requires |segs| >= 1
    requires forall i :: 0 <= i < |segs| ==> '_' !in segs[i]
    requires d.path == Some(Join(segs, '_'))
    ensures Segments(d) == segs
  {
    SplitOfJoin(segs, '_');
  }

  /** The entity a sample is filed under: `parsedMetrics[type][uuid]`, with JavaScript's
      "undefined" key for a missing field. */
  datatype Entity = Entity(kind: string, id: string)

  function EntityOf(d: DecodedKey): Entity
  {
    Entity(Str(d.kind), Str(d.id))
  }

  /** Whether a decoded sample is processed for the batch of `host` (newrelic_xenserver.js:389-405). */
  predicate Admit(idx: Index, host: string, d: DecodedKey)
  {
    && (d.kind == Some("vm") ==> Str(d.id) in idx.vm && idx.vm[Str(d.id)].residentOn == Some(host))
    && (d.kind == Some("host") ==> Str(d.id) in idx.host)
  }

  /** A VM sample is processed exactly when the VM is indexed and resident on the batch's
      host; a host sample exactly when the host is indexed; samples of any other type are
      kept. */
  lemma AdmitCases(idx: Index, host: string, d: DecodedKey)
    ensures d.kind == Some("vm") ==>
      (Admit(idx, host, d) <==> Str(d.id) in idx.vm && idx.vm[Str(d.id)].residentOn == Some(host))
    ensures d.kind == Some("host") ==> (Admit(idx, host, d) <==> Str(d.id) in idx.host)
    ensures d.kind != Some("vm") && d.kind != Some("host") ==> Admit(idx, host, d)
  {
  }

  /** No VM sample is processed for two different hosts: a VM's metrics are filed by at most
      one host's batch. */
  lemma VmAdmittedForOneHost(idx: Index, h1: string, h2: string, d: DecodedKey)
    requires d.kind == Some("vm")
    requires Admit(idx, h1, d) && Admit(idx, h2, d)
    ensures h1 == h2
  {
  }

  /** A VM (neither a template nor a control domain) whose `resident_on` named no known host
      when its record was filed is never processed, whatever else the VM table holds and
      whichever host's batch carries it. */
  lemma HaltedVmNeverAdmitted(idx: Index, vms: map<string, VmInfo>, hostRef: map<string, string>, rec: VmRecord,
                               host: string, d: DecodedKey)
    requires d.kind == Some("vm") && Str(d.id) == rec.uuid
    requires !rec.isATemplate && !rec.isControlDomain
    requires idx.vm == AddVm(vms, hostRef, rec)
    requires rec.residentOn !in hostRef
    ensures !Admit(idx, host, d)
  {
  }

  /** A VM (neither a template nor a control domain) whose `resident_on` named a known host
      when its record was filed is processed by exactly that host's batch: the host that
      `host_OpaqueRef` gives for its reference. */
  lemma ResidentVmAdmitted(idx: Index, vms: map<string, VmInfo>, hostRef: map<string, string>, rec: VmRecord,
                           host: string, d: DecodedKey)
    requires d.kind == Some("vm") && Str(d.id) == rec.uuid
    requires !rec.isATemplate && !rec.isControlDomain
    requires idx.vm == AddVm(vms, hostRef, rec)
    requires rec.residentOn in hostRef
    ensures Admit(idx, host, d) <==> host == hostRef[rec.residentOn]
  {
  }

  // ---------------------------------------------------------------------------------------
  // Classification
  // ---------------------------------------------------------------------------------------

  /** The per-entity lists a value can be pushed on (`summaryData[type][uuid][...]`). */
  datatype Bucket = NetworkRx | NetworkTx | Cpu

  /** What one processed sample yields: the TypeError the source raises at
      `metricArray[0].substring` when the key has no path, or a metric name (empty: nothing
      is stored), the transformed value and the bucket the value is pushed on, if any. */
  datatype Outcome = Throws | Emit(name: string, value: real, bucket: Option<Bucket>)

  /** `vif_<index>_<dir>` (newrelic_xenserver.js:418-439). */
  function Vif(idx: Index, vm: string, segs: seq<string>, value: real): Outcome
  {
    var dev := Str(At(segs, 1));
    var dir := Str(At(segs, 2));
    Emit("network/eth/" + VifLabel(idx, vm, dev) + " (vif" + dev + ")/" + dir + "[bits/second]",
         Round2(value * 8.0),
         if Is(segs, 2, "rx") then Some(NetworkRx) else if Is(segs, 2, "tx") then Some(NetworkTx) else None)
  }

  /** `pif_<device>_<dir>` (newrelic_xenserver.js:444-465). */
  function Pif(idx: Index, host: string, segs: seq<string>, value: real): Outcome
  {
    var dev := Str(At(segs, 1));
    var dir := Str(At(segs, 2));
    var v := Round2(value * 8.0);
    if Is(segs, 1, "aggr") then Emit("network/total/" + dir + "[bits/second]", v, None)
    else if Is(segs, 1, "lo") then Emit("network/local/" + dir + "[bits/second]", v, None)
    else Emit("network/eth/" + PifLabel(idx, host, dev) + " (" + dev + ")/" + dir + "[bits/second]", v, None)
  }

  /** `metricArray[0].substring(0, 3)` is "cpu" or "CPU". */
  predicate IsCpuHead(first: string)
  {
    Prefix(first, 3) == "cpu" || Prefix(first, 3) == "CPU"
  }

  /** `cpu_avg`, `cpu<N>`, and the hyphenated per-core variants (newrelic_xenserver.js:469-483). */
  function CpuMetric(segs: seq<string>, value: real): Outcome
    requires |segs| >= 1
  {
    var first := segs[0];
    var v := Round2(value * 100.0);
    if first == "cpu" && Is(segs, 1, "avg") then Emit("cpu/cpuAverage/Average CPU[%]", v, None)
    else if |Split(first, '-')| > 1 then Emit("", v, None)
    else if |segs| <= 1 then Emit("cpu/byCpu/" + first + "[%]", v, Some(Cpu))
    else Emit("", v, None)
  }

  /** The first segments the host-disk branch accepts (newrelic_xenserver.js:488). */
  predicate IsHostDiskHead(first: string)
  {
    first in {"iowait", "iops", "io", "write", "read", "inflight", "io_errors"}
  }

  /** Host-level disk counters, labelled by the short SR id they carry
      (newrelic_xenserver.js:490-566). */
  function HostDisk(idx: Index, segs: seq<string>, value: real): Outcome
    requires |segs| >= 1
  {
    var first := segs[0];
    if first == "inflight" then
      Emit("disks/inflight/" + SrLabel(idx, Str(At(segs, 1))) + "[requests]", value, None)
    else if first == "iowait" then
      Emit("disks/iowait/" + SrLabel(idx, Str(At(segs, 1))) + "[second/second]", value, None)
    else if first == "iops" then
      Emit((if Is(segs, 1, "total") then "disks/iops_total/" else "disks/iops/")
           + SrLabel(idx, Str(At(segs, 2))) + "/" + Str(At(segs, 1)) + "[requests/second]", value, None)
    else if first == "io" then
      Emit((if Is(segs, 2, "total") then "disks/io_throughput_total/" else "disks/io_throughput/")
           + SrLabel(idx, Str(At(segs, 3))) + "/" + Str(At(segs, 2)) + "[bytes/second]",
           Round2(value * 1048580.0), None)
    else if (first == "write" || first == "read") && Is(segs, 1, "latency") then
      Emit("disks/latency/" + SrLabel(idx, Str(At(segs, 2))) + "/" + first + "[ms]", value / 1000.0, None)
    else if first == "write" || first == "read" then
      Emit("disks/write_read/" + SrLabel(idx, Str(At(segs, 1))) + "/" + first + "[bytes/second]", value, None)
    else Emit("", value, None)
  }

  /** VM-level `vbd_<device>_...` counters, named by the device itself
      (newrelic_xenserver.js:570-595). */
  function Vbd(segs: seq<string>, value: real): Outcome
  {
    var dev := Str(At(segs, 1));
    if Is(segs, 2, "inflight") then Emit("disks/inflight/" + dev + "[requests]", value, None)
    else if Is(segs, 2, "iowait") then Emit("disks/iowait/" + dev + "[second/second]", value, None)
    else if Is(segs, 2, "iops") then
      Emit((if Is(segs, 1, "total") then "disks/iops_total/" else "disks/iops/")
           + dev + "/" + Str(At(segs, 3)) + "[requests/second]", value, None)
    else if Is(segs, 2, "io") then
      Emit((if Is(segs, 4, "total") then "disks/io_throughput_total/" else "disks/io_throughput/")
           + dev + "/" + Str(At(segs, 4)) + "[bytes/second]", Round2(value * 1048580.0), None)
    else if (Is(segs, 2, "write") || Is(segs, 2, "read")) && Is(segs, 3, "latency") then
      Emit("disks/latency/" + dev + "/" + Str(At(segs, 2)) + "[ms]", value / 1000.0, None)
    else if Is(segs, 2, "write") || Is(segs, 2, "read") then
      Emit("disks/write_read/" + dev + "/" + Str(At(segs, 2)) + "[bytes/second]", value, None)
    else Emit("", value, None)
  }

  /** `memory...` (newrelic_xenserver.js:600-619). */
  function MemoryMetric(kind: string, segs: seq<string>, value: real): Outcome
  {
    var name :=
      if kind == "host" && Is(segs, 1, "reclaimed") then ""
      else if kind == "host" && Is(segs, 1, "total") then "memory/total[bytes]"
      else if kind == "host" && Is(segs, 1, "free") then "memory/free[bytes]"
      else if kind == "vm" && |segs| <= 1 then "memory/total[bytes]"
      else if kind == "vm" && Is(segs, 1, "internal") then "memory/free[bytes]"
      else "";
    Emit(name, Floor(if kind == "host" then value * 1000.0 else value), None)
  }

  /** `xapi_...` (newrelic_xenserver.js:624-644). */
  function Xapi(segs: seq<string>, value: real): Outcome
  {
    if Is(segs, 1, "open") then Emit("xapi/open_fds[fds]", value, None)
    else if Is(segs, 1, "memory") then Emit("xapi/memory/usage[bytes]", Floor(value * 1000.0), None)
    else if Is(segs, 1, "free") then Emit("xapi/memory/free[bytes]", Floor(value * 1000.0), None)
    else if Is(segs, 1, "live") then Emit("xapi/memory/live[bytes]", Floor(value * 1000.0), None)
    else if Is(segs, 1, "allocation") then Emit("xapi/memory/allocation[bytes]", Floor(value * 1000.0), None)
    else Emit("", value, None)
  }

  /** `pool_...` (newrelic_xenserver.js:649-655). */
  function Pool(segs: seq<string>, value: real): Outcome
  {
    if Is(segs, 1, "task") then Emit("pool/tasks[tasks]", value, None)
    else if Is(segs, 1, "session") then Emit("pool/session[sessions]", value, None)
    else Emit("", value, None)
  }

  /** The segments after the first, each prefixed by '/', skipping every "kib". */
  function KeptTail(rest: seq<string>): string
    decreases |rest|
  {
    if |rest| == 0 then ""
    else KeptTail(rest[..|rest| - 1]) + (if rest[|rest| - 1] == "kib" then "" else "/" + rest[|rest| - 1])
  }

  /** The name of an unrecognised counter (newrelic_xenserver.js:671-678). */
  function FallbackName(segs: seq<string>): string
    requires |segs| >= 1
  {
    segs[0] + KeptTail(segs[1..])
  }

  /** The catch-all loop of the source (newrelic_xenserver.js:672-678). */
  method JoinFallback(segs: seq<string>) returns (name: string)
    requires |segs| >= 1
    ensures name == FallbackName(segs)
  {
    name := segs[0];
    var i := 1;
    while i < |segs|
      invariant 1 <= i <= |segs|
      invariant name == segs[0] + KeptTail(segs[1..i])
    {
      assert segs[1..i + 1][..i - 1] == segs[1..i];
      if segs[i] != "kib" {
        name := name + "/" + segs[i];
      }
      i := i + 1;
    }
    assert segs[1..|segs|] == segs[1..];
  }

  /** The category dispatch of `parseXenMetrics`, in the source's order. `e` is the entity
      the sample is filed under, `segs` is `metricArray`. */
  function Classify(idx: Index, e: Entity, segs: seq<string>, value: real): (r: Outcome)
    ensures r.Throws? <==> segs == []
  {
    if segs == [] then Throws
    else if segs[0] == "vif" then Vif(idx, e.id, segs, value)
    else if segs[0] == "pif" then Pif(idx, e.id, segs, value)
    else if IsCpuHead(segs[0]) then CpuMetric(segs, value)
    else if e.kind == "host" && IsHostDiskHead(segs[0]) then HostDisk(idx, segs, value)
    else if e.kind == "vm" && segs[0] == "vbd" then Vbd(segs, value)
    else if segs[0] == "memory" then MemoryMetric(e.kind, segs, value)
    else if segs[0] == "xapi" then Xapi(segs, value)
    else if segs[0] == "pool" then Pool(segs, value)
    else if segs[0] == "loadavg" then Emit("loadavg/Load Average[Load Average]", value, None)
    else if segs[0] == "Tapdisks" then Emit("", value, None)
    else Emit(FallbackName(segs), value, None)
  }

  // ---------------------------------------------------------------------------------------
  // The classification rules
  // ---------------------------------------------------------------------------------------

  /** Network counters, virtual or physical, are bytes turned into bits per second, rounded
      to two decimals, and always produce a metric. */
  lemma NetworkRule(idx: Index, e: Entity, segs: seq<string>, value: real)
    requires |segs| >= 1 && (segs[0] == "vif" || segs[0] == "pif")
    ensures var r := Classify(idx, e, segs, value);
      && r.Emit? && r.value == Round2(value * 8.0)
      && StartsWith(r.name, "network/") && EndsWith(r.name, "[bits/second]")
  {
    var p := "network/";
    var dev := Str(At(segs, 1));
    var dir := Str(At(segs, 2));
    var head: string;
    if segs[0] == "vif" {
      VifRule(idx, e, segs, value);
      var s1 := "network/eth/" + VifLabel(idx, e.id, dev);
      Affixes("network/eth/", VifLabel(idx, e.id, dev), p);
      Affixes(s1, " (vif", p);
      Affixes(s1 + " (vif", dev, p);
      head := s1 + " (vif" + dev + ")/";
      Affixes(s1 + " (vif" + dev, ")/", p);
    } else {
      PifRule(idx, e, segs, value);
      if Is(segs, 1, "aggr") {
        head := "network/total/";
      } else if Is(segs, 1, "lo") {
        head := "network/local/";
      } else {
        var s1 := "network/eth/" + PifLabel(idx, e.id, dev);
        Affixes("network/eth/", PifLabel(idx, e.id, dev), p);
        Affixes(s1, " (", p);
        Affixes(s1 + " (", dev, p);
        head := s1 + " (" + dev + ")/";
        Affixes(s1 + " (" + dev, ")/", p);
      }
    }
    assert StartsWith(head, p);
    Affixes(head, dir, p);
    Affixes(head + dir, "[bits/second]", p);
  }

  /** A `vif` counter is named after the VM's interface with that index, "Unnamed" when the
      index has no such interface, and its value goes to the rx or tx bucket exactly when
      the direction is "rx" or "tx". */
  lemma VifRule(idx: Index, e: Entity, segs: seq<string>, value: real)
    requires |segs| >= 1 && segs[0] == "vif"
    ensures var r := Classify(idx, e, segs, value);
      && r.Emit?
      && r.name == "network/eth/" + VifLabel(idx, e.id, Str(At(segs, 1))) + " (vif" + Str(At(segs, 1)) + ")/"
                   + Str(At(segs, 2)) + "[bits/second]"
      && (r.bucket == Some(NetworkRx) <==> Is(segs, 2, "rx"))
      && (r.bucket == Some(NetworkTx) <==> Is(segs, 2, "tx"))
      && (r.bucket.Some? <==> Is(segs, 2, "rx") || Is(segs, 2, "tx"))
    ensures DeviceEntry(idx.vifByVM, e.id, Str(At(segs, 1))).None? ==>
      Classify(idx, e, segs, value).name ==
        "network/eth/Unnamed (vif" + Str(At(segs, 1)) + ")/" + Str(At(segs, 2)) + "[bits/second]"
  {
    var dev := Str(At(segs, 1));
    assert Classify(idx, e, segs, value) == Vif(idx, e.id, segs, value);
    if DeviceEntry(idx.vifByVM, e.id, dev).None? {
      assert VifLabel(idx, e.id, dev) == Unnamed;
      assert "network/eth/" + Unnamed + " (vif" == "network/eth/Unnamed (vif";
    }
  }

  /** A `pif` counter: the aggregate device is the host's total, the loopback device its
      local traffic, and any other device is named after its network ("Unnamed" when the
      host has no such device in the index); nothing is pushed on a bucket. */
  lemma PifRule(idx: Index, e: Entity, segs: seq<string>, value: real)
    requires |segs| >= 1 && segs[0] == "pif"
    ensures var r := Classify(idx, e, segs, value);
      && r.Emit? && r.bucket.None?
      && (Is(segs, 1, "aggr") ==> r.name == "network/total/" + Str(At(segs, 2)) + "[bits/second]")
      && (Is(segs, 1, "lo") ==> r.name == "network/local/" + Str(At(segs, 2)) + "[bits/second]")
      && (!Is(segs, 1, "aggr") && !Is(segs, 1, "lo") ==>
            r.name == "network/eth/" + PifLabel(idx, e.id, Str(At(segs, 1))) + " (" + Str(At(segs, 1)) + ")/"
                      + Str(At(segs, 2)) + "[bits/second]")
  {
    assert Classify(idx, e, segs, value) == Pif(idx, e.id, segs, value);
  }

  /** A first segment that does not start with 'c' or 'C' is not a CPU counter. */
  lemma NotCpuHead(first: string)
    requires |first| >= 1 && first[0] != 'c' && first[0] != 'C'
    ensures !IsCpuHead(first)
  {
    var p := Prefix(first, 3);
    assert |p| >= 1 && p[0] == first[0];
    assert "cpu"[0] == 'c' && "CPU"[0] == 'C';
  }

  /** CPU counters are fractions turned into percent, rounded to two decimals. The host's
      `cpu_avg` becomes the average, a lone `cpuN` a per-core metric pushed on the cpu
      bucket, and every other shape (a hyphenated per-core variant, extra segments) nothing. */
  lemma CpuRule(idx: Index, e: Entity, segs: seq<string>, value: real)
    requires |segs| >= 1 && |segs[0]| >= 3 && (segs[0][..3] == "cpu" || segs[0][..3] == "CPU")
    ensures var r := Classify(idx, e, segs, value);
      && r.Emit? && r.value == Round2(value * 100.0)
      && (segs[0] == "cpu" && Is(segs, 1, "avg") ==> r.name == "cpu/cpuAverage/Average CPU[%]" && r.bucket.None?)
      && (!(segs[0] == "cpu" && Is(segs, 1, "avg")) && '-' in segs[0] ==> r.name == "" && r.bucket.None?)
      && ('-' !in segs[0] && |segs| == 1 ==> r.name == "cpu/byCpu/" + segs[0] + "[%]" && r.bucket == Some(Cpu))
      && (!(segs[0] == "cpu" && Is(segs, 1, "avg")) && |segs| > 1 ==> r.name == "" && r.bucket.None?)
  {
    SplitHasSecondPart(segs[0], '-');
    assert IsCpuHead(segs[0]);
  }

  /** Host disk counters: throughput is mebibytes turned into bytes per second and rounded,
      latency microseconds turned into milliseconds, everything else unscaled; the label is
      the SR found under the short id, "Unnamed" when there is none. */
  lemma HostDiskRule(idx: Index, e: Entity, segs: seq<string>, value: real)
    requires |segs| >= 1 && e.kind == "host"
    requires segs[0] in {"iowait", "iops", "io", "write", "read", "inflight"}
    ensures var r := Classify(idx, e, segs, value);
      && r.Emit? && r.bucket.None?
      && (segs[0] == "io" ==>
            (&& r.value == Round2(value * 1048580.0)
             && r.name == (if Is(segs, 2, "total") then "disks/io_throughput_total/" else "disks/io_throughput/")
                          + SrLabel(idx, Str(At(segs, 3))) + "/" + Str(At(segs, 2)) + "[bytes/second]"))
      && ((segs[0] == "write" || segs[0] == "read") && Is(segs, 1, "latency") ==>
            (&& r.value == value / 1000.0
             && r.name == "disks/latency/" + SrLabel(idx, Str(At(segs, 2))) + "/" + segs[0] + "[ms]"))
      && ((segs[0] == "write" || segs[0] == "read") && !Is(segs, 1, "latency") ==>
            (&& r.value == value
             && r.name == "disks/write_read/" + SrLabel(idx, Str(At(segs, 1))) + "/" + segs[0] + "[bytes/second]"))
      && (segs[0] == "iops" ==>
            (&& r.value == value
             && r.name == (if Is(segs, 1, "total") then "disks/iops_total/" else "disks/iops/")
                          + SrLabel(idx, Str(At(segs, 2))) + "/" + Str(At(segs, 1)) + "[requests/second]"))
      && (segs[0] == "inflight" ==>
            (r.value == value && r.name == "disks/inflight/" + SrLabel(idx, Str(At(segs, 1))) + "[requests]"))
      && (segs[0] == "iowait" ==>
            (r.value == value && r.name == "disks/iowait/" + SrLabel(idx, Str(At(segs, 1))) + "[second/second]"))
  {
    NotCpuHead(segs[0]);
  }

  /** The "io_errors" test of the host-disk branch can never succeed: no segment produced by
      splitting a path on '_' contains '_'. */
  lemma IoErrorsHeadUnreachable(path: string)
    ensures Split(path, '_')[0] != "io_errors"
  {
    assert "io_errors"[2] == '_';
  }

  /** How a host key's path `io_errors_<x>` splits. */
  lemma IoErrorsSegments(x: string)
    requires '_' !in x
    ensures Split("io_errors_" + x, '_') == ["io", "errors", x]
  {
    var parts := ["io", "errors", x];
    assert parts[1..][1..] == [x];
    assert Join(parts[1..], '_') == "errors" + "_" + x;
    assert Join(parts, '_') == "io_errors_" + x;
    SplitOfJoin(parts, '_');
  }

  /** Instead, a host counter `io_errors_<x>` is read as throughput: "errors" fills the slot
      of "throughput" and never reaches the name, the third segment `x` is taken as the
      direction (and decides the total test), there is no fourth segment so the SR short id
      is "undefined", and the value is scaled like throughput. */
  lemma IoErrorsReadAsThroughput(idx: Index, id: string, x: string, value: real)
    requires '_' !in x
    ensures Classify(idx, Entity("host", id), Split("io_errors_" + x, '_'), value)
        == Emit((if x == "total" then "disks/io_throughput_total/" else "disks/io_throughput/")
                + SrLabel(idx, "undefined") + "/" + x + "[bytes/second]",
                Round2(value * 1048580.0), None)
  {
    IoErrorsSegments(x);
    var segs := ["io", "errors", x];
    NotCpuHead("io");
    assert HostDisk(idx, segs, value)
      == Emit((if x == "total" then "disks/io_throughput_total/" else "disks/io_throughput/") + SrLabel(idx, Str(At(segs, 3))) + "/" + Str(At(segs, 2)) + "[bytes/second]",
              Round2(value * 1048580.0), None);
  }

  /** VM disk counters are named by the device segment itself, so they do not depend on the
      index at all; the iops total test reads the device segment and the throughput total
      test the fifth segment. A counter whose third segment is missing or none of `inflight`,
      `iowait`, `iops`, `io`, `write` and `read` is dropped. */
  lemma VbdRule(idx1: Index, idx2: Index, id: string, segs: seq<string>, value: real)
    requires |segs| >= 1 && segs[0] == "vbd"
    ensures Classify(idx1, Entity("vm", id), segs, value) == Classify(idx2, Entity("vm", id), segs, value)
    ensures var r := Classify(idx1, Entity("vm", id), segs, value);
      && r.Emit? && r.bucket.None?
      && (Is(segs, 2, "iops") ==>
            (&& r.value == value
             && r.name == (if Is(segs, 1, "total") then "disks/iops_total/" else "disks/iops/")
                          + Str(At(segs, 1)) + "/" + Str(At(segs, 3)) + "[requests/second]"))
      && (Is(segs, 2, "io") ==>
            (&& r.value == Round2(value * 1048580.0)
             && r.name == (if Is(segs, 4, "total") then "disks/io_throughput_total/" else "disks/io_throughput/")
                          + Str(At(segs, 1)) + "/" + Str(At(segs, 4)) + "[bytes/second]"))
      && (Is(segs, 2, "inflight") ==>
            r.value == value && r.name == "disks/inflight/" + Str(At(segs, 1)) + "[requests]")
      && (Is(segs, 2, "iowait") ==>
            r.value == value && r.name == "disks/iowait/" + Str(At(segs, 1)) + "[second/second]")
      && ((Is(segs, 2, "write") || Is(segs, 2, "read")) && Is(segs, 3, "latency") ==>
            (&& r.value == value / 1000.0
             && r.name == "disks/latency/" + Str(At(segs, 1)) + "/" + segs[2] + "[ms]"))
      && ((Is(segs, 2, "write") || Is(segs, 2, "read")) && !Is(segs, 3, "latency") ==>
            (&& r.value == value
             && r.name == "disks/write_read/" + Str(At(segs, 1)) + "/" + segs[2] + "[bytes/second]"))
      && (!Is(segs, 2, "inflight") && !Is(segs, 2, "iowait") && !Is(segs, 2, "iops") && !Is(segs, 2, "io")
          && !Is(segs, 2, "write") && !Is(segs, 2, "read")
          ==> r.value == value && r.name == "")
  {
    NotCpuHead(segs[0]);
    assert Classify(idx1, Entity("vm", id), segs, value) == Vbd(segs, value);
  }

  /** Memory: a host reports kilobytes (times 1000, floored) and a VM bytes (floored). The
      host's "reclaimed" counter is dropped; a VM's bare `memory` is its total and
      `memory_internal_free` its free memory. Every other memory counter is dropped. */
  lemma MemoryRule(idx: Index, e: Entity, segs: seq<string>, value: real)
    requires |segs| >= 1 && segs[0] == "memory"
    ensures var r := Classify(idx, e, segs, value);
      && r.Emit? && r.bucket.None?
      && (e.kind == "host" ==> r.value == Floor(value * 1000.0))
      && (e.kind == "vm" ==> r.value == Floor(value))
      && (e.kind == "host" && Is(segs, 1, "reclaimed") ==> r.name == "")
      && (e.kind == "host" && Is(segs, 1, "total") ==> r.name == "memory/total[bytes]")
      && (e.kind == "host" && Is(segs, 1, "free") ==> r.name == "memory/free[bytes]")
      && (e.kind == "vm" && |segs| == 1 ==> r.name == "memory/total[bytes]")
      && (e.kind == "vm" && Is(segs, 1, "internal") ==> r.name == "memory/free[bytes]")
      && (e.kind == "host" && !Is(segs, 1, "reclaimed") && !Is(segs, 1, "total") && !Is(segs, 1, "free")
          ==> r.name == "")
      && (e.kind == "vm" && |segs| > 1 && !Is(segs, 1, "internal") ==> r.name == "")
      && (e.kind != "host" && e.kind != "vm" ==> r.name == "")
  {
    NotCpuHead(segs[0]);
  }

  /** A host's memory total or free counter in kilobytes is stored in bytes under
      `memory/total` or `memory/free`. */
  lemma HostMemoryCounter(idx: Index, h: string, segs: seq<string>, which: string, value: real)
    requires segs == ["memory", which, "kib"] && (which == "total" || which == "free")
    ensures Classify(idx, Entity("host", h), segs, value)
      == Emit(if which == "total" then "memory/total[bytes]" else "memory/free[bytes]", Floor(value * 1000.0), None)
  {
    MemoryRule(idx, Entity("host", h), segs, value);
    if which == "total" {
      assert Is(segs, 1, "total");
    } else {
      assert !Is(segs, 1, "reclaimed") && !Is(segs, 1, "total") && Is(segs, 1, "free");
    }
  }

  /** The xapi process: its memory counters are kilobytes turned into bytes and floored,
      its open file descriptors are kept as they are, and any other counter is dropped
      (newrelic_xenserver.js:624-644). */
  lemma XapiRule(idx: Index, e: Entity, segs: seq<string>, value: real)
    requires |segs| >= 1 && segs[0] == "xapi"
    ensures var r := Classify(idx, e, segs, value);
      && r.Emit? && r.bucket.None?
      && (Is(segs, 1, "open") ==> r.name == "xapi/open_fds[fds]" && r.value == value)
      && (Is(segs, 1, "memory") ==> r.name == "xapi/memory/usage[bytes]" && r.value == Floor(value * 1000.0))
      && (Is(segs, 1, "free") ==> r.name == "xapi/memory/free[bytes]" && r.value == Floor(value * 1000.0))
      && (Is(segs, 1, "live") ==> r.name == "xapi/memory/live[bytes]" && r.value == Floor(value * 1000.0))
      && (Is(segs, 1, "allocation") ==>
            r.name == "xapi/memory/allocation[bytes]" && r.value == Floor(value * 1000.0))
      && ((!Is(segs, 1, "open") && !Is(segs, 1, "memory") && !Is(segs, 1, "free") && !Is(segs, 1, "live")
           && !Is(segs, 1, "allocation"))
          ==> r.name == "")
  {
    NotCpuHead(segs[0]);
    assert !IsHostDiskHead(segs[0]);
    assert Classify(idx, e, segs, value) == Xapi(segs, value);
  }

  /** Pool counters and the load average pass through unscaled: `pool_task` and
      `pool_session` are the pool's tasks and sessions, any other pool counter is dropped,
      and `loadavg` is the load average (newrelic_xenserver.js:649-661). */
  lemma PoolLoadavgRule(idx: Index, e: Entity, segs: seq<string>, value: real)
    requires |segs| >= 1 && (segs[0] == "pool" || segs[0] == "loadavg")
    ensures var r := Classify(idx, e, segs, value);
      && r.Emit? && r.bucket.None? && r.value == value
      && (segs[0] == "pool" && Is(segs, 1, "task") ==> r.name == "pool/tasks[tasks]")
      && (segs[0] == "pool" && Is(segs, 1, "session") ==> r.name == "pool/session[sessions]")
      && (segs[0] == "pool" && !Is(segs, 1, "task") && !Is(segs, 1, "session") ==> r.name == "")
      && (segs[0] == "loadavg" ==> r.name == "loadavg/Load Average[Load Average]")
  {
    NotCpuHead(segs[0]);
    assert !IsHostDiskHead(segs[0]);
    if segs[0] == "pool" {
      assert Classify(idx, e, segs, value) == Pool(segs, value);
    }
  }

  /** Counters the engine deliberately drops: Tapdisks, the host's reclaimed memory,
      hyphenated per-core CPU variants. Their name is empty, so nothing is stored. */
  lemma DroppedCounters(idx: Index, e: Entity, segs: seq<string>, value: real)
    requires |segs| >= 1
    requires || segs[0] == "Tapdisks"
             || (segs[0] == "memory" && e.kind == "host" && Is(segs, 1, "reclaimed"))
             || (IsCpuHead(segs[0]) && segs[0] != "cpu" && '-' in segs[0])
    ensures Classify(idx, e, segs, value).Emit? && Classify(idx, e, segs, value).name == ""
  {
    var first := segs[0];
    if first == "Tapdisks" {
      NotCpuHead(first);
      assert !IsHostDiskHead(first);
    } else if first == "memory" {
      NotCpuHead(first);
      assert !IsHostDiskHead(first);
      assert Classify(idx, e, segs, value) == MemoryMetric(e.kind, segs, value);
    } else {
      SplitHasSecondPart(first, '-');
      assert Classify(idx, e, segs, value) == CpuMetric(segs, value);
    }
  }

  /** Only virtual-interface traffic and lone per-core CPU values are pushed on buckets. */
  lemma BucketSources(idx: Index, e: Entity, segs: seq<string>, value: real)
    requires Classify(idx, e, segs, value).Emit? && Classify(idx, e, segs, value).bucket.Some?
    ensures |segs| >= 1
    ensures Classify(idx, e, segs, value).bucket == Some(Cpu) ==> IsCpuHead(segs[0]) && |segs| == 1
    ensures Classify(idx, e, segs, value).bucket != Some(Cpu) ==> segs[0] == "vif"
  {
  }

  /** The segments after the first that the catch-all keeps: all but "kib". */
  function Kept(rest: seq<string>): (r: seq<string>)
    decreases |rest|
  {
    if |rest| == 0 then []
    else Kept(rest[..|rest| - 1]) + (if rest[|rest| - 1] == "kib" then [] else [rest[|rest| - 1]])
  }

  /** The catch-all name is the kept segments joined by '/'. */
  lemma {:induction false} FallbackNameIsJoin(first: string, rest: seq<string>)
    ensures first + KeptTail(rest) == Join([first] + Kept(rest), '/')
    decreases |rest|
  {
    if |rest| > 0 {
      var front := rest[..|rest| - 1];
      var last := rest[|rest| - 1];
      FallbackNameIsJoin(first, front);
      if last != "kib" {
        JoinSnoc([first] + Kept(front), last, '/');
        assert [first] + Kept(rest) == [first] + Kept(front) + [last];
      } else {
        assert Kept(rest) == Kept(front);
      }
    }
  }

  /** Splitting a catch-all name on '/' gives back the first segment and every later
      segment other than "kib", in order, provided no segment contains '/'. */
  lemma FallbackRoundTrip(segs: seq<string>)
    requires |segs| >= 1
    requires forall i :: 0 <= i < |segs| ==> '/' !in segs[i]
    ensures Split(FallbackName(segs), '/') == [segs[0]] + Kept(segs[1..])
  {
    FallbackNameIsJoin(segs[0], segs[1..]);
    KeptFrom(segs[1..]);
    SplitOfJoin([segs[0]] + Kept(segs[1..]), '/');
  }

  /** Every kept segment is a segment, never "kib". */
  lemma {:induction false} KeptFrom(rest: seq<string>)
    ensures forall i :: 0 <= i < |Kept(rest)| ==> Kept(rest)[i] in rest && Kept(rest)[i] != "kib"
    decreases |rest|
  {
    if |rest| > 0 {
      KeptFrom(rest[..|rest| - 1]);
    }
  }

  /** Unrecognised counters pass through under the catch-all name; the disk heads count as
      recognised only for the kind of entity whose branch tests them. */
  lemma FallbackRule(idx: Index, e: Entity, segs: seq<string>, value: real)
    requires |segs| >= 1
    requires segs[0] !in {"vif", "pif", "memory", "xapi", "pool", "loadavg", "Tapdisks"}
    requires !IsCpuHead(segs[0])
    requires e.kind == "host" ==> !IsHostDiskHead(segs[0])
    requires e.kind == "vm" ==> segs[0] != "vbd"
    ensures Classify(idx, e, segs, value) == Emit(FallbackName(segs), value, None)
  {
  }

  /** The scaling of the examples: a network reading of 1.23456 bytes/second is 9.88 bits
      per second, a disk throughput of 2 MiB/second is 2097160 bytes/second, and a read
      latency of 1500 microseconds is 1.5 ms. */
  lemma ScaleExamples(idx: Index, vm: string, host: string, short: string)
    ensures Classify(idx, Entity("vm", vm), ["vif", "0", "rx"], 1.23456).value == 9.88
    ensures Classify(idx, Entity("host", host), ["io", "throughput", "read", short], 2.0).value == 2097160.0
    ensures Classify(idx, Entity("host", host), ["read", "latency", short], 1500.0).value == 1.5
  {
    assert (987.648 + 0.5).Floor == 988;
    assert (209716000.0 + 0.5).Floor == 209716000;
    NotCpuHead("io");
    NotCpuHead("read");
  }
}
