/**
 * The batch step of newrelic_xenserver.js: `parseXenMetrics(uuidHost, metrics)`
 * (newrelic_xenserver.js:368-732) files every admitted, classified sample of one host's batch
 * into the process-wide `parsedMetrics` (newrelic_xenserver.js:107), collects network and CPU
 * values in per-entity buckets, and then derives memory use, network totals and the CPU
 * average for every entity it touched. `parsedMetrics` is never cleared: values from earlier
 * batches stay until a later sample overwrites them.
 *
 * The specification is `ParseBatch`, a function of the old `parsedMetrics`, the index, the
 * host and the batch; `MetricStore.ParseXenMetrics` is the loop that the source runs, proved
 * to compute it.
 */
module Engine {
  import opened Wrappers
  import opened JsStrings
  import opened Helpers
  import opened Inventory
  import opened Classify

  /** The grouping token in front of every stored metric name. */
  const ComponentPrefix := "Component/"

  const TotalKey := "Component/memory/total[bytes]"
  const FreeKey := "Component/memory/free[bytes]"
  const UsedKey := "Component/memory/used[bytes]"
  const PercentKey := "Component/memory_percent/used[%]"
  const RxTotalKey := "Component/network/total/rx[bits/second]"
  const TxTotalKey := "Component/network/total/tx[bits/second]"
  const CpuAverageKey := "Component/cpu/cpuAverage/Average CPU[%]"

  /** One entity's metrics: `parsedMetrics[type][uuid]`. */
  type Metrics = map<string, real>

  /** All of `parsedMetrics`, one entry per entity. */
  type MetricSet = map<Entity, Metrics>

  /** `summaryData[type][uuid]`: the values pushed this batch; a list the source never
      created is empty here. */
  datatype Buckets = Buckets(rx: seq<real>, tx: seq<real>, cpu: seq<real>)

  function BucketsOf(b: map<Entity, Buckets>, e: Entity): Buckets
  {
    if e in b then b[e] else Buckets([], [], [])
  }

  /** Pushing `v` on one of the entity's buckets; every other bucket is unchanged. */
  function Push(b: map<Entity, Buckets>, e: Entity, which: Option<Bucket>, v: real): (r: map<Entity, Buckets>)
    ensures forall e' :: e' != e ==> BucketsOf(r, e') == BucketsOf(b, e')
    ensures which.None? ==> r == b
    ensures which == Some(NetworkRx) ==> BucketsOf(r, e) == BucketsOf(b, e).(rx := BucketsOf(b, e).rx + [v])
    ensures which == Some(NetworkTx) ==> BucketsOf(r, e) == BucketsOf(b, e).(tx := BucketsOf(b, e).tx + [v])
    ensures which == Some(Cpu) ==> BucketsOf(r, e) == BucketsOf(b, e).(cpu := BucketsOf(b, e).cpu + [v])
  {
    var lists := BucketsOf(b, e);
    match which
    case None => b
    case Some(NetworkRx) => b[e := lists.(rx := lists.rx + [v])]
    case Some(NetworkTx) => b[e := lists.(tx := lists.tx + [v])]
    case Some(Cpu) => b[e := lists.(cpu := lists.cpu + [v])]
  }

  /** `parsedMetrics[type][uuid][key] = v`, creating the entity's map when it is new: the
      write overwrites that one key and leaves everything else as it was. */
  function Store(ms: MetricSet, e: Entity, key: string, v: real): (r: MetricSet)
    ensures e in r && key in r[e] && r[e][key] == v
    ensures forall k :: k in r[e] <==> k == key || (e in ms && k in ms[e])
    ensures e in ms ==> forall k :: k in ms[e] && k != key ==> r[e][k] == ms[e][k]
    ensures forall e' :: e' != e ==> (e' in r <==> e' in ms)
    ensures forall e' :: e' != e && e' in ms ==> r[e'] == ms[e']
  {
    var m := if e in ms then ms[e] else map[];
    ms[e := m[key := v]]
  }

  /** `a` only grows into `b`: no entity and no metric of an entity is lost. */
  ghost predicate Extends(a: MetricSet, b: MetricSet)
  {
    && a.Keys <= b.Keys
    && forall e :: e in a ==> a[e].Keys <= b[e].Keys
  }

  /** `a` and `b` agree about entity `e`. */
  ghost predicate SameAt(a: MetricSet, b: MetricSet, e: Entity)
  {
    (e in a <==> e in b) && (e in a ==> a[e] == b[e])
  }

  // ---------------------------------------------------------------------------------------
  // The first loop: one sample at a time
  // ---------------------------------------------------------------------------------------

  /** What the body of the first loop makes of one sample: nothing when the sample is not
      admitted; the TypeError when its key has no path field; otherwise a value filed under
      an entity, stored under `name` unless the name is empty, and pushed on `bucket` if there
      is one. */
  datatype Filing =
    | Ignored
    | Raises
    | Filed(e: Entity, name: string, value: real, bucket: Option<Bucket>)

  /** Decoding, admitting and classifying the sample `key -> value`
      (newrelic_xenserver.js:375-692, before anything is written). */
  function FileSample(idx: Index, host: string, key: string, value: real): (f: Filing)
    ensures f.Ignored? <==> !Admit(idx, host, Decode(key))
    ensures f.Raises? <==> Admit(idx, host, Decode(key)) && Decode(key).path.None?
    ensures f.Filed? ==> f.e == EntityOf(Decode(key))
  {
    var d := Decode(key);
    if !Admit(idx, host, d) then Ignored
    else
      match Classify.Classify(idx, EntityOf(d), Segments(d), value)
      case Throws => Raises
      case Emit(name, v, bucket) => Filed(EntityOf(d), name, v, bucket)
  }

  /** The samples of a batch, one filing per key in `Object.keys` order. */
  function FileAll(idx: Index, host: string, keys: seq<string>, table: map<string, real>): (fs: seq<Filing>)
    requires forall i :: 0 <= i < |keys| ==> keys[i] in table
    ensures |fs| == |keys|
    ensures forall i {:trigger fs[i]} :: 0 <= i < |keys| ==> fs[i] == FileSample(idx, host, keys[i], table[keys[i]])
  {
    seq(|keys|, i requires 0 <= i < |keys| => FileSample(idx, host, keys[i], table[keys[i]]))
  }

  /** The filings of the first `j` keys are the first `j` filings. */
  lemma FileAllPrefix(idx: Index, host: string, keys: seq<string>, table: map<string, real>, j: nat)
    requires forall i :: 0 <= i < |keys| ==> keys[i] in table
    requires j <= |keys|
    ensures FileAll(idx, host, keys[..j], table) == FileAll(idx, host, keys, table)[..j]
  {
    var fs := FileAll(idx, host, keys, table);
    var ps := FileAll(idx, host, keys[..j], table);
    forall i | 0 <= i < j
      ensures ps[i] == fs[..j][i]
    {
      assert keys[..j][i] == keys[i];
    }
  }

  /** The state of `parseXenMetrics` between samples: `parsedMetrics`, the entities touched
      this batch (`updateMetrics`), the buckets (`summaryData`) and whether the TypeError for
      a key without a path has been raised. */
  datatype Scratch = Scratch(parsed: MetricSet, touched: set<Entity>, buckets: map<Entity, Buckets>, aborted: bool)

  /** The writes of one iteration of the first loop (newrelic_xenserver.js:375-692): a filed
      value is pushed on its bucket and stored under its entity, which counts as touched;
      every other entity is left alone. */
  function Step(s: Scratch, f: Filing): (r: Scratch)
    ensures f.Ignored? ==> r == s
    ensures r.aborted <==> s.aborted || f.Raises?
    ensures Extends(s.parsed, r.parsed)
    ensures s.touched <= r.touched
    ensures s.touched <= s.parsed.Keys ==> r.touched <= r.parsed.Keys
    ensures f.Filed? && f.name == "" ==> r.parsed == s.parsed && r.touched == s.touched
  {
    match f
    case Ignored => s
    case Raises => s.(aborted := true)
    case Filed(e, name, v, bucket) =>
      var s1 := s.(buckets := Push(s.buckets, e, bucket, v));
      if name == "" then s1
      else s1.(parsed := Store(s1.parsed, e, ComponentPrefix + name, v), touched := s1.touched + {e})
  }

  /** A filing leaves every entity other than its own as it was. */
  lemma StepFrame(s: Scratch, f: Filing, e: Entity)
    requires !(f.Filed? && f.e == e)
    ensures var r := Step(s, f);
      SameAt(s.parsed, r.parsed, e) && (e in r.touched <==> e in s.touched)
      && BucketsOf(r.buckets, e) == BucketsOf(s.buckets, e)
  {
  }

  /** The first loop over the filings `fs`, stopping at the first TypeError. */
  function Collect(fs: seq<Filing>, s0: Scratch): (s: Scratch)
    ensures Extends(s0.parsed, s.parsed)
    ensures s0.touched <= s.touched
    ensures s0.touched <= s0.parsed.Keys ==> s.touched <= s.parsed.Keys
    ensures s0.aborted ==> s == s0
    decreases |fs|
  {
    if |fs| == 0 then s0
    else
      var prev := Collect(fs[..|fs| - 1], s0);
      if prev.aborted then prev else Step(prev, fs[|fs| - 1])
  }

  /** The first loop over one more filing. */
  lemma CollectSnoc(fs: seq<Filing>, s0: Scratch, i: nat)
    requires i < |fs|
    ensures var prev := Collect(fs[..i], s0);
      Collect(fs[..i + 1], s0) == if prev.aborted then prev else Step(prev, fs[i])
  {
    assert fs[..i + 1][..i] == fs[..i];
  }

  /** The state at the start of a batch: `parsedMetrics` as earlier batches left it. */
  function Start(parsed: MetricSet): Scratch
  {
    Scratch(parsed, {}, map[], false)
  }

  /** The first loop over a whole batch. */
  function Gather(idx: Index, host: string, metrics: JsObject, parsed: MetricSet): Scratch
    requires metrics.Valid()
  {
    Collect(FileAll(idx, host, metrics.keys, metrics.table), Start(parsed))
  }

  // ---------------------------------------------------------------------------------------
  // The second loop: derived metrics
  // ---------------------------------------------------------------------------------------

  /** The test at newrelic_xenserver.js:707: both memory readings present and non-negative. */
  predicate MemoryKnown(m: Metrics)
  {
    TotalKey in m && FreeKey in m && m[TotalKey] >= 0.0 && m[FreeKey] >= 0.0
  }

  /** Memory used and percent used (newrelic_xenserver.js:707-710), unrounded. The percent of a
      zero total is not a real number and is not written. */
  function PostMemory(m: Metrics): (r: Metrics)
    ensures MemoryKnown(m) ==> UsedKey in r && r[UsedKey] == m[TotalKey] - m[FreeKey]
    ensures MemoryKnown(m) && m[TotalKey] > 0.0 ==>
      PercentKey in r && r[PercentKey] == (m[TotalKey] - m[FreeKey]) / m[TotalKey] * 100.0
    ensures !MemoryKnown(m) ==> r == m
    ensures forall k :: k != UsedKey && (k != PercentKey || !MemoryKnown(m) || m[TotalKey] == 0.0) ==>
      (k in r <==> k in m) && (k in m ==> r[k] == m[k])
    ensures r.Keys >= m.Keys
  {
    if MemoryKnown(m) then
      var withUsed := m[UsedKey := m[TotalKey] - m[FreeKey]];
      if withUsed[TotalKey] != 0.0 then withUsed[PercentKey := withUsed[UsedKey] / withUsed[TotalKey] * 100.0]
      else withUsed
    else m
  }

  /** A VM's network totals and CPU average (newrelic_xenserver.js:712-722): each written only
      when its bucket has values, rounded to two decimals. */
  function PostVm(m: Metrics, b: Buckets): (r: Metrics)
    ensures |b.rx| > 0 ==> RxTotalKey in r && r[RxTotalKey] == Round2(SeqSum(b.rx))
    ensures |b.tx| > 0 ==> TxTotalKey in r && r[TxTotalKey] == Round2(SeqSum(b.tx))
    ensures |b.cpu| > 0 ==> CpuAverageKey in r && r[CpuAverageKey] == Round2(Mean(b.cpu))
    ensures forall k ::
      (k != RxTotalKey || |b.rx| == 0) && (k != TxTotalKey || |b.tx| == 0) && (k != CpuAverageKey || |b.cpu| == 0)
      ==> (k in r <==> k in m) && (k in m ==> r[k] == m[k])
    ensures r.Keys >= m.Keys
  {
    var m1 := if |b.rx| > 0 then m[RxTotalKey := Round2(SeqSum(b.rx))] else m;
    var m2 := if |b.tx| > 0 then m1[TxTotalKey := Round2(SeqSum(b.tx))] else m1;
    if |b.cpu| > 0 then m2[CpuAverageKey := Round2(Mean(b.cpu))] else m2
  }

  /** Post-processing of one touched entity: memory used and percent for every entity, and
      for a VM the network totals and the CPU average of its buckets; every other metric is
      kept. */
  function PostProcess(m: Metrics, b: Buckets, isVm: bool): (r: Metrics)
    ensures MemoryKnown(m) ==> UsedKey in r && r[UsedKey] == m[TotalKey] - m[FreeKey]
    ensures MemoryKnown(m) && m[TotalKey] > 0.0 ==>
      PercentKey in r && r[PercentKey] == (m[TotalKey] - m[FreeKey]) / m[TotalKey] * 100.0
    ensures isVm && |b.rx| > 0 ==> RxTotalKey in r && r[RxTotalKey] == Round2(SeqSum(b.rx))
    ensures isVm && |b.tx| > 0 ==> TxTotalKey in r && r[TxTotalKey] == Round2(SeqSum(b.tx))
    ensures isVm && |b.cpu| > 0 ==> CpuAverageKey in r && r[CpuAverageKey] == Round2(Mean(b.cpu))
    ensures forall k ::
      (k != UsedKey && k != PercentKey && (isVm ==> k != RxTotalKey && k != TxTotalKey && k != CpuAverageKey))
      ==> (k in r <==> k in m) && (k in m ==> r[k] == m[k])
    ensures r.Keys >= m.Keys
  {
    if isVm then PostVm(PostMemory(m), b) else PostMemory(m)
  }

  /** The second loop over every touched entity (newrelic_xenserver.js:700-728). */
  function PostAll(parsed: MetricSet, touched: set<Entity>, buckets: map<Entity, Buckets>): (r: MetricSet)
    ensures Extends(parsed, r)
    ensures r.Keys == parsed.Keys
    ensures forall e :: e in parsed && e !in touched ==> r[e] == parsed[e]
    ensures forall e :: e in parsed && e in touched && MemoryKnown(parsed[e]) ==>
      UsedKey in r[e] && r[e][UsedKey] == parsed[e][TotalKey] - parsed[e][FreeKey]
    ensures forall e :: e in parsed && e in touched && MemoryKnown(parsed[e]) && parsed[e][TotalKey] > 0.0 ==>
      PercentKey in r[e]
      && r[e][PercentKey] == (parsed[e][TotalKey] - parsed[e][FreeKey]) / parsed[e][TotalKey] * 100.0
    ensures forall e :: e in parsed && e in touched && e.kind == "vm" && |BucketsOf(buckets, e).rx| > 0 ==>
      RxTotalKey in r[e] && r[e][RxTotalKey] == Round2(SeqSum(BucketsOf(buckets, e).rx))
    ensures forall e :: e in parsed && e in touched && e.kind == "vm" && |BucketsOf(buckets, e).tx| > 0 ==>
      TxTotalKey in r[e] && r[e][TxTotalKey] == Round2(SeqSum(BucketsOf(buckets, e).tx))
    ensures forall e :: e in parsed && e in touched && e.kind == "vm" && |BucketsOf(buckets, e).cpu| > 0 ==>
      CpuAverageKey in r[e] && r[e][CpuAverageKey] == Round2(Mean(BucketsOf(buckets, e).cpu))
  {
    map e | e in parsed :: if e in touched then PostProcess(parsed[e], BucketsOf(buckets, e), e.kind == "vm") else parsed[e]
  }

  /** What `parseXenMetrics` leaves in `parsedMetrics`: the first loop's writes, followed by the
      derived metrics unless a TypeError ended the call first. */
  function ParseBatch(idx: Index, host: string, metrics: JsObject, parsed: MetricSet): MetricSet
    requires metrics.Valid()
  {
    Finish(FileAll(idx, host, metrics.keys, metrics.table), parsed)
  }

  /** Both loops over the filings `fs` of a batch. */
  function Finish(fs: seq<Filing>, parsed: MetricSet): MetricSet
  {
    var s := Collect(fs, Start(parsed));
    if s.aborted then s.parsed else PostAll(s.parsed, s.touched, s.buckets)
  }

  // ---------------------------------------------------------------------------------------
  // The global store and the two loops as the source runs them
  // ---------------------------------------------------------------------------------------

  /** The New Relic component for one entity (newrelic_xenserver.js:765-769). */
  datatype Component = Component(name: string, guid: string, duration: int, metrics: Metrics)

  const Guid := "com.mobilenations.xen-hosts"
  const Duration := 60

  /** The body of the second loop for one entity (newrelic_xenserver.js:704-726): memory
      first, then, for a VM, the bucket totals and the CPU average. */
  method PostProcessOne(m0: Metrics, b: Buckets, isVm: bool) returns (m: Metrics)
    ensures m == PostProcess(m0, b, isVm)
  {
    m := PostMemoryOne(m0);
    if isVm {
      m := PostVmOne(m, b);
    }
  }

  /** Memory used and percent used of one entity (newrelic_xenserver.js:707-710). */
  method PostMemoryOne(m0: Metrics) returns (m: Metrics)
    ensures m == PostMemory(m0)
  {
    m := m0;
    if TotalKey in m && FreeKey in m && m[TotalKey] >= 0.0 && m[FreeKey] >= 0.0 {
      m := m[UsedKey := m[TotalKey] - m[FreeKey]];
      if m[TotalKey] != 0.0 {
        m := m[PercentKey := m[UsedKey] / m[TotalKey] * 100.0];
      }
    }
  }

  /** A VM's bucket totals through `sum` and its CPU average through `average`
      (newrelic_xenserver.js:712-722). */
  method PostVmOne(m0: Metrics, b: Buckets) returns (m: Metrics)
    ensures m == PostVm(m0, b)
  {
    m := m0;
    if |b.rx| > 0 {
      var total := Sum(b.rx);
      m := m[RxTotalKey := total];
    }
    if |b.tx| > 0 {
      var total := Sum(b.tx);
      m := m[TxTotalKey := total];
    }
    if |b.cpu| > 0 {
      var avg := Average(b.cpu);
      m := m[CpuAverageKey := avg];
    }
  }

  class MetricStore {
    /** `parsedMetrics` */
    var parsed: MetricSet

    /** The empty store of process start-up. */
    constructor ()
      ensures parsed == map[]
    {
      parsed := map[];
    }

    /** `parseXenMetrics(uuidHost, metrics)`. `completed` is false when a processed key had no
        path field and the source's TypeError ended the call; the writes made before it
        stay in place. */
    method ParseXenMetrics(idx: Index, uuidHost: string, metrics: JsObject) returns (completed: bool)
      requires metrics.Valid()
      modifies this
      ensures parsed == ParseBatch(idx, uuidHost, metrics, old(parsed))
      ensures completed <==> forall i :: 0 <= i < |metrics.keys| ==> !RaisesTypeError(idx, uuidHost, metrics.keys[i])
    {
      var keys := metrics.keys;
      ghost var fs := FileAll(idx, uuidHost, keys, metrics.table);
      var touched: set<Entity> := {};
      var buckets: map<Entity, Buckets> := map[];
      ghost var init := Start(parsed);
      FileAllAborts(idx, uuidHost, keys, metrics.table, parsed);
      completed := true;
      var i := 0;
      while i < |keys| && completed
        invariant 0 <= i <= |keys|
        invariant Scratch(parsed, touched, buckets, !completed) == Collect(fs[..i], init)
      {
        var key := keys[i];
        var value := metrics.table[key];
        var f := FileSample(idx, uuidHost, key, value);
        if f.Raises? {
          completed := false;
        } else if f.Filed? {
          touched, buckets := File(f, touched, buckets);
        }
        assert f == fs[i];
        CollectSnoc(fs, init, i);
        i := i + 1;
      }
      if !completed {
        AbortIsFinal(fs, init, i);
        return;
      }
      assert fs[..|fs|] == fs;
      PostProcessAll(touched, buckets);
    }

    /** The writes of one iteration of the first loop for a filed sample
        (newrelic_xenserver.js:375-692): the value is pushed on its bucket, if any, and
        stored under the entity, which is then touched, unless the metric name is empty. */
    method File(f: Filing, touched: set<Entity>, buckets: map<Entity, Buckets>)
      returns (touched': set<Entity>, buckets': map<Entity, Buckets>)
      requires f.Filed?
      modifies this
      ensures Scratch(parsed, touched', buckets', false) == Step(Scratch(old(parsed), touched, buckets, false), f)
    {
      var e, name, v := f.e, f.name, f.value;
      var b := BucketsOf(buckets, e);
      buckets' := buckets;
      match f.bucket {
        case None =>
        case Some(NetworkRx) => buckets' := buckets[e := b.(rx := b.rx + [v])];
        case Some(NetworkTx) => buckets' := buckets[e := b.(tx := b.tx + [v])];
        case Some(Cpu) => buckets' := buckets[e := b.(cpu := b.cpu + [v])];
      }
      assert buckets' == Push(buckets, e, f.bucket, v);
      touched' := touched;
      if name != "" {
        var m := if e in parsed then parsed[e] else map[];
        parsed := parsed[e := m[ComponentPrefix + name := v]];
        assert parsed == Store(old(parsed), e, ComponentPrefix + name, v);
        touched' := touched + {e};
      }
    }

    /** The second loop of `parseXenMetrics`, run over the entities the first loop touched. */
    method PostProcessAll(touched: set<Entity>, buckets: map<Entity, Buckets>)
      requires touched <= parsed.Keys
      modifies this
      ensures parsed == PostAll(old(parsed), touched, buckets)
    {
      ghost var p0 := parsed;
      var todo := touched;
      assert touched - todo == {};
      PostAllNone(p0, buckets);
      while todo != {}
        invariant todo <= touched
        invariant parsed == PostAll(p0, touched - todo, buckets)
        decreases |todo|
      {
        var e :| e in todo;
        var m := PostProcessOne(parsed[e], BucketsOf(buckets, e), e.kind == "vm");
        PostAllStep(p0, touched - todo, buckets, e);
        parsed := parsed[e := m];
        assert touched - (todo - {e}) == (touched - todo) + {e};
        todo := todo - {e};
      }
      assert touched - todo == touched;
    }

    /** The components `newrelicPost` builds from `parsedMetrics` (newrelic_xenserver.js:747-773):
        one per entity, in some order, each named by the index and carrying the entity's
        metrics. */
    method Components(idx: Index) returns (order: seq<Entity>, comps: seq<Component>)
      ensures forall i, j :: 0 <= i < j < |order| ==> order[i] != order[j]
      ensures forall e :: e in order <==> e in parsed
      ensures |comps| == |order|
      ensures forall i :: 0 <= i < |order| ==>
        comps[i] == Component(ComponentName(idx, order[i].kind, order[i].id), Guid, Duration, parsed[order[i]])
    {
      order, comps := [], [];
      var todo := parsed.Keys;
      while todo != {}
        invariant todo <= parsed.Keys
        invariant forall e :: e in order <==> e in parsed && e !in todo
        invariant forall i, j :: 0 <= i < j < |order| ==> order[i] != order[j]
        invariant |comps| == |order|
        invariant forall i :: 0 <= i < |order| ==>
          comps[i] == Component(ComponentName(idx, order[i].kind, order[i].id), Guid, Duration, parsed[order[i]])
        decreases |todo|
      {
        var e :| e in todo;
        comps := comps + [Component(ComponentName(idx, e.kind, e.id), Guid, Duration, parsed[e])];
        order := order + [e];
        todo := todo - {e};
      }
    }
  }

  /** Post-processing no entity changes nothing. */
  lemma PostAllNone(parsed: MetricSet, buckets: map<Entity, Buckets>)
    ensures PostAll(parsed, {}, buckets) == parsed
  {
  }

  /** Post-processing one more entity rewrites that entity's metrics alone. */
  lemma PostAllStep(parsed: MetricSet, done: set<Entity>, buckets: map<Entity, Buckets>, e: Entity)
    requires e in parsed && e !in done
    ensures PostAll(parsed, done + {e}, buckets) ==
      PostAll(parsed, done, buckets)[e := PostProcess(parsed[e], BucketsOf(buckets, e), e.kind == "vm")]
  {
  }

  /** Once the TypeError is raised, no later sample is processed. */
  lemma {:induction false} AbortIsFinal(fs: seq<Filing>, s0: Scratch, j: nat)
    requires j <= |fs|
    requires Collect(fs[..j], s0).aborted
    ensures Collect(fs, s0) == Collect(fs[..j], s0)
    decreases |fs| - j
  {
    if j < |fs| {
      var n := |fs| - 1;
      assert fs[..n][..j] == fs[..j];
      AbortIsFinal(fs[..n], s0, j);
      assert Collect(fs, s0) == Collect(fs[..n], s0);
    } else {
      assert fs[..j] == fs;
    }
  }

  /** The first loop ends aborted exactly when it started aborted or one of its filings
      raises the TypeError. */
  lemma {:induction false} CollectAborted(fs: seq<Filing>, s0: Scratch)
    ensures Collect(fs, s0).aborted <==> s0.aborted || exists i :: 0 <= i < |fs| && fs[i].Raises?
    decreases |fs|
  {
    if |fs| > 0 {
      var n := |fs| - 1;
      CollectAborted(fs[..n], s0);
      if exists i :: 0 <= i < n && fs[..n][i].Raises? {
        var i :| 0 <= i < n && fs[..n][i].Raises?;
        assert fs[i].Raises?;
      }
      if exists i :: 0 <= i < |fs| && fs[i].Raises? {
        var i :| 0 <= i < |fs| && fs[i].Raises?;
        if i < n {
          assert fs[..n][i].Raises?;
        }
      }
    }
  }

  /** The sample under `key` is processed and its key has no path field: the source's
      `metricArray[0].substring` raises a TypeError (newrelic_xenserver.js:469). */
  predicate RaisesTypeError(idx: Index, host: string, key: string)
  {
    Admit(idx, host, Decode(key)) && Decode(key).path.None?
  }

  /** The first loop over a run of keys is cut short exactly when one of them is processed
      and has no path field. */
  lemma FileAllAborts(idx: Index, host: string, keys: seq<string>, table: map<string, real>, parsed: MetricSet)
    requires forall i :: 0 <= i < |keys| ==> keys[i] in table
    ensures Collect(FileAll(idx, host, keys, table), Start(parsed)).aborted
      <==> exists i :: 0 <= i < |keys| && RaisesTypeError(idx, host, keys[i])
  {
    var fs := FileAll(idx, host, keys, table);
    CollectAborted(fs, Start(parsed));
    if exists i :: 0 <= i < |fs| && fs[i].Raises? {
      var i :| 0 <= i < |fs| && fs[i].Raises?;
      assert RaisesTypeError(idx, host, keys[i]);
    }
    if exists i :: 0 <= i < |keys| && RaisesTypeError(idx, host, keys[i]) {
      var i :| 0 <= i < |keys| && RaisesTypeError(idx, host, keys[i]);
      assert fs[i].Raises?;
    }
  }

  // ---------------------------------------------------------------------------------------
  // What a batch does to parsedMetrics
  // ---------------------------------------------------------------------------------------

  /** The sample under `key` is processed and filed under entity `e`. */
  ghost predicate Touches(idx: Index, host: string, key: string, e: Entity)
  {
    Admit(idx, host, Decode(key)) && EntityOf(Decode(key)) == e
  }

  /** The filing `f` stores the metric `k` of entity `e`. */
  predicate Writes(f: Filing, e: Entity, k: string)
  {
    f.Filed? && f.e == e && f.name != "" && ComponentPrefix + f.name == k
  }

  /** The first loop leaves an entity that no filing is filed under (its stored metrics,
      whether it counts as touched, its buckets) as it found it. */
  lemma {:induction false} CollectFrame(fs: seq<Filing>, s0: Scratch, e: Entity)
    requires forall i :: 0 <= i < |fs| ==> !(fs[i].Filed? && fs[i].e == e)
    ensures var s := Collect(fs, s0);
      && SameAt(s0.parsed, s.parsed, e)
      && (e in s.touched <==> e in s0.touched)
      && BucketsOf(s.buckets, e) == BucketsOf(s0.buckets, e)
    decreases |fs|
  {
    if |fs| > 0 {
      CollectFrame(fs[..|fs| - 1], s0, e);
      var prev := Collect(fs[..|fs| - 1], s0);
      if !prev.aborted {
        StepFrame(prev, fs[|fs| - 1], e);
      }
    }
  }

  /** An entity that no processed sample of the batch is filed under keeps exactly what
      earlier batches stored for it. */
  lemma BatchFrame(idx: Index, host: string, metrics: JsObject, parsed: MetricSet, e: Entity)
    requires metrics.Valid()
    requires forall i :: 0 <= i < |metrics.keys| ==> !Touches(idx, host, metrics.keys[i], e)
    ensures SameAt(parsed, ParseBatch(idx, host, metrics, parsed), e)
  {
    var fs := FileAll(idx, host, metrics.keys, metrics.table);
    forall i | 0 <= i < |fs|
      ensures !(fs[i].Filed? && fs[i].e == e)
    {
      assert !Touches(idx, host, metrics.keys[i], e);
    }
    CollectFrame(fs, Start(parsed), e);
  }

  /** A batch changes nothing for a VM that is not indexed as resident on the batch's host,
      nor for a host that is not indexed: a VM's samples are counted only through the batch
      of the host it runs on. */
  lemma ForeignEntitiesUntouched(idx: Index, host: string, metrics: JsObject, parsed: MetricSet, id: string)
    requires metrics.Valid()
    ensures !(id in idx.vm && idx.vm[id].residentOn == Some(host)) ==>
      SameAt(parsed, ParseBatch(idx, host, metrics, parsed), Entity("vm", id))
    ensures id !in idx.host ==>
      SameAt(parsed, ParseBatch(idx, host, metrics, parsed), Entity("host", id))
  {
    forall name | name in {"vm", "host"} && (name == "vm" ==> !(id in idx.vm && idx.vm[id].residentOn == Some(host)))
                    && (name == "host" ==> id !in idx.host)
      ensures SameAt(parsed, ParseBatch(idx, host, metrics, parsed), Entity(name, id))
    {
      forall i | 0 <= i < |metrics.keys|
        ensures !Touches(idx, host, metrics.keys[i], Entity(name, id))
      {
        var d := Decode(metrics.keys[i]);
        if EntityOf(d) == Entity(name, id) {
          assert d.kind == Some(name);
        }
      }
      BatchFrame(idx, host, metrics, parsed, Entity(name, id));
    }
  }

  /** `parsedMetrics` is never cleared: every entity and every metric stored before a batch
      is still present after it. */
  lemma NothingForgotten(idx: Index, host: string, metrics: JsObject, parsed: MetricSet)
    requires metrics.Valid()
    ensures Extends(parsed, ParseBatch(idx, host, metrics, parsed))
  {
    var s := Gather(idx, host, metrics, parsed);
    assert Extends(parsed, s.parsed);
    if !s.aborted {
      assert Extends(s.parsed, PostAll(s.parsed, s.touched, s.buckets));
    }
  }

  /** A processed sample whose key has no path field ends the call: the samples before it
      have been stored, nothing after it is looked at and no derived metric is computed. */
  lemma AbortSkipsRest(idx: Index, host: string, metrics: JsObject, parsed: MetricSet, j: nat)
    requires metrics.Valid()
    requires j < |metrics.keys|
    requires RaisesTypeError(idx, host, metrics.keys[j])
    requires forall i :: 0 <= i < j ==> !RaisesTypeError(idx, host, metrics.keys[i])
    ensures ParseBatch(idx, host, metrics, parsed)
      == Collect(FileAll(idx, host, metrics.keys[..j], metrics.table), Start(parsed)).parsed
  {
    var fs := FileAll(idx, host, metrics.keys, metrics.table);
    FileAllAborts(idx, host, metrics.keys[..j], metrics.table, parsed);
    FileAllPrefix(idx, host, metrics.keys, metrics.table, j);
    assert fs[j].Raises?;
    CollectSnoc(fs, Start(parsed), j);
    AbortIsFinal(fs, Start(parsed), j + 1);
  }

  /** A prefix of the filings is aborted only if the whole run is. */
  lemma PrefixNotAborted(fs: seq<Filing>, s0: Scratch, n: nat)
    requires n <= |fs|
    requires !Collect(fs, s0).aborted
    ensures !Collect(fs[..n], s0).aborted
  {
    if Collect(fs[..n], s0).aborted {
      AbortIsFinal(fs, s0, n);
    }
  }

  /** In the first loop the last filing that stores a metric of an entity decides its value. */
  lemma {:induction false} CollectLastWrite(fs: seq<Filing>, s0: Scratch, j: nat, e: Entity, k: string)
    requires j < |fs|
    requires !Collect(fs, s0).aborted
    requires Writes(fs[j], e, k)
    requires forall i :: j < i < |fs| ==> !Writes(fs[i], e, k)
    ensures var s := Collect(fs, s0);
      e in s.parsed && k in s.parsed[e] && s.parsed[e][k] == fs[j].value
    decreases |fs|
  {
    var n := |fs| - 1;
    PrefixNotAborted(fs, s0, n);
    var prev := Collect(fs[..n], s0);
    assert Collect(fs, s0) == Step(prev, fs[n]);
    if j < n {
      CollectLastWrite(fs[..n], s0, j, e, k);
    }
  }

  /** An entity touched after the first loop was touched before it, or some filing stores a
      metric for it. */
  lemma {:induction false} CollectTouchedOnly(fs: seq<Filing>, s0: Scratch, e: Entity)
    requires e in Collect(fs, s0).touched
    ensures e in s0.touched || exists i :: 0 <= i < |fs| && fs[i].Filed? && fs[i].e == e && fs[i].name != ""
    decreases |fs|
  {
    if |fs| > 0 {
      var n := |fs| - 1;
      var prev := Collect(fs[..n], s0);
      if e in prev.touched {
        CollectTouchedOnly(fs[..n], s0, e);
        if e !in s0.touched {
          var i :| 0 <= i < n && fs[..n][i].Filed? && fs[..n][i].e == e && fs[..n][i].name != "";
          assert fs[i] == fs[..n][i];
        }
      } else {
        assert fs[n].Filed? && fs[n].e == e && fs[n].name != "";
      }
    }
  }

  /** An entity that a filing stores a metric for counts as touched after the first loop. */
  lemma {:induction false} CollectTouches(fs: seq<Filing>, s0: Scratch, j: nat, e: Entity)
    requires j < |fs|
    requires !Collect(fs, s0).aborted
    requires fs[j].Filed? && fs[j].e == e && fs[j].name != ""
    ensures e in Collect(fs, s0).touched
    decreases |fs|
  {
    var n := |fs| - 1;
    PrefixNotAborted(fs, s0, n);
    var prev := Collect(fs[..n], s0);
    assert Collect(fs, s0) == Step(prev, fs[n]);
    if j < n {
      CollectTouches(fs[..n], s0, j, e);
    }
  }

  /** One bucket of an entity's `summaryData` lists. */
  function Lane(b: Buckets, which: Bucket): seq<real>
  {
    match which
    case NetworkRx => b.rx
    case NetworkTx => b.tx
    case Cpu => b.cpu
  }

  /** The values that the filings `fs` push on bucket `which` of entity `e`, in order. */
  function Pushed(fs: seq<Filing>, e: Entity, which: Bucket): seq<real>
    decreases |fs|
  {
    if |fs| == 0 then []
    else
      var f := fs[|fs| - 1];
      Pushed(fs[..|fs| - 1], e, which) + (if f.Filed? && f.e == e && f.bucket == Some(which) then [f.value] else [])
  }

  /** One iteration of the first loop appends the filed value to its own bucket and to no
      other. */
  lemma StepPushed(s: Scratch, f: Filing, e: Entity, which: Bucket)
    requires !s.aborted
    ensures Lane(BucketsOf(Step(s, f).buckets, e), which)
      == Lane(BucketsOf(s.buckets, e), which) + (if f.Filed? && f.e == e && f.bucket == Some(which) then [f.value] else [])
  {
    if f.Filed? {
      var b := Push(s.buckets, f.e, f.bucket, f.value);
      assert Step(s, f).buckets == b;
      if f.e != e || f.bucket.None? {
        assert BucketsOf(b, e) == BucketsOf(s.buckets, e);
      }
    }
  }

  /** After the first loop every bucket of an entity holds what it held before followed by
      the values the batch filed for it there, in the order of the keys. */
  lemma {:induction false} CollectPushed(fs: seq<Filing>, s0: Scratch, e: Entity, which: Bucket)
    requires !Collect(fs, s0).aborted
    ensures Lane(BucketsOf(Collect(fs, s0).buckets, e), which) == Lane(BucketsOf(s0.buckets, e), which) + Pushed(fs, e, which)
    decreases |fs|
  {
    if |fs| > 0 {
      var n := |fs| - 1;
      PrefixNotAborted(fs, s0, n);
      var prev := Collect(fs[..n], s0);
      assert Collect(fs, s0) == Step(prev, fs[n]);
      CollectPushed(fs[..n], s0, e, which);
      StepPushed(prev, fs[n], e, which);
    }
  }

  /** A VM for which a batch stores some metric ends the batch with its network totals and CPU
      average derived from exactly the values the batch filed on its buckets: the sums of its
      received and sent values and the mean of its CPU values, rounded to two decimals, each
      written only when there is a value. */
  lemma FinishVmAggregates(fs: seq<Filing>, parsed: MetricSet, e: Entity, j: nat)
    requires !Collect(fs, Start(parsed)).aborted
    requires e.kind == "vm"
    requires j < |fs| && fs[j].Filed? && fs[j].e == e && fs[j].name != ""
    ensures var r := Finish(fs, parsed);
      && e in r
      && (|Pushed(fs, e, NetworkRx)| > 0 ==>
            RxTotalKey in r[e] && r[e][RxTotalKey] == Round2(SeqSum(Pushed(fs, e, NetworkRx))))
      && (|Pushed(fs, e, NetworkTx)| > 0 ==>
            TxTotalKey in r[e] && r[e][TxTotalKey] == Round2(SeqSum(Pushed(fs, e, NetworkTx))))
      && (|Pushed(fs, e, Cpu)| > 0 ==>
            CpuAverageKey in r[e] && r[e][CpuAverageKey] == Round2(Mean(Pushed(fs, e, Cpu))))
  {
    var s := Collect(fs, Start(parsed));
    CollectTouches(fs, Start(parsed), j, e);
    CollectPushed(fs, Start(parsed), e, NetworkRx);
    CollectPushed(fs, Start(parsed), e, NetworkTx);
    CollectPushed(fs, Start(parsed), e, Cpu);
    var b := BucketsOf(s.buckets, e);
    assert b == Buckets(Pushed(fs, e, NetworkRx), Pushed(fs, e, NetworkTx), Pushed(fs, e, Cpu));
    FinishNotAborted(fs, parsed);
    PostAllVm(s.parsed, s.touched, s.buckets, e);
  }

  /** Post-processing a touched VM stores the rounded sums of its network buckets and the
      rounded mean of its CPU bucket, each when that bucket has values. */
  lemma PostAllVm(parsed: MetricSet, touched: set<Entity>, buckets: map<Entity, Buckets>, e: Entity)
    requires e in touched && e in parsed && e.kind == "vm"
    ensures var r := PostAll(parsed, touched, buckets);
      var b := BucketsOf(buckets, e);
      && e in r
      && (|b.rx| > 0 ==> RxTotalKey in r[e] && r[e][RxTotalKey] == Round2(SeqSum(b.rx)))
      && (|b.tx| > 0 ==> TxTotalKey in r[e] && r[e][TxTotalKey] == Round2(SeqSum(b.tx)))
      && (|b.cpu| > 0 ==> CpuAverageKey in r[e] && r[e][CpuAverageKey] == Round2(Mean(b.cpu)))
  {
  }

  /** The same for a whole batch that raises no TypeError, stated over its keys: a VM that
      some sample stores a metric for ends with the totals and the average of the values its
      samples file on its buckets. */
  lemma VmAggregatesOfBatch(idx: Index, host: string, metrics: JsObject, parsed: MetricSet, e: Entity, j: nat)
    requires metrics.Valid()
    requires forall i :: 0 <= i < |metrics.keys| ==> !RaisesTypeError(idx, host, metrics.keys[i])
    requires e.kind == "vm"
    requires j < |metrics.keys|
    requires var f := FileSample(idx, host, metrics.keys[j], metrics.table[metrics.keys[j]]);
      f.Filed? && f.e == e && f.name != ""
    ensures var fs := FileAll(idx, host, metrics.keys, metrics.table);
      var r := ParseBatch(idx, host, metrics, parsed);
      && e in r
      && (|Pushed(fs, e, NetworkRx)| > 0 ==>
            RxTotalKey in r[e] && r[e][RxTotalKey] == Round2(SeqSum(Pushed(fs, e, NetworkRx))))
      && (|Pushed(fs, e, NetworkTx)| > 0 ==>
            TxTotalKey in r[e] && r[e][TxTotalKey] == Round2(SeqSum(Pushed(fs, e, NetworkTx))))
      && (|Pushed(fs, e, Cpu)| > 0 ==>
            CpuAverageKey in r[e] && r[e][CpuAverageKey] == Round2(Mean(Pushed(fs, e, Cpu))))
  {
    var fs := FileAll(idx, host, metrics.keys, metrics.table);
    FileAllAborts(idx, host, metrics.keys, metrics.table, parsed);
    FinishVmAggregates(fs, parsed, e, j);
  }

  /** A metric that the batch stores, and that post-processing does not derive, holds the
      value of the last sample of the batch that stores it; earlier values, from this batch or
      from earlier ones, are overwritten. */
  lemma LastWriteWins(idx: Index, host: string, metrics: JsObject, parsed: MetricSet, j: nat, e: Entity, k: string)
    requires metrics.Valid()
    requires j < |metrics.keys|
    requires forall i :: 0 <= i < |metrics.keys| ==> !RaisesTypeError(idx, host, metrics.keys[i])
    requires Writes(FileSample(idx, host, metrics.keys[j], metrics.table[metrics.keys[j]]), e, k)
    requires forall i :: j < i < |metrics.keys| ==>
      !Writes(FileSample(idx, host, metrics.keys[i], metrics.table[metrics.keys[i]]), e, k)
    requires k != UsedKey && k != PercentKey
    requires e.kind == "vm" ==> k != RxTotalKey && k != TxTotalKey && k != CpuAverageKey
    ensures var r := ParseBatch(idx, host, metrics, parsed);
      e in r && k in r[e] && r[e][k] == FileSample(idx, host, metrics.keys[j], metrics.table[metrics.keys[j]]).value
  {
    var fs := FileAll(idx, host, metrics.keys, metrics.table);
    var s := Collect(fs, Start(parsed));
    FileAllAborts(idx, host, metrics.keys, metrics.table, parsed);
    CollectLastWrite(fs, Start(parsed), j, e, k);
    FinishNotAborted(fs, parsed);
    KeptByPostAll(s.parsed, s.touched, s.buckets, e, k);
  }

  /** Post-processing keeps every stored metric that it does not derive. */
  lemma KeptByPostAll(parsed: MetricSet, touched: set<Entity>, buckets: map<Entity, Buckets>, e: Entity, k: string)
    requires e in parsed && k in parsed[e] && k != UsedKey && k != PercentKey
    requires e.kind == "vm" ==> k != RxTotalKey && k != TxTotalKey && k != CpuAverageKey
    ensures var r := PostAll(parsed, touched, buckets);
      e in r && k in r[e] && r[e][k] == parsed[e][k]
  {
    if e in touched {
      var b := BucketsOf(buckets, e);
      assert PostAll(parsed, touched, buckets)[e] == PostProcess(parsed[e], b, e.kind == "vm");
    }
  }

  /** The derived memory figures of the examples: total 1000 and free 400 give 600 used,
      60 percent; without a free figure neither appears. */
  lemma MemoryExamples()
    ensures var r := PostMemory(map[TotalKey := 1000.0, FreeKey := 400.0]);
      UsedKey in r && r[UsedKey] == 600.0 && PercentKey in r && r[PercentKey] == 60.0
    ensures var r := PostMemory(map[TotalKey := 1000.0]); UsedKey !in r && PercentKey !in r
  {
  }

  /** Memory used percent is a percentage when the free figure does not exceed the total. */
  lemma MemoryPercentRange(m: Metrics)
    requires MemoryKnown(m) && m[TotalKey] > 0.0 && m[FreeKey] <= m[TotalKey]
    ensures 0.0 <= PostMemory(m)[PercentKey] <= 100.0
    ensures 0.0 <= PostMemory(m)[UsedKey] <= m[TotalKey]
  {
    Ratio(m[TotalKey] - m[FreeKey], m[TotalKey]);
  }

  /** The key of a host memory reading. */
  function MemoryReadingKey(h: string, which: string): string
  {
    "AVERAGE:host:" + h + ":memory_" + which + "_kib"
  }

  /** `key` is a reading of host `h`'s memory counter `which`, in kilobytes. */
  predicate IsMemoryReading(key: string, h: string, which: string)
  {
    var d := Decode(key);
    d.kind == Some("host") && d.id == Some(h) && Segments(d) == ["memory", which, "kib"]
  }

  /** A memory reading of an indexed host is filed under that host, in bytes, under its
      memory metric name and in no bucket. */
  lemma HostMemoryFiled(idx: Index, h: string, key: string, which: string, value: real)
    requires h in idx.host && IsMemoryReading(key, h, which)
    requires which == "total" || which == "free"
    ensures FileSample(idx, h, key, value) == Filed(Entity("host", h),
      if which == "total" then "memory/total[bytes]" else "memory/free[bytes]", Floor(value * 1000.0), None)
  {
    HostMemoryCounter(idx, h, Segments(Decode(key)), which, value);
    FiledAs(idx, h, key, value, if which == "total" then "memory/total[bytes]" else "memory/free[bytes]",
            Floor(value * 1000.0), None);
  }

  /** An admitted sample that the classification turns into a metric is filed under its
      entity with that metric. */
  lemma FiledAs(idx: Index, host: string, key: string, value: real, name: string, v: real, bucket: Option<Bucket>)
    requires Admit(idx, host, Decode(key))
    requires Classify.Classify(idx, EntityOf(Decode(key)), Segments(Decode(key)), value) == Emit(name, v, bucket)
    ensures FileSample(idx, host, key, value) == Filed(EntityOf(Decode(key)), name, v, bucket)
  {
  }

  /** The stored key of the total memory is its metric name after the component prefix. */
  lemma TotalKeyName()
    ensures ComponentPrefix + "memory/total[bytes]" == TotalKey
  {
  }

  /** The stored key of the free memory is its metric name after the component prefix. */
  lemma FreeKeyName()
    ensures ComponentPrefix + "memory/free[bytes]" == FreeKey
  {
  }

  /** A batch that does not abort ends with its post-processing. */
  lemma FinishNotAborted(fs: seq<Filing>, parsed: MetricSet)
    requires !Collect(fs, Start(parsed)).aborted
    ensures var s := Collect(fs, Start(parsed));
      Finish(fs, parsed) == PostAll(s.parsed, s.touched, s.buckets)
  {
  }

  /** No filing after the `j`-th stores the metric `k` of entity `e`, stated one filing at a
      time from the end. */
  predicate NoWriteAfter(fs: seq<Filing>, j: nat, e: Entity, k: string)
    decreases |fs|
  {
    |fs| <= j + 1 || (!Writes(fs[|fs| - 1], e, k) && NoWriteAfter(fs[..|fs| - 1], j, e, k))
  }

  /** `NoWriteAfter` holds exactly when every filing after the `j`-th leaves `k` of `e` alone. */
  lemma {:induction false} NoWriteAfterMeans(fs: seq<Filing>, j: nat, e: Entity, k: string)
    ensures NoWriteAfter(fs, j, e, k) <==> forall i :: j < i < |fs| ==> !Writes(fs[i], e, k)
    decreases |fs|
  {
    if |fs| > j + 1 {
      var n := |fs| - 1;
      NoWriteAfterMeans(fs[..n], j, e, k);
      assert forall i :: j < i < n ==> fs[..n][i] == fs[i];
    }
  }

  /** In filings that do not abort, where the `jt`-th and the `jf`-th are the last to store a
      host's total and free memory, the first loop leaves the host touched with those values. */
  lemma LastMemoryCollect(fs: seq<Filing>, s0: Scratch, e: Entity, jt: nat, jf: nat)
    requires !Collect(fs, s0).aborted
    requires jt < |fs| && Writes(fs[jt], e, TotalKey) && fs[jt].value >= 0.0
    requires jf < |fs| && Writes(fs[jf], e, FreeKey) && fs[jf].value >= 0.0
    requires NoWriteAfter(fs, jt, e, TotalKey) && NoWriteAfter(fs, jf, e, FreeKey)
    ensures var s := Collect(fs, s0);
      && e in s.touched && e in s.parsed && MemoryKnown(s.parsed[e])
      && s.parsed[e][TotalKey] == fs[jt].value && s.parsed[e][FreeKey] == fs[jf].value
  {
    NoWriteAfterMeans(fs, jt, e, TotalKey);
    NoWriteAfterMeans(fs, jf, e, FreeKey);
    CollectLastWrite(fs, s0, jt, e, TotalKey);
    CollectLastWrite(fs, s0, jf, e, FreeKey);
    CollectTouches(fs, s0, jt, e);
  }

  /** A batch that does not abort, and leaves a touched entity with both memory readings
      known, ends with both readings kept, memory used as their difference and, for a
      positive total, the percentage used. */
  lemma FinishMemory(fs: seq<Filing>, parsed: MetricSet, e: Entity, total: real, free: real)
    requires !Collect(fs, Start(parsed)).aborted
    requires var s := Collect(fs, Start(parsed));
      && e in s.touched && e in s.parsed && MemoryKnown(s.parsed[e])
      && s.parsed[e][TotalKey] == total && s.parsed[e][FreeKey] == free
    ensures var r := Finish(fs, parsed);
      && e in r
      && TotalKey in r[e] && r[e][TotalKey] == total
      && FreeKey in r[e] && r[e][FreeKey] == free
      && UsedKey in r[e] && r[e][UsedKey] == total - free
      && (total > 0.0 ==> PercentKey in r[e] && r[e][PercentKey] == (total - free) / total * 100.0)
  {
    var s := Collect(fs, Start(parsed));
    FinishNotAborted(fs, parsed);
    PostAllMemory(s.parsed, s.touched, s.buckets, e);
  }

  /** Post-processing a touched entity with both memory readings known keeps the readings and
      stores memory used and, for a positive total, the percentage used. */
  lemma PostAllMemory(parsed: MetricSet, touched: set<Entity>, buckets: map<Entity, Buckets>, e: Entity)
    requires e in touched && e in parsed && MemoryKnown(parsed[e])
    ensures var r := PostAll(parsed, touched, buckets);
      var total, free := parsed[e][TotalKey], parsed[e][FreeKey];
      && e in r
      && TotalKey in r[e] && r[e][TotalKey] == total
      && FreeKey in r[e] && r[e][FreeKey] == free
      && UsedKey in r[e] && r[e][UsedKey] == total - free
      && (total > 0.0 ==> PercentKey in r[e] && r[e][PercentKey] == (total - free) / total * 100.0)
  {
    KeptByPostAll(parsed, touched, buckets, e, TotalKey);
    KeptByPostAll(parsed, touched, buckets, e, FreeKey);
  }

  /** In a batch whose filings do not abort, where the `jt`-th and the `jf`-th filings are the
      last to store an entity's total and free memory and carry non-negative values, the batch
      ends with those two values, with memory used as their difference and, for a positive
      total, with the percentage used. */
  lemma LastMemoryFilings(fs: seq<Filing>, parsed: MetricSet, e: Entity, jt: nat, jf: nat, total: real, free: real)
    requires !Collect(fs, Start(parsed)).aborted
    requires jt < |fs| && Writes(fs[jt], e, TotalKey) && fs[jt].value == total && total >= 0.0
    requires jf < |fs| && Writes(fs[jf], e, FreeKey) && fs[jf].value == free && free >= 0.0
    requires NoWriteAfter(fs, jt, e, TotalKey) && NoWriteAfter(fs, jf, e, FreeKey)
    ensures var r := Finish(fs, parsed);
      && e in r
      && TotalKey in r[e] && r[e][TotalKey] == total
      && FreeKey in r[e] && r[e][FreeKey] == free
      && UsedKey in r[e] && r[e][UsedKey] == total - free
      && (total > 0.0 ==> PercentKey in r[e] && r[e][PercentKey] == (total - free) / total * 100.0)
  {
    LastMemoryCollect(fs, Start(parsed), e, jt, jf);
    FinishMemory(fs, parsed, e, total, free);
  }

  /** An entity's total and free memory, filed in that order and with nothing else, are
      stored as they are and give the memory used and, for a positive total, the percentage
      used. */
  lemma MemoryBatch(parsed: MetricSet, e: Entity, t: real, f: real)
    requires t >= 0.0 && f >= 0.0
    ensures var r := Finish([Filed(e, "memory/total[bytes]", t, None), Filed(e, "memory/free[bytes]", f, None)], parsed);
      && e in r
      && TotalKey in r[e] && r[e][TotalKey] == t
      && FreeKey in r[e] && r[e][FreeKey] == f
      && UsedKey in r[e] && r[e][UsedKey] == t - f
      && (t > 0.0 ==> PercentKey in r[e] && r[e][PercentKey] == (t - f) / t * 100.0)
  {
    var fs := [Filed(e, "memory/total[bytes]", t, None), Filed(e, "memory/free[bytes]", f, None)];
    CollectAborted(fs, Start(parsed));
    TotalKeyName();
    FreeKeyName();
    assert fs[..1] == [fs[0]];
    assert NoWriteAfter(fs, 0, e, TotalKey);
    LastMemoryFilings(fs, parsed, e, 0, 1, t, f);
  }

  /** The filings of a batch made of a host's total and free memory readings. */
  lemma HostMemoryPair(idx: Index, h: string, metrics: JsObject)
    requires metrics.Valid() && h in idx.host && |metrics.keys| == 2
    requires IsMemoryReading(metrics.keys[0], h, "total") && IsMemoryReading(metrics.keys[1], h, "free")
    ensures FileAll(idx, h, metrics.keys, metrics.table) ==
      [Filed(Entity("host", h), "memory/total[bytes]", Floor(metrics.table[metrics.keys[0]] * 1000.0), None),
       Filed(Entity("host", h), "memory/free[bytes]", Floor(metrics.table[metrics.keys[1]] * 1000.0), None)]
  {
    HostMemoryFiled(idx, h, metrics.keys[0], "total", metrics.table[metrics.keys[0]]);
    HostMemoryFiled(idx, h, metrics.keys[1], "free", metrics.table[metrics.keys[1]]);
    FileAllPair(idx, h, metrics.keys, metrics.table);
  }

  /** The filings of two keys. */
  lemma FileAllPair(idx: Index, host: string, keys: seq<string>, table: map<string, real>)
    requires |keys| == 2 && keys[0] in table && keys[1] in table
    ensures FileAll(idx, host, keys, table)
      == [FileSample(idx, host, keys[0], table[keys[0]]), FileSample(idx, host, keys[1], table[keys[1]])]
  {
  }

  /** A batch of an indexed host that carries its total and its free memory reading, in
      that order and nothing else, stores both in bytes and derives the memory used and, for
      a positive total, the percentage used from them. */
  lemma HostMemoryBatch(idx: Index, h: string, metrics: JsObject, parsed: MetricSet)
    requires metrics.Valid() && h in idx.host && |metrics.keys| == 2
    requires IsMemoryReading(metrics.keys[0], h, "total") && IsMemoryReading(metrics.keys[1], h, "free")
    requires metrics.table[metrics.keys[0]] >= 0.0 && metrics.table[metrics.keys[1]] >= 0.0
    ensures var r := ParseBatch(idx, h, metrics, parsed);
      var total := Floor(metrics.table[metrics.keys[0]] * 1000.0);
      var free := Floor(metrics.table[metrics.keys[1]] * 1000.0);
      && Entity("host", h) in r
      && TotalKey in r[Entity("host", h)] && r[Entity("host", h)][TotalKey] == total
      && FreeKey in r[Entity("host", h)] && r[Entity("host", h)][FreeKey] == free
      && UsedKey in r[Entity("host", h)] && r[Entity("host", h)][UsedKey] == total - free
      && (total > 0.0 ==>
            PercentKey in r[Entity("host", h)]
            && r[Entity("host", h)][PercentKey] == (total - free) / total * 100.0)
  {
    var v0, v1 := metrics.table[metrics.keys[0]], metrics.table[metrics.keys[1]];
    HostMemoryPair(idx, h, metrics);
    assert (v0 * 1000.0).Floor >= 0 && (v1 * 1000.0).Floor >= 0;
    MemoryBatch(parsed, Entity("host", h), Floor(v0 * 1000.0), Floor(v1 * 1000.0));
  }

  /** The path of a memory reading splits into its three segments. */
  lemma MemoryPathSegments(which: string)
    requires '_' !in which
    ensures Split("memory_" + which + "_kib", '_') == ["memory", which, "kib"]
  {
    var segs := ["memory", which, "kib"];
    assert Join(segs[2..], '_') == "kib";
    assert Join(segs[1..], '_') == which + "_kib";
    assert Join(segs, '_') == "memory_" + which + "_kib";
    SplitOfJoin(segs, '_');
  }

  /** The keys the source reads for a host's memory are memory readings of that host. */
  lemma ReadingOfKey(h: string, which: string)
    requires ':' !in h && ':' !in which && '_' !in which
    ensures IsMemoryReading(MemoryReadingKey(h, which), h, which)
  {
    var path := "memory_" + which + "_kib";
    var fields := ["AVERAGE", "host", h, path];
    assert Join(fields[3..], ':') == path;
    assert Join(fields[2..], ':') == h + ":" + path;
    assert Join(fields[1..], ':') == "host:" + h + ":" + path;
    assert Join(fields, ':') == MemoryReadingKey(h, which);
    assert ':' !in path;
    DecodeOfJoin(fields);
    MemoryPathSegments(which);
  }

  /** A part of a positive whole is a fraction between 0 and 1 of it. */
  lemma Ratio(a: real, t: real)
    requires t > 0.0 && 0.0 <= a <= t
    ensures 0.0 <= a / t <= 1.0
  {
    assert a / t * t == a;
  }
}
