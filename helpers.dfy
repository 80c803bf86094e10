/**
 * The helper routines at the end of newrelic_xenserver.js: `toObject`, which zips the
 * legend names of an RRD export with the latest row of values, and the accumulators `sum`
 * and `average`, which round their result to two decimals with `Math.round(x * 100) / 100`.
 * Numbers are modelled as exact reals; `Math.round(y)` is `floor(y + 1/2)`.
 */
module Helpers {

  /** `Math.floor(y)`: the whole number with `y` in `[r, r + 1)`. */
  function Floor(y: real): (r: real)
    ensures r == r.Floor as real
    ensures r <= y < r + 1.0
  {
    y.Floor as real
  }

  /** `Math.round(y)`: the whole number with `y` in `[r - 1/2, r + 1/2)`, so halves are
      rounded up. */
  function Round(y: real): (r: real)
    ensures r == r.Floor as real
    ensures y - 0.5 < r <= y + 0.5
  {
    Floor(y + 0.5)
  }

  /** `Math.round(y * 100) / 100`: `y` to two decimals. */
  function Round2(y: real): real
  {
    Round(y * 100.0) / 100.0
  }

  /** Rounding to two decimals moves a value by at most half a hundredth. */
  lemma Round2Error(y: real)
    ensures y - 0.005 < Round2(y) <= y + 0.005
  {
    var r := Round(y * 100.0);
    assert y * 100.0 - 0.5 < r <= y * 100.0 + 0.5;
  }

  /** The results of rounding are whole hundredths, and whole hundredths are kept as they are:
      rounding twice is rounding once. */
  lemma Round2Idempotent(y: real)
    ensures Round2(y) * 100.0 == (Round2(y) * 100.0).Floor as real
    ensures Round2(Round2(y)) == Round2(y)
  {
    var k := (y * 100.0 + 0.5).Floor;
    assert Round2(y) * 100.0 == k as real;
    assert (k as real + 0.5).Floor == k;
  }

  /** The sum of a sequence, added from the left as the loops of the source do. */
  function SeqSum(s: seq<real>): real
    decreases |s|
  {
    if |s| == 0 then 0.0 else SeqSum(s[..|s| - 1]) + s[|s| - 1]
  }

  /** The sum of a concatenation is the sum of the sums. */
  lemma {:induction false} SeqSumAppend(a: seq<real>, b: seq<real>)
    ensures SeqSum(a + b) == SeqSum(a) + SeqSum(b)
    decreases |b|
  {
    if |b| > 0 {
      assert (a + b)[..|a + b| - 1] == a + b[..|b| - 1];
      SeqSumAppend(a, b[..|b| - 1]);
    } else {
      assert a + b == a;
    }
  }

  /** Bounds on every element bound the sum. */
  lemma {:induction false} SeqSumBounds(s: seq<real>, lo: real, hi: real)
    requires forall i :: 0 <= i < |s| ==> lo <= s[i] <= hi
    ensures lo * |s| as real <= SeqSum(s) <= hi * |s| as real
    decreases |s|
  {
    if |s| > 0 {
      var n := |s| - 1;
      SeqSumBounds(s[..n], lo, hi);
      assert lo * (n + 1) as real == lo * n as real + lo;
      assert hi * (n + 1) as real == hi * n as real + hi;
    }
  }

  /** `sum(input)` (newrelic_xenserver.js:818-825). */
  method Sum(input: seq<real>) returns (total: real)
    ensures total == Round2(SeqSum(input))
  {
    total := 0.0;
    var i := 0;
    while i < |input|
      invariant 0 <= i <= |input|
      invariant total == SeqSum(input[..i])
    {
      assert input[..i + 1][..i] == input[..i];
      total := total + input[i];
      i := i + 1;
    }
    assert input[..|input|] == input;
    total := Round2(total);
  }

  /** The arithmetic mean, before rounding. */
  function Mean(s: seq<real>): real
    requires |s| > 0
  {
    SeqSum(s) / |s| as real
  }

  /** `average(input)` (newrelic_xenserver.js:808-816); the engine only calls it on a
      non-empty bucket. */
  method Average(input: seq<real>) returns (avg: real)
    requires |input| > 0
    ensures avg == Round2(Mean(input))
  {
    var total := 0.0;
    var i := 0;
    while i < |input|
      invariant 0 <= i <= |input|
      invariant total == SeqSum(input[..i])
    {
      assert input[..i + 1][..i] == input[..i];
      total := total + input[i];
      i := i + 1;
    }
    assert input[..|input|] == input;
    avg := total / |input| as real;
    avg := Round2(avg);
  }

  /** The rounded mean lies within half a hundredth of the range of the samples. */
  lemma AverageWithinRange(s: seq<real>, lo: real, hi: real)
    requires |s| > 0
    requires forall i :: 0 <= i < |s| ==> lo <= s[i] <= hi
    ensures lo - 0.005 < Round2(Mean(s)) <= hi + 0.005
  {
    SeqSumBounds(s, lo, hi);
    var n := |s| as real;
    assert lo <= Mean(s) <= hi by {
      assert lo * n <= SeqSum(s) <= hi * n;
      assert Mean(s) * n == SeqSum(s);
    }
    Round2Error(Mean(s));
  }

  /** The aggregation examples: `sum([10.005, 20.003])` is 30.01 and `average([10, 20, 30])`
      is 20. */
  lemma AggregationExamples()
    ensures Round2(SeqSum([10.005, 20.003])) == 30.01
    ensures Round2(Mean([10.0, 20.0, 30.0])) == 20.0
  {
    assert [10.005, 20.003][..1] == [10.005];
    assert [10.0, 20.0, 30.0][..2] == [10.0, 20.0];
    assert [10.0, 20.0][..1] == [10.0];
    assert (3000.8 + 0.5).Floor == 3001;
    assert (2000.0 + 0.5).Floor == 2000;
  }

  /** A JavaScript object with string keys and numeric values: its own keys in
      `Object.keys` order (each once) and the value of each key. */
  datatype JsObject = JsObject(keys: seq<string>, table: map<string, real>) {
    ghost predicate Valid() {
      && (forall i, j :: 0 <= i < j < |keys| ==> keys[i] != keys[j])
      && (forall k :: k in table <==> k in keys)
    }
  }

  /** The names of `s` in order of first occurrence, each once. */
  function FirstOccurrences(s: seq<string>): (r: seq<string>)
    ensures forall k :: k in r <==> k in s
    ensures forall i, j :: 0 <= i < j < |r| ==> r[i] != r[j]
    decreases |s|
  {
    if |s| == 0 then []
    else
      var front := FirstOccurrences(s[..|s| - 1]);
      assert forall k :: k in s <==> k in s[..|s| - 1] || k == s[|s| - 1];
      if s[|s| - 1] in front then front else front + [s[|s| - 1]]
  }

  /** Every name among the first `i` whose last occurrence there is at `j` holds `values[j]`. */
  ghost predicate LastWritesHeld(names: seq<string>, values: seq<real>, table: map<string, real>, i: nat)
    requires i <= |names| <= |values|
  {
    forall j :: 0 <= j < i && names[j] !in names[j + 1..i] ==>
      names[j] in table && table[names[j]] == values[j]
  }

  /** Writing `values[i]` under `names[i]` extends LastWritesHeld by one name. */
  lemma LastWritesStep(names: seq<string>, values: seq<real>, table: map<string, real>, i: nat)
    requires i < |names| <= |values|
    requires LastWritesHeld(names, values, table, i)
    ensures LastWritesHeld(names, values, table[names[i] := values[i]], i + 1)
  {
    var t := table[names[i] := values[i]];
    forall j | 0 <= j < i + 1 && names[j] !in names[j + 1..i + 1]
      ensures names[j] in t && t[names[j]] == values[j]
    {
      if j < i {
        assert names[j + 1..i + 1] == names[j + 1..i] + [names[i]];
      }
    }
  }

  /** Once every name is written, each name's last occurrence holds. */
  lemma LastWritesComplete(names: seq<string>, values: seq<real>, table: map<string, real>)
    requires |names| <= |values|
    requires LastWritesHeld(names, values, table, |names|)
    ensures forall i :: 0 <= i < |names| && names[i] !in names[i + 1..] ==> table[names[i]] == values[i]
  {
    forall i | 0 <= i < |names| && names[i] !in names[i + 1..]
      ensures table[names[i]] == values[i]
    {
      assert names[i + 1..|names|] == names[i + 1..];
    }
  }

  /** Adding one more name to the first-occurrence list. */
  lemma FirstOccurrencesStep(names: seq<string>, i: nat)
    requires i < |names|
    ensures names[..i + 1] == names[..i] + [names[i]]
    ensures FirstOccurrences(names[..i + 1]) ==
      if names[i] in names[..i] then FirstOccurrences(names[..i])
      else FirstOccurrences(names[..i]) + [names[i]]
  {
    assert names[..i + 1][..i] == names[..i];
  }

  /** What `toObject` has built after its first `i` assignments: the keys in order of first
      occurrence, a value for exactly the names seen so far, and for each of them its last
      value. */
  ghost predicate Zipped(names: seq<string>, values: seq<real>, keys: seq<string>, table: map<string, real>, i: nat)
    requires i <= |names| <= |values|
  {
    && keys == FirstOccurrences(names[..i])
    && (forall k :: k in table <==> k in names[..i])
    && LastWritesHeld(names, values, table, i)
  }

  /** One more assignment `result[names[i]] = values[i]`. */
  lemma ZippedStep(names: seq<string>, values: seq<real>, keys: seq<string>, table: map<string, real>, i: nat)
    requires i < |names| <= |values|
    requires Zipped(names, values, keys, table, i)
    ensures Zipped(names, values, if names[i] in table then keys else keys + [names[i]],
                   table[names[i] := values[i]], i + 1)
  {
    FirstOccurrencesStep(names, i);
    LastWritesStep(names, values, table, i);
  }

  /** After the last assignment the object holds every name once, in order of first
      occurrence, with its last value. */
  lemma ZippedComplete(names: seq<string>, values: seq<real>, keys: seq<string>, table: map<string, real>)
    requires |names| <= |values|
    requires Zipped(names, values, keys, table, |names|)
    ensures JsObject(keys, table).Valid()
    ensures keys == FirstOccurrences(names)
    ensures forall i :: 0 <= i < |names| && names[i] !in names[i + 1..] ==> table[names[i]] == values[i]
  {
    assert names[..|names|] == names;
    LastWritesComplete(names, values, table);
  }

  /** `toObject(names, values)` (newrelic_xenserver.js:801-806): `result[names[i]] = values[i]`
      for each `i` in turn, so a repeated name keeps its last value and its first position. */
  method ToObject(names: seq<string>, values: seq<real>) returns (result: JsObject)
    requires |names| <= |values|
    ensures result.Valid()
    ensures result.keys == FirstOccurrences(names)
    ensures forall i :: 0 <= i < |names| && names[i] !in names[i + 1..] ==>
      result.table[names[i]] == values[i]
  {
    var keys: seq<string> := [];
    var table: map<string, real> := map[];
    var i := 0;
    while i < |names|
      invariant 0 <= i <= |names|
      invariant Zipped(names, values, keys, table, i)
    {
      var name := names[i];
      ZippedStep(names, values, keys, table, i);
      if name !in table {
        keys := keys + [name];
      }
      table := table[name := values[i]];
      i := i + 1;
    }
    ZippedComplete(names, values, keys, table);
    result := JsObject(keys, table);
  }
}
