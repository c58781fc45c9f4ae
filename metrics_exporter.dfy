/** The metrics registry (monitoring/metrics_exporter.py): canonical series
    keys built from a metric name and its labels, counter, gauge and
    histogram updates, the Prometheus and JSON exports, and the application
    helpers that feed a registry.

    A label dictionary is a sequence of (name, value) pairs in insertion
    order; `None` and `{}` are both the empty sequence. Values are exact
    reals, so float rendering and rounding are outside the model. */
module MetricsExporter {
  import opened Common

  type Labels = seq<(string, string)>

  // ---------------------------------------------------------------------------
  // Label ordering: Python sorts the (name, value) tuples

  predicate PairLess(a: (string, string), b: (string, string)) {
    StrLess(a.0, b.0) || (a.0 == b.0 && StrLess(a.1, b.1))
  }

  predicate PairLeq(a: (string, string), b: (string, string)) {
    a == b || PairLess(a, b)
  }

  lemma PairLeqTotal(a: (string, string), b: (string, string))
    ensures PairLeq(a, b) || PairLeq(b, a)
  {
    if a.0 != b.0 {
      StrLessTotal(a.0, b.0);
    } else if a.1 != b.1 {
      StrLessTotal(a.1, b.1);
    }
  }

  lemma PairLeqTransitive(a: (string, string), b: (string, string), c: (string, string))
    requires PairLeq(a, b) && PairLeq(b, c)
    ensures PairLeq(a, c)
  {
    if a != b && b != c {
      if StrLess(a.0, b.0) && StrLess(b.0, c.0) {
        StrLessTransitive(a.0, b.0, c.0);
      } else if a.0 == b.0 && b.0 == c.0 {
        StrLessTransitive(a.1, b.1, c.1);
      }
    }
  }

  lemma PairLeqAntisymmetric(a: (string, string), b: (string, string))
    requires PairLeq(a, b) && PairLeq(b, a)
    ensures a == b
  {
    if a != b {
      if StrLess(a.0, b.0) {
        StrLessAsymmetric(a.0, b.0);
        StrLessIrreflexive(a.0);
      } else {
        assert a.0 == b.0 && StrLess(a.1, b.1);
        StrLessAsymmetric(a.1, b.1);
        StrLessIrreflexive(b.0);
      }
    }
  }

  /** Each pair is at most its successor. */
  predicate SortedLabels(s: Labels) {
    forall i | 0 < i < |s| :: PairLeq(s[i - 1], s[i])
  }

  function InsertLabel(p: (string, string), s: Labels): Labels {
    if |s| == 0 then [p]
    else if PairLeq(p, s[0]) then [p] + s
    else [s[0]] + InsertLabel(p, s[1..])
  }

  /** `sorted(labels.items())`, by insertion. */
  function SortLabels(s: Labels): Labels {
    if |s| == 0 then [] else InsertLabel(s[0], SortLabels(s[1..]))
  }

  /** Inserting into a sorted list keeps it sorted and adds exactly one pair. */
  lemma {:induction false} InsertLabelCorrect(p: (string, string), s: Labels)
    requires SortedLabels(s)
    ensures var r := InsertLabel(p, s);
            && SortedLabels(r)
            && multiset(r) == multiset(s) + multiset{p}
            && |r| == |s| + 1
            && (r[0] == p || (|s| > 0 && r[0] == s[0]))
  {
    if |s| > 0 && !PairLeq(p, s[0]) {
      PairLeqTotal(p, s[0]);
      InsertLabelCorrect(p, s[1..]);
      assert s == [s[0]] + s[1..];
    }
  }

  /** The sorted copy is sorted and holds the same pairs. */
  lemma {:induction false} SortLabelsCorrect(s: Labels)
    ensures SortedLabels(SortLabels(s))
    ensures multiset(SortLabels(s)) == multiset(s)
  {
    if |s| > 0 {
      SortLabelsCorrect(s[1..]);
      InsertLabelCorrect(s[0], SortLabels(s[1..]));
      assert s == [s[0]] + s[1..];
    }
  }

  lemma {:induction false} SortedFirstIsLeast(s: Labels, i: nat)
    requires SortedLabels(s) && i < |s|
    ensures PairLeq(s[0], s[i])
  {
    if i > 0 {
      SortedFirstIsLeast(s, i - 1);
      PairLeqTransitive(s[0], s[i - 1], s[i]);
    }
  }

  /** Sorted lists with the same pairs start with the same (least) pair. */
  lemma SortedLabelsSameHead(a: Labels, b: Labels)
    requires SortedLabels(a) && SortedLabels(b)
    requires multiset(a) == multiset(b) && |a| > 0
    ensures |b| > 0 && a[0] == b[0]
  {
    assert a[0] in multiset(b);
    assert b[0] in multiset(a);
    var i :| 0 <= i < |a| && a[i] == b[0];
    var j :| 0 <= j < |b| && b[j] == a[0];
    SortedFirstIsLeast(a, i);
    SortedFirstIsLeast(b, j);
    PairLeqAntisymmetric(a[0], b[0]);
  }

  lemma TailsSameMultiset(a: Labels, b: Labels)
    requires |a| > 0 && |b| > 0 && a[0] == b[0] && multiset(a) == multiset(b)
    ensures multiset(a[1..]) == multiset(b[1..])
  {
    assert a == [a[0]] + a[1..] && b == [b[0]] + b[1..];
    calc {
      multiset(a[1..]);
      (multiset{a[0]} + multiset(a[1..])) - multiset{a[0]};
      multiset(a) - multiset{a[0]};
      multiset(b) - multiset{a[0]};
      (multiset{a[0]} + multiset(b[1..])) - multiset{a[0]};
      multiset(b[1..]);
    }
  }

  lemma SortedTail(s: Labels)
    requires SortedLabels(s) && |s| > 0
    ensures SortedLabels(s[1..])
  {
    var t := s[1..];
    forall i | 0 < i < |t| ensures PairLeq(t[i - 1], t[i]) {
      assert t[i - 1] == s[i] && t[i] == s[i + 1];
    }
  }

  /** Two sorted label lists holding the same pairs are the same list. */
  lemma {:induction false} SortedLabelsUnique(a: Labels, b: Labels)
    requires SortedLabels(a) && SortedLabels(b)
    requires multiset(a) == multiset(b)
    ensures a == b
  {
    if |a| == 0 {
      assert |b| == |multiset(b)| == 0;
    } else {
      SortedLabelsSameHead(a, b);
      TailsSameMultiset(a, b);
      SortedTail(a);
      SortedTail(b);
      SortedLabelsUnique(a[1..], b[1..]);
      assert a == [a[0]] + a[1..] && b == [b[0]] + b[1..];
    }
  }

  // ---------------------------------------------------------------------------
  // Series keys

  function RenderLabel(p: (string, string)): string {
    p.0 + "=\"" + p.1 + "\""
  }

  /** `",".join(f'{k}="{v}"' for k, v in ls)`. */
  function LabelString(ls: Labels): string {
    if |ls| == 0 then ""
    else if |ls| == 1 then RenderLabel(ls[0])
    else RenderLabel(ls[0]) + "," + LabelString(ls[1..])
  }

  /** `_make_key`: the bare name without labels, otherwise the name followed
      by the sorted labels in braces. */
  function MakeKey(name: string, labels: Labels): (key: string)
    ensures |labels| == 0 ==> key == name
    ensures |labels| > 0 ==> |key| > |name| + 1 && key[..|name| + 1] == name + "{" && key[|key| - 1] == '}'
  {
    if |labels| == 0 then name
    else
      var k := name + "{" + LabelString(SortLabels(labels)) + "}";
      assert k[..|name| + 1] == name + "{";
      k
  }

  /** The key depends on which labels are given, not on their order. */
  lemma MakeKeyOrderIndependent(name: string, l1: Labels, l2: Labels)
    requires multiset(l1) == multiset(l2)
    ensures MakeKey(name, l1) == MakeKey(name, l2)
  {
    assert |l1| == |multiset(l1)| == |multiset(l2)| == |l2|;
    SortLabelsCorrect(l1);
    SortLabelsCorrect(l2);
    SortedLabelsUnique(SortLabels(l1), SortLabels(l2));
  }

  /** The value a counter has before its first increment. */
  function CounterValue(counters: map<string, real>, key: string): real {
    if key in counters then counters[key] else 0.0
  }

  function Observations(histograms: map<string, seq<real>>, key: string): seq<real> {
    if key in histograms then histograms[key] else []
  }

  predicate Distinct(s: seq<string>) {
    forall i, j | 0 <= i < j < |s| :: s[i] != s[j]
  }

  // ---------------------------------------------------------------------------
  // Export

  /** One exposition line: series name and value. */
  datatype Sample = Sample(series: string, value: real)

  /** The histogram bucket bounds with Python's rendering of each. */
  const Buckets: seq<(real, string)> := [
    (0.005, "0.005"), (0.01, "0.01"), (0.025, "0.025"), (0.05, "0.05"), (0.1, "0.1"),
    (0.25, "0.25"), (0.5, "0.5"), (1.0, "1.0"), (2.5, "2.5"), (5.0, "5.0"), (10.0, "10.0")
  ]

  function Sum(s: seq<real>): real {
    if |s| == 0 then 0.0 else s[0] + Sum(s[1..])
  }

  /** `sum(1 for v in values if v <= bound)`. */
  function CountAtMost(values: seq<real>, bound: real): (c: nat)
    ensures c <= |values|
  {
    if |values| == 0 then 0
    else (if values[0] <= bound then 1 else 0) + CountAtMost(values[1..], bound)
  }

  /** A larger bound never counts fewer observations. */
  lemma {:induction false} CountAtMostMonotone(values: seq<real>, b1: real, b2: real)
    requires b1 <= b2
    ensures CountAtMost(values, b1) <= CountAtMost(values, b2)
  {
    if |values| > 0 {
      CountAtMostMonotone(values[1..], b1, b2);
    }
  }

  /** Every observation is at most some bound at or above the largest one. */
  lemma {:induction false} CountAtMostAll(values: seq<real>, bound: real)
    requires forall v | v in values :: v <= bound
    ensures CountAtMost(values, bound) == |values|
  {
    if |values| > 0 {
      assert values[0] in values;
      assert forall v | v in values[1..] :: v in values;
      CountAtMostAll(values[1..], bound);
    }
  }

  function BucketSeries(key: string, rendered: string): string {
    key + "_bucket{le=\"" + rendered + "\"}"
  }

  function BucketLines(key: string, values: seq<real>, bounds: seq<(real, string)>): (lines: seq<Sample>)
    ensures |lines| == |bounds|
    ensures forall i | 0 <= i < |bounds| ::
              lines[i] == Sample(BucketSeries(key, bounds[i].1), CountAtMost(values, bounds[i].0) as real)
  {
    if |bounds| == 0 then []
    else [Sample(BucketSeries(key, bounds[0].1), CountAtMost(values, bounds[0].0) as real)]
         + BucketLines(key, values, bounds[1..])
  }

  /** `_count`, `_sum`, one line per bucket and `+Inf` for a non-empty
      histogram; nothing for an empty one. */
  function HistogramLines(key: string, values: seq<real>): (lines: seq<Sample>)
    ensures |values| == 0 ==> lines == []
    ensures |values| > 0 ==> |lines| == |Buckets| + 3
    ensures |values| > 0 ==>
              && lines[0] == Sample(key + "_count", |values| as real)
              && lines[1] == Sample(key + "_sum", Sum(values))
              && (forall i | 0 <= i < |Buckets| ::
                    lines[2 + i] == Sample(BucketSeries(key, Buckets[i].1), CountAtMost(values, Buckets[i].0) as real))
              && lines[|Buckets| + 2] == Sample(key + "_bucket{le=\"+Inf\"}", |values| as real)
  {
    if |values| == 0 then []
    else
      [Sample(key + "_count", |values| as real), Sample(key + "_sum", Sum(values))]
      + BucketLines(key, values, Buckets)
      + [Sample(key + "_bucket{le=\"+Inf\"}", |values| as real)]
  }

  /** The bucket lines of a histogram are cumulative: counts never decrease
      along the ascending bounds, never exceed `_count`, and `+Inf` equals
      `_count`. */
  lemma HistogramBucketsCumulative(key: string, values: seq<real>)
    requires |values| > 0
    ensures var lines := HistogramLines(key, values);
            && lines[0] == Sample(key + "_count", |values| as real)
            && lines[|lines| - 1] == Sample(key + "_bucket{le=\"+Inf\"}", |values| as real)
            && (forall i, j | 2 <= i <= j < |lines| :: lines[i].value <= lines[j].value)
            && (forall i | 2 <= i < |lines| :: lines[i].value <= |values| as real)
  {
    var lines := HistogramLines(key, values);
    var buckets := BucketLines(key, values, Buckets);
    assert lines == [lines[0], lines[1]] + buckets + [lines[|lines| - 1]];
    forall i, j | 0 <= i <= j < |Buckets|
      ensures buckets[i].value <= buckets[j].value
    {
      CountAtMostMonotone(values, Buckets[i].0, Buckets[j].0);
    }
    forall i, j | 2 <= i <= j < |lines|
      ensures lines[i].value <= lines[j].value
    {
      if j < |lines| - 1 {
        assert lines[i] == buckets[i - 2] && lines[j] == buckets[j - 2];
      }
    }
  }

  /** `for key, value in m.items(): lines.append(f"{key} {value}")`, in the
      dictionary's insertion order. */
  function ScalarLines(order: seq<string>, m: map<string, real>): (lines: seq<Sample>)
    ensures |lines| <= |order|
    ensures forall k | k in order && k in m :: Sample(k, m[k]) in lines
    ensures forall l | l in lines :: l.series in order && l.series in m && l.value == m[l.series]
  {
    if |order| == 0 then []
    else
      var rest := ScalarLines(order[1..], m);
      assert forall k | k in order :: k == order[0] || k in order[1..];
      (if order[0] in m then [Sample(order[0], m[order[0]])] else []) + rest
  }

  /** The histogram lines of every listed key, one key after the other. */
  function HistogramSection(order: seq<string>, hs: map<string, seq<real>>): (lines: seq<Sample>)
    ensures forall k, l | k in order && k in hs && l in HistogramLines(k, hs[k]) :: l in lines
    ensures forall l | l in lines :: exists k | k in order && k in hs :: l in HistogramLines(k, hs[k])
    ensures (forall k | k in order && k in hs :: |hs[k]| == 0) ==> lines == []
  {
    if |order| == 0 then []
    else
      var rest := HistogramSection(order[1..], hs);
      assert forall k | k in order :: k == order[0] || k in order[1..];
      (if order[0] in hs then HistogramLines(order[0], hs[order[0]]) else []) + rest
  }

  datatype HistogramSummary = HistogramSummary(count: nat, sum: real, avg: real)

  datatype JsonExport = JsonExport(
    counters: map<string, real>,
    gauges: map<string, real>,
    histograms: map<string, HistogramSummary>)

  function Summarize(values: seq<real>): (s: HistogramSummary)
    ensures s.count == |values| && s.sum == Sum(values)
    ensures |values| == 0 ==> s.avg == 0.0
    ensures |values| > 0 ==> s.avg * (|values| as real) == s.sum
  {
    HistogramSummary(|values|, Sum(values), if |values| > 0 then Sum(values) / (|values| as real) else 0.0)
  }

  // ---------------------------------------------------------------------------
  // Registry

  class MetricsRegistry {
    var counters: map<string, real>
    var gauges: map<string, real>
    var histograms: map<string, seq<real>>
    var labels: map<string, Labels>
    /** The keys of each dictionary in insertion order. */
    var counterOrder: seq<string>
    var gaugeOrder: seq<string>
    var histogramOrder: seq<string>

    ghost predicate Valid()
      reads this
    {
      && Distinct(counterOrder) && (forall k :: k in counterOrder <==> k in counters)
      && Distinct(gaugeOrder) && (forall k :: k in gaugeOrder <==> k in gauges)
      && Distinct(histogramOrder) && (forall k :: k in histogramOrder <==> k in histograms)
    }

    constructor ()
      ensures counters == map[] && gauges == map[] && histograms == map[] && labels == map[]
      ensures Valid()
    {
      counters := map[];
      gauges := map[];
      histograms := map[];
      labels := map[];
      counterOrder := [];
      gaugeOrder := [];
      histogramOrder := [];
    }

    /** Adds `value` to the series, starting an unseen one at 0. */
    method Counter(name: string, value: real, lbls: Labels)
      modifies this`counters, this`counterOrder, this`labels
      ensures var key := MakeKey(name, lbls);
              && counters == old(counters)[key := CounterValue(old(counters), key) + value]
              && counterOrder == old(counterOrder) + (if key in old(counters) then [] else [key])
              && (|lbls| > 0 ==> labels == old(labels)[key := lbls])
              && (|lbls| == 0 ==> labels == old(labels))
      ensures gauges == old(gauges) && histograms == old(histograms)
      ensures old(Valid()) ==> Valid()
    {
      var key := MakeKey(name, lbls);
      if key !in counters {
        counters := counters[key := 0.0];
        counterOrder := counterOrder + [key];
      }
      counters := counters[key := counters[key] + value];
      if |lbls| > 0 {
        labels := labels[key := lbls];
      }
    }

    /** Overwrites the series with `value`. */
    method Gauge(name: string, value: real, lbls: Labels)
      modifies this`gauges, this`gaugeOrder, this`labels
      ensures var key := MakeKey(name, lbls);
              && gauges == old(gauges)[key := value]
              && gaugeOrder == old(gaugeOrder) + (if key in old(gauges) then [] else [key])
              && (|lbls| > 0 ==> labels == old(labels)[key := lbls])
              && (|lbls| == 0 ==> labels == old(labels))
      ensures counters == old(counters) && histograms == old(histograms)
      ensures old(Valid()) ==> Valid()
    {
      var key := MakeKey(name, lbls);
      if key !in gauges {
        gaugeOrder := gaugeOrder + [key];
      }
      gauges := gauges[key := value];
      if |lbls| > 0 {
        labels := labels[key := lbls];
      }
    }

    /** Appends the observation to the series. */
    method Histogram(name: string, value: real, lbls: Labels)
      modifies this`histograms, this`histogramOrder, this`labels
      ensures var key := MakeKey(name, lbls);
              && histograms == old(histograms)[key := Observations(old(histograms), key) + [value]]
              && histogramOrder == old(histogramOrder) + (if key in old(histograms) then [] else [key])
              && (|lbls| > 0 ==> labels == old(labels)[key := lbls])
              && (|lbls| == 0 ==> labels == old(labels))
      ensures counters == old(counters) && gauges == old(gauges)
      ensures old(Valid()) ==> Valid()
    {
      var key := MakeKey(name, lbls);
      if key !in histograms {
        histograms := histograms[key := []];
        histogramOrder := histogramOrder + [key];
      }
      histograms := histograms[key := histograms[key] + [value]];
      if |lbls| > 0 {
        labels := labels[key := lbls];
      }
    }

    /** Counters, then gauges, then the histogram lines, each in insertion
        order. */
    function ExportPrometheus(): (lines: seq<Sample>)
      reads this
      ensures forall k | k in counterOrder && k in counters :: Sample(k, counters[k]) in lines
      ensures forall k | k in gaugeOrder && k in gauges :: Sample(k, gauges[k]) in lines
      ensures forall k, l | k in histogramOrder && k in histograms && l in HistogramLines(k, histograms[k]) :: l in lines
      ensures Valid() ==>
                && (forall k | k in counters :: Sample(k, counters[k]) in lines)
                && (forall k | k in gauges :: Sample(k, gauges[k]) in lines)
                && (forall k, l | k in histograms && l in HistogramLines(k, histograms[k]) :: l in lines)
      ensures forall l | l in lines ::
                || (l.series in counters && l.value == counters[l.series])
                || (l.series in gauges && l.value == gauges[l.series])
                || (exists k | k in histograms :: l in HistogramLines(k, histograms[k]))
    {
      ScalarLines(counterOrder, counters) + ScalarLines(gaugeOrder, gauges)
      + HistogramSection(histogramOrder, histograms)
    }

    function ExportJson(): (j: JsonExport)
      reads this
      ensures j.counters == counters && j.gauges == gauges
      ensures j.histograms.Keys == histograms.Keys
      ensures forall k | k in histograms ::
                j.histograms[k].count == |histograms[k]| && j.histograms[k].sum == Sum(histograms[k])
                && (|histograms[k]| == 0 ==> j.histograms[k].avg == 0.0)
                && (|histograms[k]| > 0 ==> j.histograms[k].avg * (|histograms[k]| as real) == Sum(histograms[k]))
    {
      JsonExport(counters, gauges, map k | k in histograms :: Summarize(histograms[k]))
    }
  }

  /** k increments by 1 of one series raise it by exactly k. */
  method CountTimes(reg: MetricsRegistry, name: string, lbls: Labels, k: nat)
    modifies reg
    ensures var key := MakeKey(name, lbls);
            && CounterValue(reg.counters, key) == CounterValue(old(reg.counters), key) + k as real
            && reg.counters - {key} == old(reg.counters) - {key}
    ensures reg.gauges == old(reg.gauges) && reg.histograms == old(reg.histograms)
    ensures old(reg.Valid()) ==> reg.Valid()
  {
    var key := MakeKey(name, lbls);
    var i := 0;
    while i < k
      invariant 0 <= i <= k
      invariant CounterValue(reg.counters, key) == CounterValue(old(reg.counters), key) + i as real
      invariant reg.counters - {key} == old(reg.counters) - {key}
      invariant reg.gauges == old(reg.gauges) && reg.histograms == old(reg.histograms)
      invariant old(reg.Valid()) ==> reg.Valid()
    {
      reg.Counter(name, 1.0, lbls);
      i := i + 1;
    }
  }

  // ---------------------------------------------------------------------------
  // Application helpers, over a registry passed in

  function DigitChar(d: nat): char
    requires d < 10
  {
    (48 + d) as char
  }

  predicate IsDigit(c: char) {
    '0' <= c <= '9'
  }

  /** Python's `str(n)` for a natural number: its decimal digits. */
  function NatToString(n: nat): (s: string)
    ensures |s| > 0
    ensures forall i | 0 <= i < |s| :: IsDigit(s[i])
  {
    if n < 10 then [DigitChar(n)] else NatToString(n / 10) + [DigitChar(n % 10)]
  }

  /** The number a string of decimal digits denotes, most significant first. */
  function DigitsValue(s: string): nat
    requires forall i | 0 <= i < |s| :: IsDigit(s[i])
  {
    if |s| == 0 then 0
    else
      var last := s[|s| - 1];
      assert IsDigit(last);
      DigitsValue(s[..|s| - 1]) * 10 + (last as int - '0' as int)
  }

  /** Reading the rendering back gives the number. */
  lemma {:induction false} NatToStringValue(n: nat)
    ensures DigitsValue(NatToString(n)) == n
  {
    var s := NatToString(n);
    if n >= 10 {
      NatToStringValue(n / 10);
      assert s[..|s| - 1] == NatToString(n / 10);
    }
  }

  /** Distinct numbers render differently. */
  lemma NatToStringInjective(a: nat, b: nat)
    requires NatToString(a) == NatToString(b)
    ensures a == b
  {
    NatToStringValue(a);
    NatToStringValue(b);
  }

  /** Python's `str(n)` for an integer. */
  function IntToString(n: int): string {
    if n < 0 then "-" + NatToString(-n) else NatToString(n)
  }

  /** The rendering starts with `-` exactly for negative numbers. */
  lemma IntToStringSign(n: int)
    ensures |IntToString(n)| > 0
    ensures IntToString(n)[0] == '-' <==> n < 0
  {
    if n >= 0 {
      assert IsDigit(NatToString(n)[0]);
    }
  }

  /** Distinct integers render differently, so distinct status codes give
      distinct `status` label values. */
  lemma IntToStringInjective(a: int, b: int)
    requires IntToString(a) == IntToString(b)
    ensures a == b
  {
    if a < 0 && b < 0 {
      assert NatToString(-a) == IntToString(a)[1..];
      NatToStringInjective(-a, -b);
    } else if a >= 0 && b >= 0 {
      NatToStringInjective(a, b);
    } else {
      IntToStringSign(a);
      IntToStringSign(b);
    }
  }

  function RequestLabels(httpMethod: string, endpoint: string, statusCode: int): Labels {
    [("method", httpMethod), ("endpoint", endpoint), ("status", IntToString(statusCode))]
  }

  method RecordRequest(reg: MetricsRegistry, httpMethod: string, endpoint: string, statusCode: int, durationSeconds: real)
    modifies reg
    ensures var ck := MakeKey("http_requests_total", RequestLabels(httpMethod, endpoint, statusCode));
            reg.counters == old(reg.counters)[ck := CounterValue(old(reg.counters), ck) + 1.0]
    ensures var hk := MakeKey("http_request_duration_seconds", RequestLabels(httpMethod, endpoint, statusCode));
            reg.histograms == old(reg.histograms)[hk := Observations(old(reg.histograms), hk) + [durationSeconds]]
    ensures var ls := RequestLabels(httpMethod, endpoint, statusCode);
            reg.labels == old(reg.labels)[MakeKey("http_requests_total", ls) := ls][MakeKey("http_request_duration_seconds", ls) := ls]
    ensures reg.gauges == old(reg.gauges)
    ensures old(reg.Valid()) ==> reg.Valid()
  {
    var ls := RequestLabels(httpMethod, endpoint, statusCode);
    reg.Counter("http_requests_total", 1.0, ls);
    reg.Histogram("http_request_duration_seconds", durationSeconds, ls);
  }

  method RecordError(reg: MetricsRegistry, errorType: string, component: string)
    modifies reg
    ensures var key := MakeKey("errors_total", [("type", errorType), ("component", component)]);
            reg.counters == old(reg.counters)[key := CounterValue(old(reg.counters), key) + 1.0]
            && reg.labels == old(reg.labels)[key := [("type", errorType), ("component", component)]]
    ensures reg.gauges == old(reg.gauges) && reg.histograms == old(reg.histograms)
    ensures old(reg.Valid()) ==> reg.Valid()
  {
    reg.Counter("errors_total", 1.0, [("type", errorType), ("component", component)]);
  }

  method RecordAuditEvent(reg: MetricsRegistry, action: string, severity: string)
    modifies reg
    ensures var key := MakeKey("audit_events_total", [("action", action), ("severity", severity)]);
            reg.counters == old(reg.counters)[key := CounterValue(old(reg.counters), key) + 1.0]
            && reg.labels == old(reg.labels)[key := [("action", action), ("severity", severity)]]
    ensures reg.gauges == old(reg.gauges) && reg.histograms == old(reg.histograms)
    ensures old(reg.Valid()) ==> reg.Valid()
  {
    reg.Counter("audit_events_total", 1.0, [("action", action), ("severity", severity)]);
  }

  method SetServiceHealth(reg: MetricsRegistry, service: string, healthy: bool)
    modifies reg
    ensures var key := MakeKey("service_health", [("service", service)]);
            reg.gauges == old(reg.gauges)[key := if healthy then 1.0 else 0.0]
            && reg.labels == old(reg.labels)[key := [("service", service)]]
    ensures reg.counters == old(reg.counters) && reg.histograms == old(reg.histograms)
    ensures old(reg.Valid()) ==> reg.Valid()
  {
    reg.Gauge("service_health", if healthy then 1.0 else 0.0, [("service", service)]);
  }

  method SetActiveConnections(reg: MetricsRegistry, service: string, count: int)
    modifies reg
    ensures var key := MakeKey("active_connections", [("service", service)]);
            reg.gauges == old(reg.gauges)[key := count as real]
            && reg.labels == old(reg.labels)[key := [("service", service)]]
    ensures reg.counters == old(reg.counters) && reg.histograms == old(reg.histograms)
    ensures old(reg.Valid()) ==> reg.Valid()
  {
    reg.Gauge("active_connections", count as real, [("service", service)]);
  }

  /** A success bumps the success counter and records time and size; a
      failure bumps the failure counter; both set the last status. `now` is
      the wall clock in seconds. */
  method RecordBackupStatus(reg: MetricsRegistry, success: bool, sizeBytes: int, now: real)
    modifies reg
    ensures success ==>
              reg.counters == old(reg.counters)["backup_success_total" := CounterValue(old(reg.counters), "backup_success_total") + 1.0]
              && reg.gauges == old(reg.gauges)["backup_last_success_timestamp_seconds" := now]
                                              ["backup_last_size_bytes" := sizeBytes as real]
                                              ["backup_last_status" := 1.0]
    ensures !success ==>
              reg.counters == old(reg.counters)["backup_failure_total" := CounterValue(old(reg.counters), "backup_failure_total") + 1.0]
              && reg.gauges == old(reg.gauges)["backup_last_status" := 0.0]
    ensures reg.histograms == old(reg.histograms) && reg.labels == old(reg.labels)
    ensures old(reg.Valid()) ==> reg.Valid()
  {
    if success {
      reg.Counter("backup_success_total", 1.0, []);
      reg.Gauge("backup_last_success_timestamp_seconds", now, []);
      reg.Gauge("backup_last_size_bytes", sizeBytes as real, []);
    } else {
      reg.Counter("backup_failure_total", 1.0, []);
    }
    reg.Gauge("backup_last_status", if success then 1.0 else 0.0, []);
  }

  method RecordApiCall(reg: MetricsRegistry, provider: string, model: string, tokens: int, durationSeconds: real)
    modifies reg
    ensures var ls := [("provider", provider), ("model", model)];
            var ck := MakeKey("api_calls_total", ls);
            var tk := MakeKey("api_tokens_total", ls);
            var hk := MakeKey("api_call_duration_seconds", ls);
            && reg.counters == old(reg.counters)[ck := CounterValue(old(reg.counters), ck) + 1.0]
                                                [tk := CounterValue(old(reg.counters)[ck := CounterValue(old(reg.counters), ck) + 1.0], tk) + tokens as real]
            && reg.histograms == old(reg.histograms)[hk := Observations(old(reg.histograms), hk) + [durationSeconds]]
            && reg.gauges == old(reg.gauges)
    ensures var ls := [("provider", provider), ("model", model)];
            reg.labels == old(reg.labels)[MakeKey("api_calls_total", ls) := ls]
                                         [MakeKey("api_tokens_total", ls) := ls]
                                         [MakeKey("api_call_duration_seconds", ls) := ls]
    ensures old(reg.Valid()) ==> reg.Valid()
  {
    var ls := [("provider", provider), ("model", model)];
    reg.Counter("api_calls_total", 1.0, ls);
    reg.Counter("api_tokens_total", tokens as real, ls);
    reg.Histogram("api_call_duration_seconds", durationSeconds, ls);
  }
}
