/**
 * Bandwidth telemetry as returned by the provider's telemetry endpoint, and
 * the per-product split of its records into inbound and outbound point
 * series for the monitoring backend (lambda_function.py:95-110).
 */
module Telemetry {

  /** One raw provider sample `[tsMs, value]`; the value is passed through untouched. */
  datatype RawSample<V> = RawSample(tsMs: int, value: V)

  /** One telemetry record: a direction subtype and its samples. */
  datatype TelemetryRecord<V> = TelemetryRecord(subtype: string, samples: seq<RawSample<V>>)

  /** One point as the monitoring backend receives it: `(epochSeconds, value)`. */
  datatype Point<V> = Point(ts: int, value: V)

  const InSubtype: string := "In"
  const OutSubtype: string := "Out"

  /**
   * `int(ms / 1000)`: the quotient truncated toward zero. The result is the
   * whole number of seconds contained in `ms`, on the same side of zero.
   */
  function ToSeconds(ms: int): (s: int)
    ensures 0 <= ms ==> 0 <= s && s * 1000 <= ms < s * 1000 + 1000
    ensures ms < 0 ==> s <= 0 && s * 1000 - 1000 < ms <= s * 1000
  {
    if 0 <= ms then ms / 1000 else -((-ms) / 1000)
  }

  /** On the non-negative timestamps the provider returns, truncation is floor division. */
  lemma ToSecondsIsFloor(ms: int)
    requires 0 <= ms
    ensures ToSeconds(ms) == ms / 1000
  {
    var s := ToSeconds(ms);
    assert s * 1000 <= ms < s * 1000 + 1000;
  }

  /** Whole seconds are converted exactly: `ToSeconds` undoes the scaling to milliseconds. */
  lemma {:induction false} ToSecondsOfWholeSeconds(s: int)
    ensures ToSeconds(s * 1000) == s
  {
    var r := ToSeconds(s * 1000);
    if 0 <= s * 1000 {
      assert r * 1000 <= s * 1000 < r * 1000 + 1000;
    } else {
      assert r * 1000 - 1000 < s * 1000 <= r * 1000;
    }
  }

  function Convert<V>(sample: RawSample<V>): Point<V>
  {
    Point(ToSeconds(sample.tsMs), sample.value)
  }

  function ConvertAll<V>(samples: seq<RawSample<V>>): seq<Point<V>>
  {
    seq(|samples|, j requires 0 <= j < |samples| => Convert(samples[j]))
  }

  /** What one record adds to the series of direction `subtype`. */
  function Contribution<V>(r: TelemetryRecord<V>, subtype: string): seq<Point<V>>
  {
    if r.subtype == subtype then ConvertAll(r.samples) else []
  }

  /**
   * The series of direction `subtype`: the converted samples of the records
   * of that subtype, record after record, sample after sample.
   */
  function Series<V>(records: seq<TelemetryRecord<V>>, subtype: string): seq<Point<V>>
  {
    if records == [] then []
    else Series(records[..|records| - 1], subtype) + Contribution(records[|records| - 1], subtype)
  }

  /** The number of samples held by the records of direction `subtype`. */
  function SampleCount<V>(records: seq<TelemetryRecord<V>>, subtype: string): nat
  {
    if records == [] then 0
    else
      var last := records[|records| - 1];
      SampleCount(records[..|records| - 1], subtype) + (if last.subtype == subtype then |last.samples| else 0)
  }

  /** The inbound series holds as many points as the "In" records hold samples. */
  lemma {:induction false} SeriesLength<V>(records: seq<TelemetryRecord<V>>, subtype: string)
    ensures |Series(records, subtype)| == SampleCount(records, subtype)
  {
    if records != [] {
      SeriesLength(records[..|records| - 1], subtype);
    }
  }

  /** Splitting the record list splits the series at the same place. */
  lemma {:induction false} SeriesAppend<V>(a: seq<TelemetryRecord<V>>, b: seq<TelemetryRecord<V>>, subtype: string)
    ensures Series(a + b, subtype) == Series(a, subtype) + Series(b, subtype)
  {
    if b == [] {
      assert a + b == a;
    } else {
      var n := |b| - 1;
      assert (a + b)[..|a + b| - 1] == a + b[..n];
      assert (a + b)[|a + b| - 1] == b[n];
      SeriesAppend(a, b[..n], subtype);
    }
  }

  /**
   * Sample `j` of record `i`, when that record is of direction `subtype`,
   * sits in the series at the position just after all samples of the
   * earlier records of that direction, converted to seconds with its value
   * unchanged. Positions therefore follow record order, then sample order.
   */
  lemma {:induction false} SeriesAt<V>(records: seq<TelemetryRecord<V>>, subtype: string, i: nat, j: nat)
    requires i < |records| && records[i].subtype == subtype && j < |records[i].samples|
    ensures SampleCount(records[..i], subtype) + j < |Series(records, subtype)|
    ensures Series(records, subtype)[SampleCount(records[..i], subtype) + j] == Convert(records[i].samples[j])
  {
    var n := |records| - 1;
    var front := records[..n];
    if i == n {
      SeriesLength(front, subtype);
    } else {
      assert front[..i] == records[..i];
      SeriesAt(front, subtype, i, j);
    }
  }

  /**
   * Conversely, every point of the series is some sample of some record of
   * direction `subtype`, at the position `SeriesAt` gives it.
   */
  lemma {:induction false} SeriesFrom<V>(records: seq<TelemetryRecord<V>>, subtype: string, k: nat)
    requires k < |Series(records, subtype)|
    ensures exists i: nat, j: nat ::
      && i < |records| && records[i].subtype == subtype && j < |records[i].samples|
      && k == SampleCount(records[..i], subtype) + j
      && Series(records, subtype)[k] == Convert(records[i].samples[j])
  {
    var n := |records| - 1;
    var front := records[..n];
    SeriesLength(front, subtype);
    if k < |Series(front, subtype)| {
      SeriesFrom(front, subtype, k);
      var i: nat, j: nat :|
        && i < |front| && front[i].subtype == subtype && j < |front[i].samples|
        && k == SampleCount(front[..i], subtype) + j
        && Series(front, subtype)[k] == Convert(front[i].samples[j]);
      assert front[..i] == records[..i];
      assert Series(records, subtype)[k] == Convert(records[i].samples[j]);
    } else {
      var j := k - SampleCount(front, subtype);
      assert records[..n] == front;
      assert Series(records, subtype)[k] == Convert(records[n].samples[j]);
    }
  }

  /** Sample counts only grow along the record list. */
  lemma {:induction false} SampleCountMonotone<V>(records: seq<TelemetryRecord<V>>, subtype: string, i: nat, i': nat)
    requires i <= i' <= |records|
    ensures SampleCount(records[..i], subtype) + (if i < i' && records[i].subtype == subtype then |records[i].samples| else 0)
            <= SampleCount(records[..i'], subtype)
  {
    if i < i' {
      var p := records[..i'];
      assert p[..i' - 1] == records[..i' - 1];
      SampleCountMonotone(records, subtype, i, i' - 1);
    }
  }

  /**
   * Order is preserved: of two samples of direction `subtype`, the one that
   * comes first (earlier record, or same record and earlier sample) comes
   * first in the series, and both appear there converted.
   */
  lemma SeriesKeepsOrder<V>(records: seq<TelemetryRecord<V>>, subtype: string, i: nat, j: nat, i': nat, j': nat)
    requires i < |records| && records[i].subtype == subtype && j < |records[i].samples|
    requires i' < |records| && records[i'].subtype == subtype && j' < |records[i'].samples|
    requires i < i' || (i == i' && j < j')
    ensures var k, k' := SampleCount(records[..i], subtype) + j, SampleCount(records[..i'], subtype) + j';
      && k < k' < |Series(records, subtype)|
      && Series(records, subtype)[k] == Convert(records[i].samples[j])
      && Series(records, subtype)[k'] == Convert(records[i'].samples[j'])
  {
    SampleCountMonotone(records, subtype, i, i');
    SeriesAt(records, subtype, i, j);
    SeriesAt(records, subtype, i', j');
  }

  /**
   * A record whose subtype is neither "In" nor "Out" contributes nothing:
   * removing it changes neither series.
   */
  lemma OtherSubtypeIgnored<V>(before: seq<TelemetryRecord<V>>, r: TelemetryRecord<V>, after: seq<TelemetryRecord<V>>)
    requires r.subtype != InSubtype && r.subtype != OutSubtype
    ensures Series(before + [r] + after, InSubtype) == Series(before + after, InSubtype)
    ensures Series(before + [r] + after, OutSubtype) == Series(before + after, OutSubtype)
  {
    RecordIgnored(before, r, after, InSubtype);
    RecordIgnored(before, r, after, OutSubtype);
  }

  lemma RecordIgnored<V>(before: seq<TelemetryRecord<V>>, r: TelemetryRecord<V>, after: seq<TelemetryRecord<V>>, subtype: string)
    requires r.subtype != subtype
    ensures Series(before + [r] + after, subtype) == Series(before + after, subtype)
  {
    SeriesAppend(before + [r], after, subtype);
    SeriesAppend(before, after, subtype);
    assert (before + [r])[..|before|] == before;
    assert Series(before + [r], subtype) == Series(before, subtype) + [];
  }

  /**
   * Classifies the records of one product and converts their timestamps
   * from milliseconds to seconds, appending to the inbound and outbound
   * lists in record order and sample order; other subtypes are skipped.
   */
  method Classify<V>(records: seq<TelemetryRecord<V>>) returns (mbpsIn: seq<Point<V>>, mbpsOut: seq<Point<V>>)
    ensures mbpsIn == Series(records, InSubtype)
    ensures mbpsOut == Series(records, OutSubtype)
  {
    mbpsIn, mbpsOut := [], [];
    for i := 0 to |records|
      invariant mbpsIn == Series(records[..i], InSubtype)
      invariant mbpsOut == Series(records[..i], OutSubtype)
    {
      var r := records[i];
      assert records[..i + 1][..i] == records[..i];
      if r.subtype == InSubtype {
        for j := 0 to |r.samples|
          invariant mbpsIn == Series(records[..i], InSubtype) + ConvertAll(r.samples[..j])
        {
          mbpsIn := mbpsIn + [Convert(r.samples[j])];
        }
        assert r.samples[..|r.samples|] == r.samples;
      } else if r.subtype == OutSubtype {
        for j := 0 to |r.samples|
          invariant mbpsOut == Series(records[..i], OutSubtype) + ConvertAll(r.samples[..j])
        {
          mbpsOut := mbpsOut + [Convert(r.samples[j])];
        }
        assert r.samples[..|r.samples|] == r.samples;
      }
    }
    assert records[..|records|] == records;
  }

  /**
   * An inbound, an outbound and an unknown record of one sample each: the
   * unknown record is dropped and the timestamps become seconds.
   */
  lemma ClassifyExample()
    ensures var records := [ TelemetryRecord("In", [RawSample(1000, 5)]),
                             TelemetryRecord("Out", [RawSample(2000, 7)]),
                             TelemetryRecord("Foo", [RawSample(3000, 9)]) ];
      Series(records, InSubtype) == [Point(1, 5)] && Series(records, OutSubtype) == [Point(2, 7)]
  {
    var records := [ TelemetryRecord("In", [RawSample(1000, 5)]),
                     TelemetryRecord("Out", [RawSample(2000, 7)]),
                     TelemetryRecord("Foo", [RawSample(3000, 9)]) ];
    assert ToSeconds(1000) == 1 && ToSeconds(2000) == 2;
    assert ConvertAll(records[0].samples) == [Point(1, 5)];
    assert ConvertAll(records[1].samples) == [Point(2, 7)];
    assert records[..1][..0] == [];
    assert Series(records[..1], InSubtype) == [Point(1, 5)];
    assert Series(records[..1], OutSubtype) == [];
    assert records[..2][..1] == records[..1];
    assert Series(records[..2], InSubtype) == [Point(1, 5)];
    assert Series(records[..2], OutSubtype) == [Point(2, 7)];
    assert records[..3][..2] == records[..2];
    assert records[..3] == records;
  }
}
