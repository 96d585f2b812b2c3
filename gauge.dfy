/** A Prometheus gauge vector as the probes use it: a family of series, one
    per label tuple, each holding a value. The probes only ever call
    `WithLabelValues(...).Set(v)`; nothing deletes or resets a series, so a
    series once set stays in the family for the life of the process. */
module Gauge {
  import opened Common

  /** One value per label name of the family, in the order of declaration. */
  type LabelTuple = seq<string>

  type Series = map<LabelTuple, int>

  /** The series after `Set(t, v)` for each `t` of `tuples`, in order. */
  function SetAll(m: Series, tuples: seq<LabelTuple>, v: int): Series
    decreases |tuples|
  {
    if tuples == [] then m else SetAll(m[tuples[0] := v], tuples[1..], v)
  }

  /** Setting a list of tuples adds exactly those tuples, gives each of
      them the value, and leaves every other series as it was. */
  lemma {:induction false} SetAllEffect(m: Series, tuples: seq<LabelTuple>, v: int)
    ensures var r := SetAll(m, tuples, v);
      r.Keys == m.Keys + (set t | t in tuples)
      && (forall t :: t in tuples ==> r[t] == v)
      && (forall t :: t in m && t !in tuples ==> r[t] == m[t])
    decreases |tuples|
  {
    if tuples != [] {
      SetAllEffect(m[tuples[0] := v], tuples[1..], v);
      assert forall t :: t in tuples <==> t == tuples[0] || t in tuples[1..];
    }
  }

  /** One step of a probe's loop: the item yielded `emitted` (or nothing). */
  lemma SetAllStep(m: Series, emitted: Option<LabelTuple>, rest: seq<LabelTuple>, v: int)
    ensures SetAll(m, Values(emitted) + rest, v)
      == SetAll(if emitted.Some? then m[emitted.value := v] else m, rest, v)
  {
    if emitted.Some? {
      assert (Values(emitted) + rest)[1..] == rest;
    } else {
      assert Values(emitted) + rest == rest;
    }
  }

  /** Writing one list of tuples after another is writing their
      concatenation: probes that run one after the other compose. */
  lemma {:induction false} SetAllAppend(m: Series, a: seq<LabelTuple>, b: seq<LabelTuple>, v: int)
    ensures SetAll(SetAll(m, a, v), b, v) == SetAll(m, a + b, v)
    decreases |a|
  {
    if a != [] {
      assert (a + b)[0] == a[0] && (a + b)[1..] == a[1..] + b;
      SetAllAppend(m[a[0] := v], a[1..], b, v);
    } else {
      assert a + b == b;
    }
  }

  /** No series is ever removed: after a first cycle that reports `first`
      and a second cycle that reports `second`, every tuple of the first cycle
      is still exported with value 1, whether or not the second reported it. */
  lemma StaleSeriesPersist(m: Series, first: seq<LabelTuple>, second: seq<LabelTuple>)
    ensures var after := SetAll(SetAll(m, first, 1), second, 1);
      after.Keys == m.Keys + (set t | t in first) + (set t | t in second)
      && forall t :: t in first ==> after[t] == 1
  {
    SetAllEffect(m, first, 1);
    SetAllEffect(SetAll(m, first, 1), second, 1);
  }

  /** A process that exits between two cycles: its tuple, set in the
      first cycle and absent from the second, is still exported with value
      1 after the second. */
  lemma ExitedProcessStaysExported(m: Series, first: seq<LabelTuple>, second: seq<LabelTuple>, t: LabelTuple)
    requires t in first && t !in second
    ensures var after := SetAll(SetAll(m, first, 1), second, 1);
      t in after && after[t] == 1
  {
    StaleSeriesPersist(m, first, second);
  }

  class GaugeVec {
    const name: string
    const labelNames: seq<string>
    var series: Series

    /** Every series has exactly one value per label name. */
    ghost predicate Valid()
      reads this
    {
      forall t :: t in series ==> |t| == |labelNames|
    }

    /** `prometheus.NewGaugeVec(GaugeOpts{Name: name}, labelNames)` */
    constructor (name: string, labelNames: seq<string>)
      ensures Valid() && series == map[]
      ensures this.name == name && this.labelNames == labelNames
    {
      this.name := name;
      this.labelNames := labelNames;
      series := map[];
    }

    /** `WithLabelValues(labels...).Set(v)`: creates the series if needed and
        overwrites its value; every other series is untouched. Prometheus
        panics when the number of values differs from the number of labels. */
    method Set(labels: LabelTuple, v: int)
      requires Valid() && |labels| == |labelNames|
      modifies this
      ensures Valid() && series == old(series)[labels := v]
    {
      series := series[labels := v];
    }
  }
}
