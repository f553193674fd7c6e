/**
 Encoding a report as OpenTelemetry metrics. The data model wants every metric name once in a scope, with
 one point per device; the encoder emits one point at a time and consolidates.
 */
module Otlp {
  import opened Wrappers
  import opened Sorting
  import opened ReportText
  import opened ReportModel

  datatype Kind = Gauge | CumulativeSum

  type Attributes = seq<(string, string)>

  datatype Point = Point(value: F64, startTime: nat, time: nat, attributes: Attributes)

  datatype Metric = Metric(name: string, unit: string, kind: Kind, points: seq<Point>)

  datatype Key = Key(name: string, unit: string, kind: Kind)

  /** One point on its way into the set. */
  datatype Emission = Emission(key: Key, point: Point)

  function KeyOf(m: Metric): Key {
    Key(m.name, m.unit, m.kind)
  }

  // ----- The set, step by step -----

  /** The index of the metric a point belongs to, or the length if there is none. */
  function Slot(metrics: seq<Metric>, key: Key): (i: nat)
    ensures i <= |metrics|
    ensures i < |metrics| ==> KeyOf(metrics[i]) == key
    ensures forall j | 0 <= j < i :: KeyOf(metrics[j]) != key
  {
    if metrics == [] || KeyOf(metrics[0]) == key then 0 else 1 + Slot(metrics[1..], key)
  }

  function Added(metrics: seq<Metric>, e: Emission): seq<Metric> {
    var i := Slot(metrics, e.key);
    if i < |metrics| then metrics[i := metrics[i].(points := metrics[i].points + [e.point])]
    else metrics + [Metric(e.key.name, e.key.unit, e.key.kind, [e.point])]
  }

  function AddedAll(metrics: seq<Metric>, es: seq<Emission>): seq<Metric> {
    if es == [] then metrics else Added(AddedAll(metrics, es[..|es| - 1]), es[|es| - 1])
  }

  // ----- What consolidation means -----

  /** The points emitted under a key, in order. */
  function PointsOf(es: seq<Emission>, key: Key): seq<Point> {
    if es == [] then []
    else
      var last := es[|es| - 1];
      PointsOf(es[..|es| - 1], key) + if last.key == key then [last.point] else []
  }

  function Keys(es: seq<Emission>): seq<Key> {
    Map(es, (e: Emission) => e.key)
  }

  function Same(k: Key): Key { k }

  /** One metric per key, in the order of first emission, each with exactly the points of its key. */
  ghost predicate Consolidates(metrics: seq<Metric>, es: seq<Emission>) {
    && Map(metrics, KeyOf) == Retain(Keys(es), Same)
    && forall i | 0 <= i < |metrics| :: metrics[i].points == PointsOf(es, KeyOf(metrics[i]))
  }

  lemma {:induction false} NoPointsWithoutKey(es: seq<Emission>, key: Key)
    ensures key in Keys(es) <==> PointsOf(es, key) != []
  {
    if es != [] {
      var rest, last := es[..|es| - 1], es[|es| - 1];
      NoPointsWithoutKey(rest, key);
      assert Keys(es) == Keys(rest) + [last.key];
    }
  }

  lemma RetainHolds(keys: seq<Key>, key: Key)
    ensures key in Retain(keys, Same) <==> key in keys
  {
    RetainUnique(keys, Same);
    if key in keys {
      var i :| 0 <= i < |keys| && keys[i] == key;
      var j := RetainCovers(keys, Same, i);
    }
  }

  lemma RetainNext(keys: seq<Key>, key: Key)
    ensures Retain(keys + [key], Same) ==
              if key in Retain(keys, Same) then Retain(keys, Same) else Retain(keys, Same) + [key]
  {
    assert (keys + [key])[..|keys|] == keys;
    var head := Retain(keys, Same);
    if key in head {
      var i :| 0 <= i < |head| && head[i] == key;
      assert Same(head[i]) == Same(key);
    }
  }

  lemma KeysNext(es: seq<Emission>)
    requires es != []
    ensures Keys(es) == Keys(es[..|es| - 1]) + [es[|es| - 1].key]
  {
  }

  lemma AddedKeys(metrics: seq<Metric>, e: Emission)
    ensures Map(Added(metrics, e), KeyOf) ==
              if e.key in Map(metrics, KeyOf) then Map(metrics, KeyOf) else Map(metrics, KeyOf) + [e.key]
  {
    var i := Slot(metrics, e.key);
    var keys := Map(metrics, KeyOf);
    if i < |metrics| {
      assert keys[i] == e.key;
    }
  }

  /** The metrics that an emission joins or starts hold its point and no other new one. */
  lemma AddedPoints(metrics: seq<Metric>, es: seq<Emission>)
    requires es != [] && UniqueKeys(metrics, KeyOf)
    requires forall i | 0 <= i < |metrics| :: metrics[i].points == PointsOf(es[..|es| - 1], KeyOf(metrics[i]))
    requires Slot(metrics, es[|es| - 1].key) == |metrics| ==> PointsOf(es[..|es| - 1], es[|es| - 1].key) == []
    ensures var after := Added(metrics, es[|es| - 1]);
            forall i | 0 <= i < |after| :: after[i].points == PointsOf(es, KeyOf(after[i]))
  {
    var slot := Slot(metrics, es[|es| - 1].key);
    assert forall i | 0 <= i < |metrics| && slot < |metrics| && i != slot :: KeyOf(metrics[i]) != KeyOf(metrics[slot]);
  }

  /** Adding one emission to a consolidation of the earlier ones. */
  lemma AddedConsolidates(metrics: seq<Metric>, es: seq<Emission>)
    requires es != [] && Consolidates(metrics, es[..|es| - 1])
    ensures Consolidates(Added(metrics, es[|es| - 1]), es)
  {
    var rest, e := es[..|es| - 1], es[|es| - 1];
    var keys := Map(metrics, KeyOf);
    KeysNext(es);
    RetainNext(Keys(rest), e.key);
    AddedKeys(metrics, e);
    ConsolidationIsProper(metrics, rest);
    if Slot(metrics, e.key) == |metrics| {
      NewKeyHasNoPoints(rest, e.key, keys);
    }
    AddedPoints(metrics, es);
  }

  lemma NewKeyHasNoPoints(es: seq<Emission>, key: Key, keys: seq<Key>)
    requires keys == Retain(Keys(es), Same) && key !in keys
    ensures PointsOf(es, key) == []
  {
    RetainHolds(Keys(es), key);
    NoPointsWithoutKey(es, key);
  }

  lemma {:induction false} AddedAllConsolidates(es: seq<Emission>)
    ensures Consolidates(AddedAll([], es), es)
  {
    if es != [] {
      AddedAllConsolidates(es[..|es| - 1]);
      AddedConsolidates(AddedAll([], es[..|es| - 1]), es);
    }
  }

  /** A consolidation never repeats a key and never has a metric without points. */
  lemma ConsolidationIsProper(metrics: seq<Metric>, es: seq<Emission>)
    requires Consolidates(metrics, es)
    ensures UniqueKeys(metrics, KeyOf)
    ensures forall i | 0 <= i < |metrics| :: metrics[i].points != []
    ensures forall e | e in es :: exists i | 0 <= i < |metrics| :: KeyOf(metrics[i]) == e.key
  {
    var keys := Map(metrics, KeyOf);
    RetainUnique(Keys(es), Same);
    forall i, j | 0 <= i < j < |metrics| ensures KeyOf(metrics[i]) != KeyOf(metrics[j]) {
      assert Same(keys[i]) != Same(keys[j]);
    }
    forall i | 0 <= i < |metrics| ensures metrics[i].points != [] {
      assert keys[i] == KeyOf(metrics[i]);
      assert KeyOf(metrics[i]) in keys;
      RetainHolds(Keys(es), KeyOf(metrics[i]));
      NoPointsWithoutKey(es, KeyOf(metrics[i]));
    }
    forall e | e in es ensures exists i | 0 <= i < |metrics| :: KeyOf(metrics[i]) == e.key {
      var k :| 0 <= k < |es| && es[k] == e;
      assert Keys(es)[k] == e.key;
      RetainHolds(Keys(es), e.key);
      var i :| 0 <= i < |keys| && keys[i] == e.key;
      assert KeyOf(metrics[i]) == e.key;
    }
  }

  function TotalPoints(metrics: seq<Metric>): nat {
    if metrics == [] then 0 else TotalPoints(metrics[..|metrics| - 1]) + |metrics[|metrics| - 1].points|
  }

  lemma {:induction false} TotalAfterUpdate(metrics: seq<Metric>, i: nat, m: Metric)
    requires i < |metrics|
    ensures TotalPoints(metrics[i := m]) == TotalPoints(metrics) - |metrics[i].points| + |m.points|
  {
    var n := |metrics| - 1;
    if i < n {
      TotalAfterUpdate(metrics[..n], i, m);
      assert metrics[i := m][..n] == metrics[..n][i := m];
    } else {
      assert metrics[i := m][..n] == metrics[..n];
    }
  }

  /** No point is lost and none is made up. */
  lemma {:induction false} PointsAreConserved(es: seq<Emission>)
    ensures TotalPoints(AddedAll([], es)) == |es|
  {
    if es != [] {
      var rest, e := es[..|es| - 1], es[|es| - 1];
      PointsAreConserved(rest);
      var before := AddedAll([], rest);
      var i := Slot(before, e.key);
      if i < |before| {
        TotalAfterUpdate(before, i, before[i].(points := before[i].points + [e.point]));
      } else {
        assert Added(before, e)[..|before|] == before;
      }
    }
  }

  // ----- The set -----

  /** What every element of a list contributes, in order. */
  function Each<T, E>(xs: seq<T>, emit: T -> seq<E>): seq<E> {
    if xs == [] then [] else Each(xs[..|xs| - 1], emit) + emit(xs[|xs| - 1])
  }

  lemma {:induction false} AddedAllConcat(metrics: seq<Metric>, first: seq<Emission>, second: seq<Emission>)
    ensures AddedAll(metrics, first + second) == AddedAll(AddedAll(metrics, first), second)
  {
    if second == [] {
      assert first + second == first;
    } else {
      assert (first + second)[..|first + second| - 1] == first + second[..|second| - 1];
      AddedAllConcat(metrics, first, second[..|second| - 1]);
    }
  }

  class MetricSet {
    var metrics: seq<Metric>

    constructor ()
      ensures metrics == []
    {
      metrics := [];
    }

    /** Append to the metric of this name, unit and kind, or start one. */
    method Add(e: Emission)
      modifies this
      ensures metrics == Added(old(metrics), e)
    {
      var i := 0;
      while i < |metrics| && KeyOf(metrics[i]) != e.key
        invariant i <= |metrics| && metrics == old(metrics)
        invariant forall j | 0 <= j < i :: KeyOf(metrics[j]) != e.key
      {
        i := i + 1;
      }
      if i < |metrics| {
        metrics := metrics[i := metrics[i].(points := metrics[i].points + [e.point])];
      } else {
        metrics := metrics + [Metric(e.key.name, e.key.unit, e.key.kind, [e.point])];
      }
    }

    method AddEach(es: seq<Emission>)
      modifies this
      ensures metrics == AddedAll(old(metrics), es)
    {
      for i := 0 to |es|
        invariant metrics == AddedAll(old(metrics), es[..i])
      {
        assert es[..i + 1][..i] == es[..i];
        Add(es[i]);
      }
      assert es[..|es|] == es;
    }

    /** Emit the points of every element of a list. */
    method AddFor<T>(xs: seq<T>, emit: T -> seq<Emission>)
      modifies this
      ensures metrics == AddedAll(old(metrics), Each(xs, emit))
    {
      for i := 0 to |xs|
        invariant metrics == AddedAll(old(metrics), Each(xs[..i], emit))
      {
        assert xs[..i + 1][..i] == xs[..i];
        AddedAllConcat(old(metrics), Each(xs[..i], emit), emit(xs[i]));
        AddEach(emit(xs[i]));
      }
      assert xs[..|xs|] == xs;
    }
  }
}
