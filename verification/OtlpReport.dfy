/** What a report emits, metric by metric, and the encoder that consolidates it. */
module OtlpReport {
  import opened Wrappers
  import opened Sorting
  import opened ReportText
  import opened ReportModel
  import opened Otlp

  // ----- What a report emits -----

  datatype Instrument =
    | CpuUtilization | MemoryUsage | MemoryLimit | Uptime | NetworkIo | FilesystemUsage | DiskIo
    | HwTemperature | GpuUtilization | GpuMemoryUsage | GpuMemoryLimit | GpuTemperature | GpuPower

  /** The name, unit and kind every point of an instrument is emitted under. */
  function InstrumentKey(i: Instrument): Key {
    match i
    case CpuUtilization => Key("system.cpu.utilization", "1", Gauge)
    case MemoryUsage => Key("system.memory.usage", "By", Gauge)
    case MemoryLimit => Key("system.memory.limit", "By", Gauge)
    case Uptime => Key("system.uptime", "s", Gauge)
    case NetworkIo => Key("system.network.io", "By", CumulativeSum)
    case FilesystemUsage => Key("system.filesystem.usage", "By", Gauge)
    case DiskIo => Key("system.disk.io", "By", CumulativeSum)
    case HwTemperature => Key("hw.temperature", "Cel", Gauge)
    case GpuUtilization => Key("hw.gpu.utilization", "1", Gauge)
    case GpuMemoryUsage => Key("hw.gpu.memory.usage", "By", Gauge)
    case GpuMemoryLimit => Key("hw.gpu.memory.limit", "By", Gauge)
    case GpuTemperature => Key("hw.gpu.temperature", "Cel", Gauge)
    case GpuPower => Key("hw.gpu.power", "W", Gauge)
  }

  function Emit(i: Instrument, value: F64, time: nat, attributes: Attributes): Emission {
    Emission(InstrumentKey(i), Point(value, 0, time, attributes))
  }

  function Count(n: nat): F64 { Fin(n as real) }

  function Fraction(v: F64): F64 { if v.Fin? then Fin(v.value / 100.0) else v }

  const I64_MAX := 0x7fff_ffff_ffff_ffff

  /** Nanoseconds since the epoch; zero before it and where they do not fit. */
  function UnixNanos(t: Time): nat {
    if 0 <= t * 1000 <= I64_MAX then t * 1000 else 0
  }

  function OfSystem(r: Report, time: nat): seq<Emission> {
    [ Emit(CpuUtilization, Fraction(r.cpu.usagePercent), time, []),
      Emit(MemoryUsage, Count(r.memory.usedBytes), time, [("system.memory.state", "used")]),
      Emit(MemoryLimit, Count(r.memory.totalBytes), time, []),
      Emit(Uptime, Count(r.uptimeSeconds), time, []) ]
  }

  function OfNetwork(n: Network, time: nat): seq<Emission> {
    var attributes := [("network.interface.name", n.name)];
    [ Emit(NetworkIo, Count(n.receivedBytesTotal), time, attributes + [("network.io.direction", "receive")]),
      Emit(NetworkIo, Count(n.transmittedBytesTotal), time, attributes + [("network.io.direction", "transmit")]) ]
  }

  function Used(d: Volume): nat {
    if d.availableBytes >= d.totalBytes then 0 else d.totalBytes - d.availableBytes
  }

  function OfDisk(d: Volume, time: nat): seq<Emission> {
    var attributes := [("system.device", d.name), ("system.filesystem.mountpoint", d.mountPoint)];
    [ Emit(FilesystemUsage, Count(Used(d)), time, attributes + [("system.filesystem.state", "used")]),
      Emit(DiskIo, Count(d.readBytesTotal), time, attributes + [("disk.io.direction", "read")]),
      Emit(DiskIo, Count(d.writtenBytesTotal), time, attributes + [("disk.io.direction", "write")]) ]
  }

  function Present(i: Instrument, value: Option<F64>, time: nat, attributes: Attributes): seq<Emission> {
    if value.Some? then [Emit(i, value.value, time, attributes)] else []
  }

  function CountOf(n: Option<nat>): Option<F64> {
    if n.Some? then Some(Count(n.value)) else None
  }

  function OfTemperature(t: Temperature, time: nat): seq<Emission> {
    Present(HwTemperature, t.celsius, time,
            [("sensor.id", t.id), ("sensor.label", t.caption), ("telemetry.source", t.source)])
  }

  function OfGpu(g: Gpu, time: nat): seq<Emission> {
    var attributes := [("gpu.id", g.id), ("gpu.vendor", g.vendor), ("gpu.name", g.name)];
    var fraction := if g.utilizationPercent.Some? then Some(Fraction(g.utilizationPercent.value)) else None;
    Present(GpuUtilization, fraction, time, attributes)
    + Present(GpuMemoryUsage, CountOf(g.memoryUsedBytes), time, attributes)
    + Present(GpuMemoryLimit, CountOf(g.memoryTotalBytes), time, attributes)
    + Present(GpuTemperature, g.temperatureCelsius, time, attributes)
    + Present(GpuPower, g.powerWatts, time, attributes)
  }

  /** The flat sequence of points a report emits, before any consolidation. */
  function Emissions(r: Report): seq<Emission> {
    var time := UnixNanos(r.collectedAt);
    OfSystem(r, time)
    + Each(r.networks, (n: Network) => OfNetwork(n, time))
    + Each(r.disks, (d: Volume) => OfDisk(d, time))
    + Each(r.temperatures, (t: Temperature) => OfTemperature(t, time))
    + Each(r.gpus, (g: Gpu) => OfGpu(g, time))
  }

  ghost predicate FromInstruments(es: seq<Emission>) {
    forall e | e in es :: exists i: Instrument :: e.key == InstrumentKey(i)
  }

  lemma {:induction false} EachFromInstruments<T>(xs: seq<T>, emit: T -> seq<Emission>)
    requires forall x | x in xs :: FromInstruments(emit(x))
    ensures FromInstruments(Each(xs, emit))
  {
    if xs != [] {
      var rest, last := xs[..|xs| - 1], xs[|xs| - 1];
      assert forall x | x in rest :: x in xs;
      EachFromInstruments(rest, emit);
    }
  }

  lemma SystemFromInstruments(r: Report, time: nat)
    ensures FromInstruments(OfSystem(r, time))
  {
    forall e | e in OfSystem(r, time) ensures exists i: Instrument :: e.key == InstrumentKey(i) {
    }
  }

  lemma EmissionsFromInstruments(r: Report)
    ensures FromInstruments(Emissions(r))
  {
    var time := UnixNanos(r.collectedAt);
    SystemFromInstruments(r, time);
    EachFromInstruments(r.networks, (n: Network) => OfNetwork(n, time));
    EachFromInstruments(r.disks, (d: Volume) => OfDisk(d, time));
    EachFromInstruments(r.temperatures, (t: Temperature) => OfTemperature(t, time));
    EachFromInstruments(r.gpus, (g: Gpu) => OfGpu(g, time));
  }

  /** No two instruments share a name: the unit and the kind never have to tell them apart. */
  lemma NamesIdentifyInstruments(i: Instrument, j: Instrument)
    requires InstrumentKey(i).name == InstrumentKey(j).name
    ensures i == j
  {
  }

  /** The points emitted under a name, in order, whatever their unit and kind. */
  function PointsNamed(es: seq<Emission>, name: string): seq<Point> {
    if es == [] then []
    else
      var last := es[|es| - 1];
      PointsNamed(es[..|es| - 1], name) + if last.key.name == name then [last.point] else []
  }

  lemma {:induction false} NameStandsForKey(es: seq<Emission>, i: Instrument)
    requires FromInstruments(es)
    ensures PointsNamed(es, InstrumentKey(i).name) == PointsOf(es, InstrumentKey(i))
  {
    if es != [] {
      var rest, last := es[..|es| - 1], es[|es| - 1];
      assert forall e | e in rest :: e in es;
      NameStandsForKey(rest, i);
      var j: Instrument :| last.key == InstrumentKey(j);
      if last.key.name == InstrumentKey(i).name {
        NamesIdentifyInstruments(i, j);
      }
    }
  }

  /**
   The encoded metrics of every report: pairwise distinct names, no metric without points, and each metric's
   points exactly those of its name in the flat emission, in order.
   */
  lemma EncodingIsProper(r: Report)
    ensures var es, metrics := Emissions(r), AddedAll([], Emissions(r));
            && (forall i, j | 0 <= i < j < |metrics| :: metrics[i].name != metrics[j].name)
            && (forall i | 0 <= i < |metrics| :: metrics[i].points != [])
            && (forall i | 0 <= i < |metrics| ::
                  metrics[i].points == PointsNamed(es, metrics[i].name) == PointsOf(es, KeyOf(metrics[i])))
            && TotalPoints(metrics) == |es|
  {
    var es, metrics := Emissions(r), AddedAll([], Emissions(r));
    EmissionsFromInstruments(r);
    AddedAllConsolidates(es);
    ConsolidationIsProper(metrics, es);
    PointsAreConserved(es);
    DistinctNames(metrics, es);
    forall i | 0 <= i < |metrics| ensures PointsNamed(es, metrics[i].name) == PointsOf(es, KeyOf(metrics[i])) {
      MetricFromInstrument(metrics, es, i);
      var a: Instrument :| KeyOf(metrics[i]) == InstrumentKey(a);
      NameStandsForKey(es, a);
    }
  }

  lemma DistinctNames(metrics: seq<Metric>, es: seq<Emission>)
    requires Consolidates(metrics, es) && FromInstruments(es)
    ensures forall i, j | 0 <= i < j < |metrics| :: metrics[i].name != metrics[j].name
  {
    ConsolidationIsProper(metrics, es);
    forall i, j | 0 <= i < j < |metrics| ensures metrics[i].name != metrics[j].name {
      MetricFromInstrument(metrics, es, i);
      MetricFromInstrument(metrics, es, j);
      var a: Instrument :| KeyOf(metrics[i]) == InstrumentKey(a);
      var b: Instrument :| KeyOf(metrics[j]) == InstrumentKey(b);
      if metrics[i].name == metrics[j].name {
        NamesIdentifyInstruments(a, b);
      }
      assert KeyOf(metrics[i]) != KeyOf(metrics[j]);
    }
  }

  lemma MetricFromInstrument(metrics: seq<Metric>, es: seq<Emission>, i: nat)
    requires Consolidates(metrics, es) && FromInstruments(es) && i < |metrics|
    ensures exists a: Instrument :: KeyOf(metrics[i]) == InstrumentKey(a)
  {
    var keys := Map(metrics, KeyOf);
    assert keys[i] in keys;
    RetainHolds(Keys(es), keys[i]);
    var k :| 0 <= k < |Keys(es)| && Keys(es)[k] == keys[i];
    assert es[k] in es;
  }

  // ----- What every metric holds -----

  /** The points of the metric with this name, unit and kind; none if there is no such metric. */
  function Exported(metrics: seq<Metric>, name: string, unit: string, kind: Kind): seq<Point> {
    if metrics == [] then []
    else
      var last := metrics[|metrics| - 1];
      Exported(metrics[..|metrics| - 1], name, unit, kind)
      + if (last.name, last.unit, last.kind) == (name, unit, kind) then last.points else []
  }

  /** How many points the first `n` elements contribute. */
  function Offset<T>(xs: seq<T>, points: T -> seq<Point>, n: nat): nat
    requires n <= |xs|
  {
    if n == 0 then 0 else Offset(xs, points, n - 1) + |points(xs[n - 1])|
  }

  predicate Placed(ps: seq<Point>, start: nat, part: seq<Point>) {
    start + |part| <= |ps| && ps[start..start + |part|] == part
  }

  /** The points of every element, each element's together, in the order of the list, and no others. */
  predicate InOrder<T>(ps: seq<Point>, xs: seq<T>, points: T -> seq<Point>) {
    && |ps| == Offset(xs, points, |xs|)
    && forall i | 0 <= i < |xs| :: Placed(ps, Offset(xs, points, i), points(xs[i]))
  }

  function Sample(value: F64, time: nat, attributes: Attributes): seq<Point> {
    [Point(value, 0, time, attributes)]
  }

  function Hundredth(percent: F64): F64 {
    match percent
    case Fin(value) => Fin(value / 100.0)
    case _ => percent
  }

  function NetworkPoints(time: nat): Network -> seq<Point> {
    (n: Network) =>
      [ Point(Fin(n.receivedBytesTotal as real), 0, time,
              [("network.interface.name", n.name), ("network.io.direction", "receive")]),
        Point(Fin(n.transmittedBytesTotal as real), 0, time,
              [("network.interface.name", n.name), ("network.io.direction", "transmit")]) ]
  }

  function FilesystemPoints(time: nat): Volume -> seq<Point> {
    (d: Volume) =>
      Sample(Fin((if d.totalBytes > d.availableBytes then d.totalBytes - d.availableBytes else 0) as real), time,
             [("system.device", d.name), ("system.filesystem.mountpoint", d.mountPoint),
              ("system.filesystem.state", "used")])
  }

  function DiskPoints(time: nat): Volume -> seq<Point> {
    (d: Volume) =>
      [ Point(Fin(d.readBytesTotal as real), 0, time,
              [("system.device", d.name), ("system.filesystem.mountpoint", d.mountPoint), ("disk.io.direction", "read")]),
        Point(Fin(d.writtenBytesTotal as real), 0, time,
              [("system.device", d.name), ("system.filesystem.mountpoint", d.mountPoint), ("disk.io.direction", "write")]) ]
  }

  function TemperaturePoints(time: nat): Temperature -> seq<Point> {
    (t: Temperature) =>
      if t.celsius.None? then []
      else Sample(t.celsius.value, time, [("sensor.id", t.id), ("sensor.label", t.caption), ("telemetry.source", t.source)])
  }

  /** One point per GPU that has the reading. */
  function GpuPoints(reading: Gpu -> Option<F64>, time: nat): Gpu -> seq<Point> {
    (g: Gpu) =>
      if reading(g).None? then []
      else Sample(reading(g).value, time, [("gpu.id", g.id), ("gpu.vendor", g.vendor), ("gpu.name", g.name)])
  }

  function Bytes(n: Option<nat>): Option<F64> {
    match n
    case None => None
    case Some(bytes) => Some(Fin(bytes as real))
  }

  predicate SystemExported(metrics: seq<Metric>, r: Report, time: nat) {
    && Exported(metrics, "system.cpu.utilization", "1", Gauge) == Sample(Hundredth(r.cpu.usagePercent), time, [])
    && Exported(metrics, "system.memory.usage", "By", Gauge)
       == Sample(Fin(r.memory.usedBytes as real), time, [("system.memory.state", "used")])
    && Exported(metrics, "system.memory.limit", "By", Gauge) == Sample(Fin(r.memory.totalBytes as real), time, [])
    && Exported(metrics, "system.uptime", "s", Gauge) == Sample(Fin(r.uptimeSeconds as real), time, [])
  }

  predicate DevicesExported(metrics: seq<Metric>, r: Report, time: nat) {
    && InOrder(Exported(metrics, "system.network.io", "By", CumulativeSum), r.networks, NetworkPoints(time))
    && InOrder(Exported(metrics, "system.filesystem.usage", "By", Gauge), r.disks, FilesystemPoints(time))
    && InOrder(Exported(metrics, "system.disk.io", "By", CumulativeSum), r.disks, DiskPoints(time))
    && InOrder(Exported(metrics, "hw.temperature", "Cel", Gauge), r.temperatures, TemperaturePoints(time))
  }

  predicate GpuExported(metrics: seq<Metric>, name: string, unit: string, reading: Gpu -> Option<F64>, gpus: seq<Gpu>,
                        time: nat)
  {
    InOrder(Exported(metrics, name, unit, Gauge), gpus, GpuPoints(reading, time))
  }

  function MemoryUsed(g: Gpu): Option<F64> { Bytes(g.memoryUsedBytes) }
  function MemoryTotal(g: Gpu): Option<F64> { Bytes(g.memoryTotalBytes) }
  function Celsius(g: Gpu): Option<F64> { g.temperatureCelsius }
  function Watts(g: Gpu): Option<F64> { g.powerWatts }

  function Utilization(g: Gpu): Option<F64> {
    match g.utilizationPercent
    case None => None
    case Some(percent) => Some(Hundredth(percent))
  }

  /** Every metric of a report, instrument by instrument. */
  predicate Exports(metrics: seq<Metric>, r: Report, time: nat) {
    && SystemExported(metrics, r, time)
    && DevicesExported(metrics, r, time)
    && GpuExported(metrics, "hw.gpu.utilization", "1", Utilization, r.gpus, time)
    && GpuExported(metrics, "hw.gpu.memory.usage", "By", MemoryUsed, r.gpus, time)
    && GpuExported(metrics, "hw.gpu.memory.limit", "By", MemoryTotal, r.gpus, time)
    && GpuExported(metrics, "hw.gpu.temperature", "Cel", Celsius, r.gpus, time)
    && GpuExported(metrics, "hw.gpu.power", "W", Watts, r.gpus, time)
  }

  /** No metric but these. */
  predicate KnownMetric(m: Metric) {
    || (m.kind.Gauge? && (m.name, m.unit) in
          {("system.cpu.utilization", "1"), ("system.memory.usage", "By"), ("system.memory.limit", "By"),
           ("system.uptime", "s"), ("system.filesystem.usage", "By"), ("hw.temperature", "Cel"),
           ("hw.gpu.utilization", "1"), ("hw.gpu.memory.usage", "By"), ("hw.gpu.memory.limit", "By"),
           ("hw.gpu.temperature", "Cel"), ("hw.gpu.power", "W")})
    || (m.kind.CumulativeSum? && (m.name, m.unit) in {("system.network.io", "By"), ("system.disk.io", "By")})
  }

  // ----- From the flat emission to the metrics -----

  lemma PlacedStill(ps: seq<Point>, more: seq<Point>, start: nat, part: seq<Point>)
    requires Placed(ps, start, part)
    ensures Placed(ps + more, start, part)
  {
    assert (ps + more)[start..start + |part|] == ps[start..start + |part|];
  }

  lemma PlacedLast(ps: seq<Point>, part: seq<Point>)
    ensures Placed(ps + part, |ps|, part)
  {
  }

  lemma {:induction false} EachLength<T>(xs: seq<T>, points: T -> seq<Point>, n: nat)
    requires n <= |xs|
    ensures |Each(xs[..n], points)| == Offset(xs, points, n)
  {
    if n > 0 {
      assert xs[..n][..n - 1] == xs[..n - 1];
      EachLength(xs, points, n - 1);
    }
  }

  lemma {:induction false} EachPlaced<T>(xs: seq<T>, points: T -> seq<Point>, n: nat, i: nat)
    requires i < n <= |xs|
    ensures Placed(Each(xs[..n], points), Offset(xs, points, i), points(xs[i]))
  {
    assert xs[..n][..n - 1] == xs[..n - 1];
    var rest := Each(xs[..n - 1], points);
    if i < n - 1 {
      EachPlaced(xs, points, n - 1, i);
      PlacedStill(rest, points(xs[n - 1]), Offset(xs, points, i), points(xs[i]));
    } else {
      EachLength(xs, points, i);
      PlacedLast(rest, points(xs[i]));
    }
  }

  lemma EachInOrder<T>(xs: seq<T>, points: T -> seq<Point>)
    ensures InOrder(Each(xs, points), xs, points)
  {
    assert xs[..|xs|] == xs;
    EachLength(xs, points, |xs|);
    forall i | 0 <= i < |xs| ensures Placed(Each(xs, points), Offset(xs, points, i), points(xs[i])) {
      EachPlaced(xs, points, |xs|, i);
    }
  }

  lemma {:induction false} PointsOfConcat(a: seq<Emission>, b: seq<Emission>, key: Key)
    ensures PointsOf(a + b, key) == PointsOf(a, key) + PointsOf(b, key)
  {
    if b == [] {
      assert a + b == a;
    } else {
      assert (a + b)[..|a + b| - 1] == a + b[..|b| - 1];
      PointsOfConcat(a, b[..|b| - 1], key);
    }
  }

  /** If every element's points under a key are known, so are those of the list. */
  lemma {:induction false} PointsOfEach<T>(xs: seq<T>, emit: T -> seq<Emission>, key: Key, points: T -> seq<Point>)
    requires forall x | x in xs :: PointsOf(emit(x), key) == points(x)
    ensures PointsOf(Each(xs, emit), key) == Each(xs, points)
  {
    if xs != [] {
      var rest := xs[..|xs| - 1];
      assert forall x | x in rest :: x in xs;
      PointsOfEach(rest, emit, key, points);
      PointsOfConcat(Each(rest, emit), emit(xs[|xs| - 1]), key);
    }
  }

  lemma {:induction false} EachNothing<T>(xs: seq<T>, points: T -> seq<Point>)
    requires forall x | x in xs :: points(x) == []
    ensures Each(xs, points) == []
  {
    if xs != [] {
      EachNothing(xs[..|xs| - 1], points);
    }
  }

  lemma PointsOfOne(i: Instrument, j: Instrument, value: F64, time: nat, attributes: Attributes)
    ensures PointsOf([Emit(i, value, time, attributes)], InstrumentKey(j)) ==
              if i == j then Sample(value, time, attributes) else []
  {
    var e := Emit(i, value, time, attributes);
    assert [e][..0] == [] && PointsOf([], InstrumentKey(j)) == [];
    if i != j && InstrumentKey(i) == InstrumentKey(j) {
      NamesIdentifyInstruments(i, j);
    }
  }

  lemma PointsOfTwo(i: Instrument, j: Instrument, v: F64, w: F64, time: nat, a: Attributes, b: Attributes)
    ensures PointsOf([Emit(i, v, time, a), Emit(i, w, time, b)], InstrumentKey(j)) ==
              if i == j then [Point(v, 0, time, a), Point(w, 0, time, b)] else []
  {
    var first, second := [Emit(i, v, time, a)], [Emit(i, w, time, b)];
    assert [Emit(i, v, time, a), Emit(i, w, time, b)] == first + second;
    PointsOfConcat(first, second, InstrumentKey(j));
    PointsOfOne(i, j, v, time, a);
    PointsOfOne(i, j, w, time, b);
  }

  lemma TwoAttributes(a: (string, string), b: (string, string))
    ensures [a] + [b] == [a, b]
  {
  }

  lemma ThreeAttributes(a: (string, string), b: (string, string), c: (string, string))
    ensures [a, b] + [c] == [a, b, c]
  {
  }

  lemma PointsOfNetwork(n: Network, time: nat, i: Instrument)
    ensures PointsOf(OfNetwork(n, time), InstrumentKey(i)) == if i == NetworkIo then NetworkPoints(time)(n) else []
  {
    var attributes := [("network.interface.name", n.name)];
    TwoAttributes(attributes[0], ("network.io.direction", "receive"));
    TwoAttributes(attributes[0], ("network.io.direction", "transmit"));
    PointsOfTwo(NetworkIo, i, Count(n.receivedBytesTotal), Count(n.transmittedBytesTotal), time,
                attributes + [("network.io.direction", "receive")], attributes + [("network.io.direction", "transmit")]);
  }

  lemma PointsOfOneAndTwo(j: Instrument, k: Instrument, i: Instrument, u: F64, v: F64, w: F64, time: nat, a: Attributes,
                          b: Attributes, c: Attributes)
    requires j != k
    ensures PointsOf([Emit(j, u, time, a)] + [Emit(k, v, time, b), Emit(k, w, time, c)], InstrumentKey(i)) ==
              if i == j then Sample(u, time, a)
              else if i == k then [Point(v, 0, time, b), Point(w, 0, time, c)]
              else []
  {
    PointsOfConcat([Emit(j, u, time, a)], [Emit(k, v, time, b), Emit(k, w, time, c)], InstrumentKey(i));
    PointsOfOne(j, i, u, time, a);
    PointsOfTwo(k, i, v, w, time, b, c);
  }

  lemma PointsOfDisk(d: Volume, time: nat, i: Instrument)
    ensures PointsOf(OfDisk(d, time), InstrumentKey(i)) ==
              match i
              case FilesystemUsage => FilesystemPoints(time)(d)
              case DiskIo => DiskPoints(time)(d)
              case _ => []
  {
    var attributes := [("system.device", d.name), ("system.filesystem.mountpoint", d.mountPoint)];
    var used := attributes + [("system.filesystem.state", "used")];
    var read, written := attributes + [("disk.io.direction", "read")], attributes + [("disk.io.direction", "write")];
    ThreeAttributes(attributes[0], attributes[1], ("system.filesystem.state", "used"));
    ThreeAttributes(attributes[0], attributes[1], ("disk.io.direction", "read"));
    ThreeAttributes(attributes[0], attributes[1], ("disk.io.direction", "write"));
    PointsOfOneAndTwo(FilesystemUsage, DiskIo, i, Count(Used(d)), Count(d.readBytesTotal), Count(d.writtenBytesTotal), time,
                      used, read, written);
    var io := [Emit(DiskIo, Count(d.readBytesTotal), time, read), Emit(DiskIo, Count(d.writtenBytesTotal), time, written)];
    assert OfDisk(d, time) == [Emit(FilesystemUsage, Count(Used(d)), time, used)] + io;
  }

  function Picked(value: Option<F64>, time: nat, attributes: Attributes): seq<Point> {
    if value.Some? then Sample(value.value, time, attributes) else []
  }

  lemma PointsOfPresent(i: Instrument, j: Instrument, value: Option<F64>, time: nat, attributes: Attributes)
    ensures PointsOf(Present(i, value, time, attributes), InstrumentKey(j)) ==
              if i == j then Picked(value, time, attributes) else []
  {
    if value.Some? {
      PointsOfOne(i, j, value.value, time, attributes);
    }
  }

  lemma PointsOfTemperature(t: Temperature, time: nat, i: Instrument)
    ensures PointsOf(OfTemperature(t, time), InstrumentKey(i)) ==
              if i == HwTemperature then TemperaturePoints(time)(t) else []
  {
    PointsOfPresent(HwTemperature, i, t.celsius, time,
                    [("sensor.id", t.id), ("sensor.label", t.caption), ("telemetry.source", t.source)]);
  }

  /** The reading of a GPU that an instrument exports. */
  function GpuReading(i: Instrument): Option<Gpu -> Option<F64>> {
    match i
    case GpuUtilization => Some(Utilization)
    case GpuMemoryUsage => Some(MemoryUsed)
    case GpuMemoryLimit => Some(MemoryTotal)
    case GpuTemperature => Some(Celsius)
    case GpuPower => Some(Watts)
    case _ => None
  }

  lemma PointsOfFive(a: seq<Emission>, b: seq<Emission>, c: seq<Emission>, d: seq<Emission>, e: seq<Emission>, key: Key)
    ensures PointsOf(a + b + c + d + e, key) ==
              PointsOf(a, key) + PointsOf(b, key) + PointsOf(c, key) + PointsOf(d, key) + PointsOf(e, key)
  {
    PointsOfConcat(a, b, key);
    PointsOfConcat(a + b, c, key);
    PointsOfConcat(a + b + c, d, key);
    PointsOfConcat(a + b + c + d, e, key);
  }

  lemma Alone(a: seq<Point>)
    ensures a + [] + [] + [] + [] == a && [] + a + [] + [] + [] == a && [] + [] + a + [] + [] == a
    ensures [] + [] + [] + a + [] == a && [] + [] + [] + [] + a == a
  {
  }

  /** At most one of five is asked for. */
  lemma OneOfFive(n: int, a: seq<Point>, b: seq<Point>, c: seq<Point>, d: seq<Point>, e: seq<Point>)
    ensures (if n == 1 then a else []) + (if n == 2 then b else []) + (if n == 3 then c else [])
            + (if n == 4 then d else []) + (if n == 5 then e else []) ==
              if n == 1 then a else if n == 2 then b else if n == 3 then c else if n == 4 then d else if n == 5 then e else []
  {
  }

  /** The number of a GPU reading in the order of its points. */
  function Reading(i: Instrument): int {
    match i
    case GpuUtilization => 1
    case GpuMemoryUsage => 2
    case GpuMemoryLimit => 3
    case GpuTemperature => 4
    case GpuPower => 5
    case _ => 0
  }

  lemma PointsOfReadings(u: Option<F64>, m: Option<F64>, l: Option<F64>, t: Option<F64>, p: Option<F64>, time: nat,
                         attributes: Attributes, i: Instrument)
    ensures PointsOf(Present(GpuUtilization, u, time, attributes) + Present(GpuMemoryUsage, m, time, attributes)
                     + Present(GpuMemoryLimit, l, time, attributes) + Present(GpuTemperature, t, time, attributes)
                     + Present(GpuPower, p, time, attributes), InstrumentKey(i)) ==
              match i
              case GpuUtilization => Picked(u, time, attributes)
              case GpuMemoryUsage => Picked(m, time, attributes)
              case GpuMemoryLimit => Picked(l, time, attributes)
              case GpuTemperature => Picked(t, time, attributes)
              case GpuPower => Picked(p, time, attributes)
              case _ => []
  {
    PointsOfFive(Present(GpuUtilization, u, time, attributes), Present(GpuMemoryUsage, m, time, attributes),
                 Present(GpuMemoryLimit, l, time, attributes), Present(GpuTemperature, t, time, attributes),
                 Present(GpuPower, p, time, attributes), InstrumentKey(i));
    PointsOfPresent(GpuUtilization, i, u, time, attributes);
    PointsOfPresent(GpuMemoryUsage, i, m, time, attributes);
    PointsOfPresent(GpuMemoryLimit, i, l, time, attributes);
    PointsOfPresent(GpuTemperature, i, t, time, attributes);
    PointsOfPresent(GpuPower, i, p, time, attributes);
    OneOfFive(Reading(i), Picked(u, time, attributes), Picked(m, time, attributes), Picked(l, time, attributes),
              Picked(t, time, attributes), Picked(p, time, attributes));
  }

  lemma PointsOfGpu(g: Gpu, time: nat, i: Instrument)
    ensures PointsOf(OfGpu(g, time), InstrumentKey(i)) ==
              if GpuReading(i).Some? then GpuPoints(GpuReading(i).value, time)(g) else []
  {
    var attributes := [("gpu.id", g.id), ("gpu.vendor", g.vendor), ("gpu.name", g.name)];
    var fraction := if g.utilizationPercent.Some? then Some(Fraction(g.utilizationPercent.value)) else None;
    PointsOfReadings(fraction, CountOf(g.memoryUsedBytes), CountOf(g.memoryTotalBytes), g.temperatureCelsius, g.powerWatts,
                     time, attributes, i);
  }

  function SystemPoints(r: Report, time: nat, i: Instrument): seq<Point> {
    match i
    case CpuUtilization => Sample(Hundredth(r.cpu.usagePercent), time, [])
    case MemoryUsage => Sample(Fin(r.memory.usedBytes as real), time, [("system.memory.state", "used")])
    case MemoryLimit => Sample(Fin(r.memory.totalBytes as real), time, [])
    case Uptime => Sample(Fin(r.uptimeSeconds as real), time, [])
    case _ => []
  }

  lemma PointsOfSystem(r: Report, time: nat, i: Instrument)
    ensures PointsOf(OfSystem(r, time), InstrumentKey(i)) == SystemPoints(r, time, i)
  {
    var cpu, limit := [Emit(CpuUtilization, Fraction(r.cpu.usagePercent), time, [])],
                      [Emit(MemoryLimit, Count(r.memory.totalBytes), time, [])];
    var used, up := [Emit(MemoryUsage, Count(r.memory.usedBytes), time, [("system.memory.state", "used")])],
                    [Emit(Uptime, Count(r.uptimeSeconds), time, [])];
    assert OfSystem(r, time) == cpu + used + limit + up + [];
    PointsOfFive(cpu, used, limit, up, [], InstrumentKey(i));
    PointsOfOne(CpuUtilization, i, Fraction(r.cpu.usagePercent), time, []);
    PointsOfOne(MemoryUsage, i, Count(r.memory.usedBytes), time, [("system.memory.state", "used")]);
    PointsOfOne(MemoryLimit, i, Count(r.memory.totalBytes), time, []);
    PointsOfOne(Uptime, i, Count(r.uptimeSeconds), time, []);
  }

  lemma NetworksPart(ns: seq<Network>, time: nat, i: Instrument)
    ensures PointsOf(Each(ns, (n: Network) => OfNetwork(n, time)), InstrumentKey(i)) ==
              if i == NetworkIo then Each(ns, NetworkPoints(time)) else []
  {
    var emit := (n: Network) => OfNetwork(n, time);
    var points := if i == NetworkIo then NetworkPoints(time) else (n: Network) => [];
    forall n | n in ns ensures PointsOf(emit(n), InstrumentKey(i)) == points(n) { PointsOfNetwork(n, time, i); }
    PointsOfEach(ns, emit, InstrumentKey(i), points);
    if i != NetworkIo { EachNothing(ns, points); }
  }

  function VolumePoints(i: Instrument, time: nat): Volume -> seq<Point> {
    match i
    case FilesystemUsage => FilesystemPoints(time)
    case DiskIo => DiskPoints(time)
    case _ => (d: Volume) => []
  }

  lemma DisksPart(ds: seq<Volume>, time: nat, i: Instrument)
    ensures PointsOf(Each(ds, (d: Volume) => OfDisk(d, time)), InstrumentKey(i)) ==
              if i in {FilesystemUsage, DiskIo} then Each(ds, VolumePoints(i, time)) else []
  {
    var emit := (d: Volume) => OfDisk(d, time);
    forall d | d in ds ensures PointsOf(emit(d), InstrumentKey(i)) == VolumePoints(i, time)(d) { PointsOfDisk(d, time, i); }
    PointsOfEach(ds, emit, InstrumentKey(i), VolumePoints(i, time));
    if i !in {FilesystemUsage, DiskIo} { EachNothing(ds, VolumePoints(i, time)); }
  }

  lemma TemperaturesPart(ts: seq<Temperature>, time: nat, i: Instrument)
    ensures PointsOf(Each(ts, (t: Temperature) => OfTemperature(t, time)), InstrumentKey(i)) ==
              if i == HwTemperature then Each(ts, TemperaturePoints(time)) else []
  {
    var emit := (t: Temperature) => OfTemperature(t, time);
    var points := if i == HwTemperature then TemperaturePoints(time) else (t: Temperature) => [];
    forall t | t in ts ensures PointsOf(emit(t), InstrumentKey(i)) == points(t) { PointsOfTemperature(t, time, i); }
    PointsOfEach(ts, emit, InstrumentKey(i), points);
    if i != HwTemperature { EachNothing(ts, points); }
  }

  lemma GpusPart(gs: seq<Gpu>, time: nat, i: Instrument)
    ensures PointsOf(Each(gs, (g: Gpu) => OfGpu(g, time)), InstrumentKey(i)) ==
              if GpuReading(i).Some? then Each(gs, GpuPoints(GpuReading(i).value, time)) else []
  {
    var emit := (g: Gpu) => OfGpu(g, time);
    var points := if GpuReading(i).Some? then GpuPoints(GpuReading(i).value, time) else (g: Gpu) => [];
    forall g | g in gs ensures PointsOf(emit(g), InstrumentKey(i)) == points(g) { PointsOfGpu(g, time, i); }
    PointsOfEach(gs, emit, InstrumentKey(i), points);
    if GpuReading(i).None? { EachNothing(gs, points); }
  }

  /** The points of one instrument in the flat emission: one of the five parts, alone. */
  function ReportPoints(r: Report, time: nat, i: Instrument): seq<Point> {
    if i == NetworkIo then Each(r.networks, NetworkPoints(time))
    else if i in {FilesystemUsage, DiskIo} then Each(r.disks, VolumePoints(i, time))
    else if i == HwTemperature then Each(r.temperatures, TemperaturePoints(time))
    else if GpuReading(i).Some? then Each(r.gpus, GpuPoints(GpuReading(i).value, time))
    else SystemPoints(r, time, i)
  }

  lemma PointsOfReport(r: Report, i: Instrument)
    ensures PointsOf(Emissions(r), InstrumentKey(i)) == ReportPoints(r, UnixNanos(r.collectedAt), i)
  {
    var time, key := UnixNanos(r.collectedAt), InstrumentKey(i);
    var s := OfSystem(r, time);
    var n, d := Each(r.networks, (n: Network) => OfNetwork(n, time)), Each(r.disks, (d: Volume) => OfDisk(d, time));
    var t, g := Each(r.temperatures, (t: Temperature) => OfTemperature(t, time)), Each(r.gpus, (g: Gpu) => OfGpu(g, time));
    PointsOfFive(s, n, d, t, g, key);
    PointsOfSystem(r, time, i);
    NetworksPart(r.networks, time, i);
    DisksPart(r.disks, time, i);
    TemperaturesPart(r.temperatures, time, i);
    GpusPart(r.gpus, time, i);
    Alone(ReportPoints(r, time, i));
  }

  lemma {:induction false} ExportedOfAbsent(metrics: seq<Metric>, key: Key)
    requires forall i | 0 <= i < |metrics| :: KeyOf(metrics[i]) != key
    ensures Exported(metrics, key.name, key.unit, key.kind) == []
  {
    if metrics != [] {
      ExportedOfAbsent(metrics[..|metrics| - 1], key);
    }
  }

  lemma {:induction false} ExportedOfUnique(metrics: seq<Metric>, i: nat)
    requires UniqueKeys(metrics, KeyOf) && i < |metrics|
    ensures Exported(metrics, metrics[i].name, metrics[i].unit, metrics[i].kind) == metrics[i].points
  {
    var n := |metrics| - 1;
    if i < n {
      assert KeyOf(metrics[i]) != KeyOf(metrics[n]);
      ExportedOfUnique(metrics[..n], i);
    } else {
      ExportedOfAbsent(metrics[..n], KeyOf(metrics[n]));
    }
  }

  /** What is exported under a key is what was emitted under it. */
  lemma ExportedIsEmitted(metrics: seq<Metric>, es: seq<Emission>, key: Key)
    requires Consolidates(metrics, es)
    ensures Exported(metrics, key.name, key.unit, key.kind) == PointsOf(es, key)
  {
    ConsolidationIsProper(metrics, es);
    if exists i | 0 <= i < |metrics| :: KeyOf(metrics[i]) == key {
      var i :| 0 <= i < |metrics| && KeyOf(metrics[i]) == key;
      ExportedOfUnique(metrics, i);
    } else {
      ExportedOfAbsent(metrics, key);
      NewKeyHasNoPoints(es, key, Map(metrics, KeyOf));
    }
  }

  /** Each instrument's points are exported under its key. */
  ghost predicate ByInstrument(metrics: seq<Metric>, r: Report, time: nat) {
    forall i: Instrument ::
      Exported(metrics, InstrumentKey(i).name, InstrumentKey(i).unit, InstrumentKey(i).kind) == ReportPoints(r, time, i)
  }

  lemma ExportedByInstrument(r: Report)
    ensures ByInstrument(AddedAll([], Emissions(r)), r, UnixNanos(r.collectedAt))
  {
    var es, metrics := Emissions(r), AddedAll([], Emissions(r));
    AddedAllConsolidates(es);
    forall i: Instrument
      ensures Exported(metrics, InstrumentKey(i).name, InstrumentKey(i).unit, InstrumentKey(i).kind) ==
                ReportPoints(r, UnixNanos(r.collectedAt), i)
    {
      ExportedIsEmitted(metrics, es, InstrumentKey(i));
      PointsOfReport(r, i);
    }
  }

  lemma SystemExports(metrics: seq<Metric>, r: Report, time: nat)
    requires ByInstrument(metrics, r, time)
    ensures SystemExported(metrics, r, time)
  {
    assert ReportPoints(r, time, CpuUtilization) == SystemPoints(r, time, CpuUtilization);
    assert ReportPoints(r, time, MemoryUsage) == SystemPoints(r, time, MemoryUsage);
    assert ReportPoints(r, time, MemoryLimit) == SystemPoints(r, time, MemoryLimit);
    assert ReportPoints(r, time, Uptime) == SystemPoints(r, time, Uptime);
  }

  lemma DeviceExports(metrics: seq<Metric>, r: Report, time: nat)
    requires ByInstrument(metrics, r, time)
    ensures DevicesExported(metrics, r, time)
  {
    assert ReportPoints(r, time, NetworkIo) == Each(r.networks, NetworkPoints(time));
    assert ReportPoints(r, time, FilesystemUsage) == Each(r.disks, FilesystemPoints(time));
    assert ReportPoints(r, time, DiskIo) == Each(r.disks, DiskPoints(time));
    assert ReportPoints(r, time, HwTemperature) == Each(r.temperatures, TemperaturePoints(time));
    EachInOrder(r.networks, NetworkPoints(time));
    EachInOrder(r.disks, FilesystemPoints(time));
    EachInOrder(r.disks, DiskPoints(time));
    EachInOrder(r.temperatures, TemperaturePoints(time));
  }

  lemma GpuExportedBy(metrics: seq<Metric>, name: string, unit: string, reading: Gpu -> Option<F64>, gpus: seq<Gpu>,
                      time: nat)
    requires Exported(metrics, name, unit, Gauge) == Each(gpus, GpuPoints(reading, time))
    ensures GpuExported(metrics, name, unit, reading, gpus, time)
  {
    EachInOrder(gpus, GpuPoints(reading, time));
  }

  lemma GpuUtilizationExports(metrics: seq<Metric>, r: Report, time: nat)
    requires ByInstrument(metrics, r, time)
    ensures GpuExported(metrics, "hw.gpu.utilization", "1", Utilization, r.gpus, time)
  {
    assert ReportPoints(r, time, GpuUtilization) == Each(r.gpus, GpuPoints(Utilization, time));
    GpuExportedBy(metrics, "hw.gpu.utilization", "1", Utilization, r.gpus, time);
  }

  lemma GpuMemoryUsageExports(metrics: seq<Metric>, r: Report, time: nat)
    requires ByInstrument(metrics, r, time)
    ensures GpuExported(metrics, "hw.gpu.memory.usage", "By", MemoryUsed, r.gpus, time)
  {
    assert ReportPoints(r, time, GpuMemoryUsage) == Each(r.gpus, GpuPoints(MemoryUsed, time));
    GpuExportedBy(metrics, "hw.gpu.memory.usage", "By", MemoryUsed, r.gpus, time);
  }

  lemma GpuMemoryLimitExports(metrics: seq<Metric>, r: Report, time: nat)
    requires ByInstrument(metrics, r, time)
    ensures GpuExported(metrics, "hw.gpu.memory.limit", "By", MemoryTotal, r.gpus, time)
  {
    assert ReportPoints(r, time, GpuMemoryLimit) == Each(r.gpus, GpuPoints(MemoryTotal, time));
    GpuExportedBy(metrics, "hw.gpu.memory.limit", "By", MemoryTotal, r.gpus, time);
  }

  lemma GpuTemperatureExports(metrics: seq<Metric>, r: Report, time: nat)
    requires ByInstrument(metrics, r, time)
    ensures GpuExported(metrics, "hw.gpu.temperature", "Cel", Celsius, r.gpus, time)
  {
    assert ReportPoints(r, time, GpuTemperature) == Each(r.gpus, GpuPoints(Celsius, time));
    GpuExportedBy(metrics, "hw.gpu.temperature", "Cel", Celsius, r.gpus, time);
  }

  lemma GpuPowerExports(metrics: seq<Metric>, r: Report, time: nat)
    requires ByInstrument(metrics, r, time)
    ensures GpuExported(metrics, "hw.gpu.power", "W", Watts, r.gpus, time)
  {
    assert ReportPoints(r, time, GpuPower) == Each(r.gpus, GpuPoints(Watts, time));
    GpuExportedBy(metrics, "hw.gpu.power", "W", Watts, r.gpus, time);
  }

  lemma InstrumentIsKnown(i: Instrument, m: Metric)
    requires KeyOf(m) == InstrumentKey(i)
    ensures KnownMetric(m)
  {
  }

  lemma AllKnown(r: Report)
    ensures forall m | m in AddedAll([], Emissions(r)) :: KnownMetric(m)
  {
    var metrics := AddedAll([], Emissions(r));
    AddedAllConsolidates(Emissions(r));
    EmissionsFromInstruments(r);
    forall m | m in metrics ensures KnownMetric(m) {
      var k :| 0 <= k < |metrics| && metrics[k] == m;
      MetricFromInstrument(metrics, Emissions(r), k);
      var i: Instrument :| KeyOf(m) == InstrumentKey(i);
      InstrumentIsKnown(i, m);
    }
  }

  /** Every report is exported instrument by instrument. */
  lemma EncodingExports(r: Report)
    ensures Exports(AddedAll([], Emissions(r)), r, UnixNanos(r.collectedAt))
  {
    var metrics, time := AddedAll([], Emissions(r)), UnixNanos(r.collectedAt);
    ExportedByInstrument(r);
    SystemExports(metrics, r, time);
    DeviceExports(metrics, r, time);
    GpuUtilizationExports(metrics, r, time);
    GpuMemoryUsageExports(metrics, r, time);
    GpuMemoryLimitExports(metrics, r, time);
    GpuTemperatureExports(metrics, r, time);
    GpuPowerExports(metrics, r, time);
  }

  // ----- The encoder -----
  method EncodeReport(r: Report) returns (metrics: seq<Metric>)
    ensures metrics == AddedAll([], Emissions(r))
    ensures forall i, j | 0 <= i < j < |metrics| :: metrics[i].name != metrics[j].name
    ensures forall m | m in metrics :: KnownMetric(m) && m.points != []
    ensures Exports(metrics, r,
                    if 0 <= r.collectedAt * 1000 <= 0x7fff_ffff_ffff_ffff then r.collectedAt * 1000 else 0)
  {
    var time := UnixNanos(r.collectedAt);
    var networks := (n: Network) => OfNetwork(n, time);
    var disks := (d: Volume) => OfDisk(d, time);
    var temperatures := (t: Temperature) => OfTemperature(t, time);
    var gpus := (g: Gpu) => OfGpu(g, time);
    var metricSet := new MetricSet();
    metricSet.AddEach(OfSystem(r, time));
    ghost var so := OfSystem(r, time);
    metricSet.AddFor(r.networks, networks);
    AddedAllConcat([], so, Each(r.networks, networks));
    so := so + Each(r.networks, networks);
    metricSet.AddFor(r.disks, disks);
    AddedAllConcat([], so, Each(r.disks, disks));
    so := so + Each(r.disks, disks);
    metricSet.AddFor(r.temperatures, temperatures);
    AddedAllConcat([], so, Each(r.temperatures, temperatures));
    so := so + Each(r.temperatures, temperatures);
    metricSet.AddFor(r.gpus, gpus);
    AddedAllConcat([], so, Each(r.gpus, gpus));
    EncodingIsProper(r);
    EncodingExports(r);
    AllKnown(r);
    return metricSet.metrics;
  }
}
