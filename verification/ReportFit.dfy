/** Cutting a report to the byte limit: what is kept, what may be lost, and when the summary maxima survive. */
module ReportFit {
  import opened Wrappers
  import opened Sorting
  import opened ReportText
  import opened ReportModel
  import opened ReportNormal
  import opened ReportPriority
  import opened ReportContract

  /** `s` is `r` with shorter lists and perhaps without its hardware inventory. */
  predicate Cut(s: Report, r: Report) {
    && s == r.(hardware := s.hardware, capabilities := s.capabilities, networks := s.networks, disks := s.disks,
               temperatures := s.temperatures, gpus := s.gpus)
    && (s.hardware == r.hardware || s.hardware == None)
    && s.capabilities <= r.capabilities && s.networks <= r.networks && s.disks <= r.disks
    && s.temperatures <= r.temperatures && s.gpus <= r.gpus
  }

  /** Every list still has at least its minimum, as far as it ever had. */
  predicate KeepsMinima(s: Report, r: Report, m: Minima) {
    && |s.capabilities| >= AtMost(m.capability, |r.capabilities|)
    && |s.networks| >= AtMost(m.network, |r.networks|)
    && |s.disks| >= AtMost(m.disk, |r.disks|)
    && |s.temperatures| >= AtMost(m.temperature, |r.temperatures|)
    && |s.gpus| >= AtMost(m.gpu, |r.gpus|)
  }

  predicate Fits(codec: Codec, r: Report) {
    Size(codec, r) <= CLIENT_REPORT_MAX_BODY_BYTES
  }

  /** Every round takes at least one element of every list above its minimum and none of the others. */
  lemma ShrunkCuts(r: Report, m: Minima, ratio: real)
    requires ratio >= 0.0
    ensures Cut(Shrunk(r, m, ratio), r) && KeepsMinima(Shrunk(r, m, ratio), r, m)
    ensures Removable(r, m) > 0 ==> Removable(Shrunk(r, m, ratio), m) < Removable(r, m)
    ensures |r.capabilities| > m.capability ==> m.capability <= |Shrunk(r, m, ratio).capabilities| < |r.capabilities|
    ensures |r.networks| > m.network ==> m.network <= |Shrunk(r, m, ratio).networks| < |r.networks|
    ensures |r.disks| > m.disk ==> m.disk <= |Shrunk(r, m, ratio).disks| < |r.disks|
    ensures |r.temperatures| > m.temperature ==> m.temperature <= |Shrunk(r, m, ratio).temperatures| < |r.temperatures|
    ensures |r.gpus| > m.gpu ==> m.gpu <= |Shrunk(r, m, ratio).gpus| < |r.gpus|
    ensures Shrunk(r, m, ratio).hardware == r.hardware
  {
  }

  lemma {:induction false} ShrinkRoundsCut(codec: Codec, r: Report, m: Minima)
    ensures var s := ShrinkRounds(codec, r, m);
            && Cut(s, r) && KeepsMinima(s, r, m) && s.hardware == r.hardware
            && (Fits(codec, s) || Removable(s, m) == 0)
    decreases Removable(r, m)
  {
    if !Fits(codec, r) && Removable(r, m) > 0 {
      var ratio := Ratio(Size(codec, r));
      RatioBounds(Size(codec, r));
      var next := Shrunk(r, m, ratio);
      ShrunkCuts(r, m, ratio);
      ShrinkRoundsCut(codec, next, m);
    }
  }

  /** Nothing optional is left. */
  predicate Exhausted(r: Report, capabilityMinimum: nat) {
    && r.temperatures == [] && r.disks == [] && r.networks == [] && r.gpus == []
    && |r.capabilities| <= capabilityMinimum
  }

  lemma {:induction false} RemoveRoundsCut(codec: Codec, r: Report, capabilityMinimum: nat)
    ensures var s := RemoveRounds(codec, r, capabilityMinimum);
            && Cut(s, r) && s.hardware == r.hardware
            && |s.capabilities| >= AtMost(capabilityMinimum, |r.capabilities|)
            && (Fits(codec, s) || Exhausted(s, capabilityMinimum))
    decreases ListTotal(r)
  {
    if !Fits(codec, r) {
      var next := WithoutLastOptional(r, capabilityMinimum);
      if next.Some? {
        RemoveRoundsCut(codec, next.value, capabilityMinimum);
      }
    }
  }

  // ----- What one step may take -----

  /** At most 97% of the share of the list that the byte limit allows. */
  predicate WithinShare(kept: nat, length: nat, current: nat) {
    100 * current * kept <= 97 * CLIENT_REPORT_MAX_BODY_BYTES * length
  }

  /** The longest part within its share, but never below the minimum; a list at or below its minimum loses nothing. */
  predicate Scaled(after: nat, before: nat, minimum: nat, current: nat) {
    if before <= minimum then after == before
    else
      && minimum <= after < before
      && !WithinShare(after + 1, before, current)
      && (after > minimum ==> WithinShare(after, before, current))
  }

  function Share(length: nat, current: nat): real
    requires current > 0
  {
    length as real * (CLIENT_REPORT_MAX_BODY_BYTES as real / current as real * 0.97)
  }

  lemma ShareOf(length: nat, current: nat, k: nat)
    requires current > 0
    ensures k as real <= Share(length, current) <==> WithinShare(k, length, current)
  {
    var whole, limit, c := length as real, CLIENT_REPORT_MAX_BODY_BYTES as real, current as real;
    var share := Share(length, current);
    assert share * (100.0 * c) == 97.0 * limit * whole by {
      assert limit / c * c == limit;
    }
    var n, d := k as real, 100.0 * c;
    assert n <= share <==> n * d <= share * d;
    assert (100 * current * k) as real == n * d;
    assert (97 * CLIENT_REPORT_MAX_BODY_BYTES * length) as real == 97.0 * limit * whole;
  }

  lemma RatioOfExcess(current: nat)
    requires current > CLIENT_REPORT_MAX_BODY_BYTES
    ensures 0.0 <= Ratio(current) < 1.0
    ensures Ratio(current) == CLIENT_REPORT_MAX_BODY_BYTES as real / current as real * 0.97
  {
    RatioBounds(current);
    assert CLIENT_REPORT_MAX_BODY_BYTES as real / current as real < 1.0;
  }

  lemma Smaller(length: nat, ratio: real)
    requires 0.0 <= ratio < 1.0 && length > 0
    ensures 0.0 <= length as real * ratio < length as real
  {
  }

  lemma ShareBelow(length: nat, current: nat)
    requires current > CLIENT_REPORT_MAX_BODY_BYTES && length > 0
    ensures Ratio(current) >= 0.0 && Share(length, current) == length as real * Ratio(current)
    ensures 0.0 <= Share(length, current) < length as real
  {
    RatioOfExcess(current);
    var ratio := Ratio(current);
    assert Share(length, current) == length as real * ratio;
    Smaller(length, ratio);
  }

  lemma TargetOfShare(length: nat, minimum: nat, ratio: real, share: real)
    requires ratio >= 0.0 && share == length as real * ratio
    requires length > minimum && 0.0 <= share < length as real
    ensures Target(length, minimum, ratio) == if share.Floor < minimum then minimum else share.Floor
  {
  }

  lemma TargetIsScaled(length: nat, minimum: nat, current: nat)
    requires current > CLIENT_REPORT_MAX_BODY_BYTES
    ensures 0.0 <= Ratio(current)
    ensures Scaled(Target(length, minimum, Ratio(current)), length, minimum, current)
  {
    RatioBounds(current);
    if length > minimum {
      ShareBelow(length, current);
      TargetOfShare(length, minimum, Ratio(current), Share(length, current));
      ScaledToShare(length, minimum, current, Share(length, current), Target(length, minimum, Ratio(current)));
    }
  }

  lemma ScaledToShare(length: nat, minimum: nat, current: nat, share: real, target: nat)
    requires length > minimum && current > 0 && share == Share(length, current)
    requires target == (if share.Floor < minimum then minimum else share.Floor) && target < length
    ensures Scaled(target, length, minimum, current)
  {
    ShareOf(length, current, target);
    ShareOf(length, current, target + 1);
  }

  /** One round: every list is scaled to the share the byte limit allows, from its end. */
  predicate Round(codec: Codec, after: Report, before: Report, m: Minima) {
    && Cut(after, before) && after.hardware == before.hardware
    && Scaled(|after.capabilities|, |before.capabilities|, m.capability, Size(codec, before))
    && Scaled(|after.networks|, |before.networks|, m.network, Size(codec, before))
    && Scaled(|after.disks|, |before.disks|, m.disk, Size(codec, before))
    && Scaled(|after.temperatures|, |before.temperatures|, m.temperature, Size(codec, before))
    && Scaled(|after.gpus|, |before.gpus|, m.gpu, Size(codec, before))
  }

  lemma ShrunkIsRound(codec: Codec, r: Report, m: Minima)
    requires !Fits(codec, r)
    ensures 0.0 <= Ratio(Size(codec, r)) && Round(codec, Shrunk(r, m, Ratio(Size(codec, r))), r, m)
  {
    TargetIsScaled(|r.capabilities|, m.capability, Size(codec, r));
    TargetIsScaled(|r.networks|, m.network, Size(codec, r));
    TargetIsScaled(|r.disks|, m.disk, Size(codec, r));
    TargetIsScaled(|r.temperatures|, m.temperature, Size(codec, r));
    TargetIsScaled(|r.gpus|, m.gpu, Size(codec, r));
  }

  /** The last element of the first list that has one to give up: temperatures, disks, networks, GPUs, capabilities. */
  predicate LostLast(after: Report, before: Report, capabilityMinimum: nat) {
    && Cut(after, before) && after.hardware == before.hardware && ListTotal(after) == ListTotal(before) - 1
    && (before.temperatures != [] ==> |after.temperatures| < |before.temperatures|)
    && (before.temperatures == [] && before.disks != [] ==> |after.disks| < |before.disks|)
    && (before.temperatures == [] && before.disks == [] && before.networks != [] ==> |after.networks| < |before.networks|)
    && (before.temperatures == [] && before.disks == [] && before.networks == [] && before.gpus != [] ==>
          |after.gpus| < |before.gpus|)
    && (before.temperatures == [] && before.disks == [] && before.networks == [] && before.gpus == [] ==>
          capabilityMinimum <= |after.capabilities| < |before.capabilities|)
  }

  lemma WithoutLastIsLost(r: Report, capabilityMinimum: nat)
    ensures var next := WithoutLastOptional(r, capabilityMinimum);
            && (next.None? <==> Exhausted(r, capabilityMinimum))
            && (next.Some? ==> LostLast(next.value, r, capabilityMinimum))
  {
  }

  /** Every list is at its minimum or below. */
  predicate AtMinima(r: Report, m: Minima) {
    && |r.capabilities| <= m.capability && |r.networks| <= m.network && |r.disks| <= m.disk
    && |r.temperatures| <= m.temperature && |r.gpus| <= m.gpu
  }

  /** Each report of a path but the last does not fit and is followed by one step from it. */
  ghost predicate Path(codec: Codec, path: seq<Report>, step: (Report, Report) -> bool) {
    |path| <= 1 || (!Fits(codec, path[0]) && step(path[1], path[0]) && Path(codec, path[1..], step))
  }

  lemma PathOneMore(codec: Codec, r: Report, path: seq<Report>, step: (Report, Report) -> bool)
    requires path != [] && Path(codec, path, step) && !Fits(codec, r) && step(path[0], r)
    ensures Path(codec, [r] + path, step)
  {
    assert ([r] + path)[1..] == path;
  }

  lemma {:induction false} ShrinkPath(codec: Codec, r: Report, m: Minima, round: (Report, Report) -> bool)
    returns (path: seq<Report>)
    requires forall a, b :: round(a, b) <==> Round(codec, a, b, m)
    ensures path != [] && path[0] == r && Path(codec, path, round)
    ensures var last := path[|path| - 1]; last == ShrinkRounds(codec, r, m) && (Fits(codec, last) || AtMinima(last, m))
    decreases Removable(r, m)
  {
    if Fits(codec, r) || Removable(r, m) == 0 {
      path := [r];
    } else {
      RatioBounds(Size(codec, r));
      var next := Shrunk(r, m, Ratio(Size(codec, r)));
      ShrunkCuts(r, m, Ratio(Size(codec, r)));
      ShrunkIsRound(codec, r, m);
      var rest := ShrinkPath(codec, next, m, round);
      PathOneMore(codec, r, rest, round);
      path := [r] + rest;
    }
  }

  lemma {:induction false} RemovePath(codec: Codec, r: Report, capabilityMinimum: nat, lost: (Report, Report) -> bool)
    returns (path: seq<Report>)
    requires forall a, b :: lost(a, b) <==> LostLast(a, b, capabilityMinimum)
    ensures path != [] && path[0] == r && Path(codec, path, lost)
    ensures var last := path[|path| - 1];
            last == RemoveRounds(codec, r, capabilityMinimum) && (Fits(codec, last) || Exhausted(last, capabilityMinimum))
    decreases ListTotal(r)
  {
    WithoutLastIsLost(r, capabilityMinimum);
    if Fits(codec, r) || WithoutLastOptional(r, capabilityMinimum).None? {
      path := [r];
    } else {
      var rest := RemovePath(codec, WithoutLastOptional(r, capabilityMinimum).value, capabilityMinimum, lost);
      PathOneMore(codec, r, rest, lost);
      path := [r] + rest;
    }
  }

  /** The report without its inventory and with every list cut to its minimum. */
  function AnchorsOnly(r: Report, m: Minima): Report {
    r.(hardware := None,
       capabilities := Take(r.capabilities, m.capability),
       networks := Take(r.networks, m.network),
       disks := Take(r.disks, m.disk),
       temperatures := Take(r.temperatures, m.temperature),
       gpus := Take(r.gpus, m.gpu))
  }

  /** Lists at their minima are exactly the anchors. */
  lemma AtTheMinima(s: Report, r: Report, m: Minima)
    requires Cut(s, r) && KeepsMinima(s, r, m) && s.hardware == None && Removable(s, m) == 0
    ensures s == AnchorsOnly(r, m)
  {
    assert s.capabilities == Take(r.capabilities, m.capability);
    assert s.networks == Take(r.networks, m.network);
    assert s.disks == Take(r.disks, m.disk);
    assert s.temperatures == Take(r.temperatures, m.temperature);
    assert s.gpus == Take(r.gpus, m.gpu);
  }

  function FitMinima(r: Report, network: nat, disk: nat, temperature: nat, gpu: nat): Minima {
    Minima(CapabilityMinimum(r), network, disk, temperature, gpu)
  }

  lemma CutOfCut(t: Report, s: Report, r: Report)
    requires Cut(t, s) && Cut(s, r)
    ensures Cut(t, r)
  {
  }

  /**
   Fitting terminates with a cut of the report that meets the byte limit, or with nothing optional left.
   A report that already fits is untouched; a marker at the front is never lost.
   */
  lemma FitResult(codec: Codec, r: Report, network: nat, disk: nat, temperature: nat, gpu: nat)
    ensures var s := Fit(codec, r, network, disk, temperature, gpu);
            && Cut(s, r)
            && (Fits(codec, s) || (s.hardware == None && Exhausted(s, CapabilityMinimum(r))))
            && (Fits(codec, r) ==> s == r)
            && |s.capabilities| >= CapabilityMinimum(r)
  {
    var bare := if Fits(codec, r) then r else r.(hardware := None);
    var m := FitMinima(bare, network, disk, temperature, gpu);
    var s := ShrinkRounds(codec, bare, m);
    ShrinkRoundsCut(codec, bare, m);
    RemoveRoundsCut(codec, s, m.capability);
    CutOfCut(s, bare, r);
    CutOfCut(RemoveRounds(codec, s, m.capability), s, r);
  }

  /**
   How a report comes to fit: it loses its inventory, then rounds of scaling until the lists are at their minima, then
   single elements; and no step is taken on a report that fits already.
   */
  lemma FitInSteps(codec: Codec, r: Report, network: nat, disk: nat, temperature: nat, gpu: nat)
    returns (rounds: seq<Report>, removals: seq<Report>)
    ensures rounds != [] && rounds[0] == if Fits(codec, r) then r else r.(hardware := None)
    ensures var m := FitMinima(r, network, disk, temperature, gpu);
            && Path(codec, rounds, (a, b) => Round(codec, a, b, m))
            && (Fits(codec, rounds[|rounds| - 1]) || AtMinima(rounds[|rounds| - 1], m))
            && removals != [] && removals[0] == rounds[|rounds| - 1]
            && Path(codec, removals, (a, b) => LostLast(a, b, m.capability))
            && (Fits(codec, removals[|removals| - 1]) || Exhausted(removals[|removals| - 1], m.capability))
            && removals[|removals| - 1] == Fit(codec, r, network, disk, temperature, gpu)
  {
    var bare := if Fits(codec, r) then r else r.(hardware := None);
    var m := FitMinima(r, network, disk, temperature, gpu);
    rounds := ShrinkPath(codec, bare, m, (a, b) => Round(codec, a, b, m));
    removals := RemovePath(codec, rounds[|rounds| - 1], m.capability, (a, b) => LostLast(a, b, m.capability));
  }

  /** The inventory goes first: if that is enough, nothing else is lost. */
  lemma InventoryGoesFirst(codec: Codec, r: Report, network: nat, disk: nat, temperature: nat, gpu: nat)
    requires !Fits(codec, r)
    ensures Fit(codec, r, network, disk, temperature, gpu).hardware == None
    ensures Fits(codec, r.(hardware := None)) ==> Fit(codec, r, network, disk, temperature, gpu) == r.(hardware := None)
  {
    FitResult(codec, r, network, disk, temperature, gpu);
    var m := FitMinima(r, network, disk, temperature, gpu);
    var s := ShrinkRounds(codec, r.(hardware := None), m);
    ShrinkRoundsCut(codec, r.(hardware := None), m);
    RemoveRoundsCut(codec, s, m.capability);
  }

  /** If the inventory-free report of the anchors alone fits, no list loses an anchor. */
  lemma AnchorsKept(codec: Codec, r: Report, network: nat, disk: nat, temperature: nat, gpu: nat)
    requires Fits(codec, AnchorsOnly(r, FitMinima(r, network, disk, temperature, gpu)))
    ensures var s := Fit(codec, r, network, disk, temperature, gpu);
            && Fits(codec, s)
            && KeepsMinima(s, r, FitMinima(r, network, disk, temperature, gpu))
  {
    var bare := if Fits(codec, r) then r else r.(hardware := None);
    var m := FitMinima(r, network, disk, temperature, gpu);
    var s := ShrinkRounds(codec, bare, m);
    ShrinkRoundsCut(codec, bare, m);
    if !Fits(codec, s) {
      AtTheMinima(s, bare, m);
    }
  }

  /** A maximum among the anchors is still there in every cut that keeps the anchors. */
  lemma KeptMaximum<T(!new)>(xs: seq<T>, key: T -> seq<Symbol>, metrics: seq<Metric<T>>, maximum: nat, kept: seq<T>,
                             metric: Metric<T>, x: T)
    requires Injective(key) && |metrics| <= maximum
    requires kept <= Truncate(Prioritized(xs, ByKey(key), metrics), maximum)
    requires |kept| >= AtMost(AnchorCount(xs, ByKey(key), metrics), |Truncate(Prioritized(xs, ByKey(key), metrics), maximum)|)
    requires metric in metrics && x in xs && metric(x).Some?
    ensures exists y | y in kept :: metric(y).Some? && F64Le(metric(x).value, metric(y).value)
  {
    ByKeyOrders(key);
    var le := ByKey(key);
    var p := Prioritized(xs, le, metrics);
    PrioritizedFacts(xs, le, metrics);
    AnchorsFacts(Sort(xs, le), metrics);
    assert AnchorCount(xs, le, metrics) <= |p|;
    assert kept == p[..|kept|];
    MaximaSurvive(xs, le, metrics, |kept|, metric, x);
  }

  function MinimaOf(codec: Codec, u: Report, n: Report): Minima {
    FitMinima(u, AtMost(AnchorCount(n.networks, ByKey(codec.network), NetworkMetrics()), |u.networks|),
              AtMost(AnchorCount(n.disks, ByKey(codec.disk), DiskMetrics()), |u.disks|),
              AtMost(AnchorCount(n.temperatures, ByKey(codec.temperature), TemperatureMetrics()), |u.temperatures|),
              AtMost(AnchorCount(n.gpus, ByKey(codec.gpu), GpuMetrics()), |u.gpus|))
  }

  ghost predicate HasMaximum<T(!new)>(kept: seq<T>, all: seq<T>, metrics: seq<Metric<T>>) {
    forall metric, x | metric in metrics && x in all && metric(x).Some? ::
      exists y | y in kept :: metric(y).Some? && F64Le(metric(x).value, metric(y).value)
  }

  lemma KeptMaxima<T(!new)>(xs: seq<T>, key: T -> seq<Symbol>, metrics: seq<Metric<T>>, maximum: nat, kept: seq<T>)
    requires Injective(key) && |metrics| <= maximum
    requires kept <= Truncate(Prioritized(xs, ByKey(key), metrics), maximum)
    requires |kept| >= AtMost(AnchorCount(xs, ByKey(key), metrics), |Truncate(Prioritized(xs, ByKey(key), metrics), maximum)|)
    ensures HasMaximum(kept, xs, metrics)
  {
    forall metric, x | metric in metrics && x in xs && metric(x).Some?
      ensures exists y | y in kept :: metric(y).Some? && F64Le(metric(x).value, metric(y).value)
    {
      KeptMaximum(xs, key, metrics, maximum, kept, metric, x);
    }
  }

  /** A cut that keeps the minima keeps the anchors of every list. */
  lemma CutKeepsMaxima(codec: Codec, r: Report, now: Time, clampFuture: bool, b: Report)
    requires Lawful(codec)
    requires var u := Unfitted(codec, r, now, clampFuture);
             Cut(b, u) && KeepsMinima(b, u, MinimaOf(codec, u, Normalized(r, now, clampFuture)))
    ensures var n := Normalized(r, now, clampFuture);
            && HasMaximum(b.networks, n.networks, NetworkMetrics())
            && HasMaximum(b.disks, n.disks, DiskMetrics())
            && HasMaximum(b.temperatures, n.temperatures, TemperatureMetrics())
            && HasMaximum(b.gpus, n.gpus, GpuMetrics())
  {
    var n := Normalized(r, now, clampFuture);
    KeptMaxima(n.networks, codec.network, NetworkMetrics(), CLIENT_REPORT_MAX_NETWORKS, b.networks);
    KeptMaxima(n.disks, codec.disk, DiskMetrics(), CLIENT_REPORT_MAX_DISKS, b.disks);
    KeptMaxima(n.temperatures, codec.temperature, TemperatureMetrics(), CLIENT_REPORT_MAX_TEMPERATURES, b.temperatures);
    KeptMaxima(n.gpus, codec.gpu, GpuMetrics(), CLIENT_REPORT_MAX_GPUS, b.gpus);
  }

  /** For every network, disk, temperature and GPU there is one kept with at least its rate, temperature or load. */
  predicate KeepsPeaks(b: Report, n: Report) {
    && (forall x | x in n.networks :: exists y | y in b.networks :: F64Le(x.receivedBytesPerSecond, y.receivedBytesPerSecond))
    && (forall x | x in n.networks ::
          exists y | y in b.networks :: F64Le(x.transmittedBytesPerSecond, y.transmittedBytesPerSecond))
    && (forall x | x in n.disks :: exists y | y in b.disks :: F64Le(x.readBytesPerSecond, y.readBytesPerSecond))
    && (forall x | x in n.disks :: exists y | y in b.disks :: F64Le(x.writtenBytesPerSecond, y.writtenBytesPerSecond))
    && (forall x | x in n.temperatures && x.celsius.Some? ::
          exists y | y in b.temperatures :: y.celsius.Some? && F64Le(x.celsius.value, y.celsius.value))
    && (forall x | x in n.gpus && x.utilizationPercent.Some? ::
          exists y | y in b.gpus ::
            y.utilizationPercent.Some? && F64Le(x.utilizationPercent.value, y.utilizationPercent.value))
    && (forall x | x in n.gpus && x.temperatureCelsius.Some? ::
          exists y | y in b.gpus ::
            y.temperatureCelsius.Some? && F64Le(x.temperatureCelsius.value, y.temperatureCelsius.value))
  }

  lemma MaximumIsThere<T(!new)>(kept: seq<T>, all: seq<T>, metrics: seq<Metric<T>>, metric: Metric<T>, x: T) returns (y: T)
    requires HasMaximum(kept, all, metrics) && metric in metrics && x in all && metric(x).Some?
    ensures y in kept && metric(y).Some? && F64Le(metric(x).value, metric(y).value)
  {
    y :| y in kept && metric(y).Some? && F64Le(metric(x).value, metric(y).value);
  }

  lemma TrafficPeaks(b: Report, n: Report)
    requires HasMaximum(b.networks, n.networks, NetworkMetrics()) && HasMaximum(b.disks, n.disks, DiskMetrics())
    ensures forall x | x in n.networks ::
              exists y | y in b.networks :: F64Le(x.receivedBytesPerSecond, y.receivedBytesPerSecond)
    ensures forall x | x in n.networks ::
              exists y | y in b.networks :: F64Le(x.transmittedBytesPerSecond, y.transmittedBytesPerSecond)
    ensures forall x | x in n.disks :: exists y | y in b.disks :: F64Le(x.readBytesPerSecond, y.readBytesPerSecond)
    ensures forall x | x in n.disks :: exists y | y in b.disks :: F64Le(x.writtenBytesPerSecond, y.writtenBytesPerSecond)
  {
    forall x | x in n.networks
      ensures exists y | y in b.networks :: F64Le(x.receivedBytesPerSecond, y.receivedBytesPerSecond)
      ensures exists y | y in b.networks :: F64Le(x.transmittedBytesPerSecond, y.transmittedBytesPerSecond)
    {
      var received := MaximumIsThere(b.networks, n.networks, NetworkMetrics(), NetworkMetrics()[0], x);
      var transmitted := MaximumIsThere(b.networks, n.networks, NetworkMetrics(), NetworkMetrics()[1], x);
    }
    forall x | x in n.disks
      ensures exists y | y in b.disks :: F64Le(x.readBytesPerSecond, y.readBytesPerSecond)
      ensures exists y | y in b.disks :: F64Le(x.writtenBytesPerSecond, y.writtenBytesPerSecond)
    {
      var read := MaximumIsThere(b.disks, n.disks, DiskMetrics(), DiskMetrics()[0], x);
      var written := MaximumIsThere(b.disks, n.disks, DiskMetrics(), DiskMetrics()[1], x);
    }
  }

  lemma MaximaArePeaks(b: Report, n: Report)
    requires HasMaximum(b.networks, n.networks, NetworkMetrics()) && HasMaximum(b.disks, n.disks, DiskMetrics())
    requires HasMaximum(b.temperatures, n.temperatures, TemperatureMetrics()) && HasMaximum(b.gpus, n.gpus, GpuMetrics())
    ensures KeepsPeaks(b, n)
  {
    TrafficPeaks(b, n);
    forall x | x in n.temperatures && x.celsius.Some?
      ensures exists y | y in b.temperatures :: y.celsius.Some? && F64Le(x.celsius.value, y.celsius.value)
    {
      var hot := MaximumIsThere(b.temperatures, n.temperatures, TemperatureMetrics(), TemperatureMetrics()[0], x);
    }
    forall x | x in n.gpus && x.utilizationPercent.Some?
      ensures exists y | y in b.gpus ::
                y.utilizationPercent.Some? && F64Le(x.utilizationPercent.value, y.utilizationPercent.value)
    {
      var busy := MaximumIsThere(b.gpus, n.gpus, GpuMetrics(), GpuMetrics()[0], x);
    }
    forall x | x in n.gpus && x.temperatureCelsius.Some?
      ensures exists y | y in b.gpus ::
                y.temperatureCelsius.Some? && F64Le(x.temperatureCelsius.value, y.temperatureCelsius.value)
    {
      var hot := MaximumIsThere(b.gpus, n.gpus, GpuMetrics(), GpuMetrics()[1], x);
    }
  }

  /**
   The summary maxima survive bounding: if the inventory-free report of the anchors alone fits, then
   every list of the bounded report still holds a maximum of each of its metrics.
   */
  lemma SummaryMaximaSurvive(codec: Codec, r: Report, now: Time, clampFuture: bool)
    requires Lawful(codec)
    requires Fits(codec, AnchorsOnly(Unfitted(codec, r, now, clampFuture),
                                     MinimaOf(codec, Unfitted(codec, r, now, clampFuture), Normalized(r, now, clampFuture))))
    ensures var n, b := Normalized(r, now, clampFuture), Bounded(codec, r, now, clampFuture).0;
            && Fits(codec, b)
            && HasMaximum(b.networks, n.networks, NetworkMetrics())
            && HasMaximum(b.disks, n.disks, DiskMetrics())
            && HasMaximum(b.temperatures, n.temperatures, TemperatureMetrics())
            && HasMaximum(b.gpus, n.gpus, GpuMetrics())
            && KeepsPeaks(b, n)
  {
    var u := Unfitted(codec, r, now, clampFuture);
    var m := MinimaOf(codec, u, Normalized(r, now, clampFuture));
    AnchorsKept(codec, u, m.network, m.disk, m.temperature, m.gpu);
    FitResult(codec, u, m.network, m.disk, m.temperature, m.gpu);
    CutKeepsMaxima(codec, r, now, clampFuture, Bounded(codec, r, now, clampFuture).0);
    MaximaArePeaks(Bounded(codec, r, now, clampFuture).0, Normalized(r, now, clampFuture));
  }
}
