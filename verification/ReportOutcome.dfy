/** What bounding makes of a whole report, said of the raw report alone: values, lists, capabilities and the marker. */
module ReportOutcome {
  import opened Wrappers
  import opened Sorting
  import opened ReportText
  import opened ReportModel
  import opened ReportNormal
  import opened ReportHardware
  import opened ReportPriority
  import opened ReportContract
  import opened ReportFit
  import opened ReportFixedPoint
  import opened ReportValues
  import opened InventoryValues

  // ----- Lists -----

  /** Every kept element comes from a raw one of its own. */
  ghost predicate Selected<T(!new)>(kept: seq<T>, raw: seq<T>, from: (T, T) -> bool) {
    exists images: seq<T> ::
      ImagesOf(images, raw, from) && multiset(kept) <= multiset(images)
  }

  lemma PrefixOf<T>(p: seq<T>, k: nat)
    requires k <= |p|
    ensures multiset(p[..k]) <= multiset(p)
  {
    assert p == p[..k] + p[k..];
  }

  lemma KeptIsSelected<T(!new)>(raw: seq<T>, norm: T -> T, key: T -> seq<Symbol>, metrics: seq<Metric<T>>, maximum: nat,
                                kept: seq<T>, from: (T, T) -> bool)
    requires Injective(key)
    requires kept <= Truncate(Prioritized(Map(raw, norm), ByKey(key), metrics), maximum)
    requires forall x | x in raw :: from(norm(x), x)
    ensures Selected(kept, raw, from)
    ensures |kept| <= |raw| && |kept| <= maximum
    ensures |kept| == |Truncate(Prioritized(Map(raw, norm), ByKey(key), metrics), maximum)| ==>
              |kept| == if |raw| > maximum then maximum else |raw|
  {
    var images := Map(raw, norm);
    var p := Prioritized(images, ByKey(key), metrics);
    ByKeyOrders(key);
    PrioritizedFacts(images, ByKey(key), metrics);
    assert kept == p[..|kept|];
    PrefixOf(p, |kept|);
  }

  // ----- The report -----

  ghost predicate ScalarsFrom(b: Report, r: Report, now: Time, clampFuture: bool) {
    && b.schemaVersion == r.schemaVersion && b.reportId == r.reportId
    && b.uptimeSeconds == r.uptimeSeconds && b.spoolPendingBatches == r.spoolPendingBatches
    && b.collectedAt == (if clampFuture && r.collectedAt > now + 300_000_000 then now else r.collectedAt)
    && Nearest(b.intervalSeconds, r.intervalSeconds, CLIENT_REPORT_INTERVAL_SECONDS.0, CLIENT_REPORT_INTERVAL_SECONDS.1,
               CLIENT_REPORT_INTERVAL_SECONDS.0)
    && HostFrom(b.host, r.host) && MemoryFrom(b.memory, r.memory) && CpuFrom(b.cpu, r.cpu)
  }

  ghost predicate ListsFrom(b: Report, r: Report) {
    && Selected(b.networks, r.networks, NetworkFrom) && |b.networks| <= CLIENT_REPORT_MAX_NETWORKS
    && Selected(b.disks, r.disks, VolumeFrom) && |b.disks| <= CLIENT_REPORT_MAX_DISKS
    && Selected(b.temperatures, r.temperatures, TemperatureFrom) && |b.temperatures| <= CLIENT_REPORT_MAX_TEMPERATURES
    && Selected(b.gpus, r.gpus, GpuFrom) && |b.gpus| <= CLIENT_REPORT_MAX_GPUS
  }

  /** As long as the byte limit takes nothing, a list loses only what exceeds its own limit. */
  predicate ListsWhole(b: Report, r: Report) {
    && Capped(|b.networks|, |r.networks|, CLIENT_REPORT_MAX_NETWORKS)
    && Capped(|b.disks|, |r.disks|, CLIENT_REPORT_MAX_DISKS)
    && Capped(|b.temperatures|, |r.temperatures|, CLIENT_REPORT_MAX_TEMPERATURES)
    && Capped(|b.gpus|, |r.gpus|, CLIENT_REPORT_MAX_GPUS)
  }

  lemma NormalScalarsFrom(b: Report, r: Report, now: Time, clampFuture: bool)
    requires b.schemaVersion == r.schemaVersion && b.reportId == r.reportId
    requires b.uptimeSeconds == r.uptimeSeconds && b.spoolPendingBatches == r.spoolPendingBatches
    requires b.collectedAt == NormTime(r.collectedAt, now, clampFuture) && b.intervalSeconds == NormInterval(r.intervalSeconds)
    requires b.host == NormHost(r.host) && b.memory == NormMemory(r.memory)
    requires b.cpu == BoundCpu(r.cpu.(usagePercent := Percent(r.cpu.usagePercent)))
    ensures ScalarsFrom(b, r, now, clampFuture)
  {
    IntervalIsNearest(r.intervalSeconds);
    HostIsFrom(r.host);
    CpuIsFrom(r.cpu);
  }

  lemma CutScalarsFrom(codec: Codec, r: Report, now: Time, clampFuture: bool, b: Report)
    requires Cut(b, Unfitted(codec, r, now, clampFuture))
    ensures ScalarsFrom(b, r, now, clampFuture)
  {
    CutParts(codec, r, now, clampFuture, b);
    NormalScalarsFrom(b, r, now, clampFuture);
  }

  /** The inventory is there unless the byte limit took it. */
  ghost predicate HardwareFrom(b: Report, r: Report, whole: bool) {
    && (b.hardware.Some? ==> r.hardware.Some? && InventoryFrom(b.hardware.value, r.hardware.value, b.collectedAt))
    && (whole && r.hardware.Some? ==> b.hardware.Some?)
  }

  lemma CutHardwareFrom(codec: Codec, r: Report, now: Time, clampFuture: bool, b: Report, whole: bool)
    requires Cut(b, Unfitted(codec, r, now, clampFuture))
    requires whole ==> b == Unfitted(codec, r, now, clampFuture)
    ensures HardwareFrom(b, r, whole)
  {
    CutParts(codec, r, now, clampFuture, b);
    if r.hardware.Some? {
      InventoryIsFrom(r.hardware.value, Normalized(r, now, clampFuture).collectedAt);
    }
  }

  lemma NetworksSelected(codec: Codec, raw: seq<Network>, kept: seq<Network>)
    requires Lawful(codec)
    requires var all := Prioritized(Map(raw, NormNetwork), ByKey(codec.network), NetworkMetrics());
             kept <= Truncate(all, CLIENT_REPORT_MAX_NETWORKS)
    ensures Selected(kept, raw, NetworkFrom) && |kept| <= CLIENT_REPORT_MAX_NETWORKS
    ensures var all := Prioritized(Map(raw, NormNetwork), ByKey(codec.network), NetworkMetrics());
            kept == Truncate(all, CLIENT_REPORT_MAX_NETWORKS) ==> Capped(|kept|, |raw|, CLIENT_REPORT_MAX_NETWORKS)
  {
    forall x ensures NetworkFrom(NormNetwork(x), x) { NetworkIsFrom(x); }
    KeptIsSelected(raw, NormNetwork, codec.network, NetworkMetrics(), CLIENT_REPORT_MAX_NETWORKS, kept, NetworkFrom);
  }

  lemma DisksSelected(codec: Codec, raw: seq<Volume>, kept: seq<Volume>)
    requires Lawful(codec)
    requires var all := Prioritized(Map(raw, NormVolume), ByKey(codec.disk), DiskMetrics());
             kept <= Truncate(all, CLIENT_REPORT_MAX_DISKS)
    ensures Selected(kept, raw, VolumeFrom) && |kept| <= CLIENT_REPORT_MAX_DISKS
    ensures var all := Prioritized(Map(raw, NormVolume), ByKey(codec.disk), DiskMetrics());
            kept == Truncate(all, CLIENT_REPORT_MAX_DISKS) ==> Capped(|kept|, |raw|, CLIENT_REPORT_MAX_DISKS)
  {
    forall x ensures VolumeFrom(NormVolume(x), x) { VolumeIsFrom(x); }
    KeptIsSelected(raw, NormVolume, codec.disk, DiskMetrics(), CLIENT_REPORT_MAX_DISKS, kept, VolumeFrom);
  }

  lemma TemperaturesSelected(codec: Codec, raw: seq<Temperature>, kept: seq<Temperature>)
    requires Lawful(codec)
    requires var all := Prioritized(Map(raw, NormTemperature), ByKey(codec.temperature), TemperatureMetrics());
             kept <= Truncate(all, CLIENT_REPORT_MAX_TEMPERATURES)
    ensures Selected(kept, raw, TemperatureFrom) && |kept| <= CLIENT_REPORT_MAX_TEMPERATURES
    ensures var all := Prioritized(Map(raw, NormTemperature), ByKey(codec.temperature), TemperatureMetrics());
            kept == Truncate(all, CLIENT_REPORT_MAX_TEMPERATURES) ==> Capped(|kept|, |raw|, CLIENT_REPORT_MAX_TEMPERATURES)
  {
    forall x ensures TemperatureFrom(NormTemperature(x), x) { TemperatureIsFrom(x); }
    KeptIsSelected(raw, NormTemperature, codec.temperature, TemperatureMetrics(), CLIENT_REPORT_MAX_TEMPERATURES, kept,
                   TemperatureFrom);
  }

  lemma GpusSelected(codec: Codec, raw: seq<Gpu>, kept: seq<Gpu>)
    requires Lawful(codec)
    requires var all := Prioritized(Map(raw, NormGpu), ByKey(codec.gpu), GpuMetrics());
             kept <= Truncate(all, CLIENT_REPORT_MAX_GPUS)
    ensures Selected(kept, raw, GpuFrom) && |kept| <= CLIENT_REPORT_MAX_GPUS
    ensures var all := Prioritized(Map(raw, NormGpu), ByKey(codec.gpu), GpuMetrics());
            kept == Truncate(all, CLIENT_REPORT_MAX_GPUS) ==> Capped(|kept|, |raw|, CLIENT_REPORT_MAX_GPUS)
  {
    forall x ensures GpuFrom(NormGpu(x), x) { GpuIsFrom(x); }
    KeptIsSelected(raw, NormGpu, codec.gpu, GpuMetrics(), CLIENT_REPORT_MAX_GPUS, kept, GpuFrom);
  }

  /** The four prioritised lists before the byte limit. */
  predicate Listed(codec: Codec, r: Report, u: Report) {
    && u.networks == Truncate(Prioritized(Map(r.networks, NormNetwork), ByKey(codec.network), NetworkMetrics()),
                              CLIENT_REPORT_MAX_NETWORKS)
    && u.disks == Truncate(Prioritized(Map(r.disks, NormVolume), ByKey(codec.disk), DiskMetrics()), CLIENT_REPORT_MAX_DISKS)
    && u.temperatures == Truncate(Prioritized(Map(r.temperatures, NormTemperature), ByKey(codec.temperature),
                                              TemperatureMetrics()), CLIENT_REPORT_MAX_TEMPERATURES)
    && u.gpus == Truncate(Prioritized(Map(r.gpus, NormGpu), ByKey(codec.gpu), GpuMetrics()), CLIENT_REPORT_MAX_GPUS)
  }

  lemma UnfittedListed(codec: Codec, r: Report, now: Time, clampFuture: bool)
    ensures Listed(codec, r, Unfitted(codec, r, now, clampFuture))
  {
  }

  lemma ListsSelected(codec: Codec, r: Report, u: Report, b: Report)
    requires Lawful(codec) && Cut(b, u) && Listed(codec, r, u)
    ensures ListsFrom(b, r)
    ensures b == u ==> ListsWhole(b, r)
  {
    NetworksSelected(codec, r.networks, b.networks);
    DisksSelected(codec, r.disks, b.disks);
    TemperaturesSelected(codec, r.temperatures, b.temperatures);
    GpusSelected(codec, r.gpus, b.gpus);
  }

  // ----- Capabilities -----

  /** Markers first, then by name and source; of one name and source the available, then the smallest document. */
  predicate Precedes(codec: Codec, a: Capability, b: Capability) {
    var markerA, markerB := a.name == "client.report.truncated", b.name == "client.report.truncated";
    if markerA != markerB then markerA
    else if a.name != b.name then LexLe(Codes(a.name), Codes(b.name))
    else if a.source != b.source then LexLe(Codes(a.source), Codes(b.source))
    else if a.available != b.available then a.available
    else LexLe(codec.capability(a), codec.capability(b))
  }

  lemma AvailableOrder(a: Capability, b: Capability)
    ensures ByKey(AvailableRank)(a, b) <==> (b.available ==> a.available)
  {
    assert ByKey(AvailableRank)(a, b) == LexLe(AvailableRank(a), AvailableRank(b));
    assert LexLe(AvailableRank(a)[1..], AvailableRank(b)[1..]);
  }

  lemma SameKeyOrder(codec: Codec, a: Capability, b: Capability)
    requires NameAndSource(a) == NameAndSource(b)
    ensures CapabilityOrder(codec)(a, b) <==>
              if a.available != b.available then a.available else LexLe(codec.capability(a), codec.capability(b))
  {
    RankOrder(a, b);
    RankOrder(b, a);
    LexTotal(NameCodes(a), NameCodes(b));
    LexTotal(SourceCodes(a), SourceCodes(b));
    AvailableOrder(a, b);
    AvailableOrder(b, a);
  }

  lemma OrderIsPrecedes(codec: Codec, a: Capability, b: Capability)
    ensures CapabilityOrder(codec)(a, b) <==> Precedes(codec, a, b)
  {
    if NameAndSource(a) == NameAndSource(b) {
      SameKeyOrder(codec, a, b);
    } else {
      KeyDecides(codec, a, b);
    }
  }

  predicate IsTruncation(c: Capability) {
    c.name == "client.report.truncated" && !c.available && c.source == "xsoc" && c.errorKind == Some(InvalidData)
  }

  /** Of the entries with its name and source it is the first in the order: an available one if there is any. */
  predicate Chosen(codec: Codec, c: Capability, images: seq<Capability>) {
    && c in images
    && forall m | m in images && m.name == c.name && m.source == c.source :: Precedes(codec, c, m)
  }

  /** Each is the first of its name and source or the marker of a loss; with room left, none is missing. */
  ghost predicate ChosenFrom(codec: Codec, kept: seq<Capability>, images: seq<Capability>, whole: bool, marks: bool) {
    && (forall c | c in kept :: (marks && IsTruncation(c)) || Chosen(codec, c, images))
    && (whole && |kept| < CLIENT_REPORT_MAX_CAPABILITIES ==>
          forall m | m in images :: exists c | c in kept :: c.name == m.name && c.source == m.source)
  }

  ghost predicate InPrecedence(codec: Codec, kept: seq<Capability>) {
    forall i, j | 0 <= i < j < |kept| :: Precedes(codec, kept[i], kept[j])
  }

  /** In order, and chosen from what becomes of the raw ones. */
  ghost predicate CapabilitiesFrom(codec: Codec, kept: seq<Capability>, raw: seq<Capability>, whole: bool, marks: bool) {
    && InPrecedence(codec, kept)
    && exists images: seq<Capability> :: ImagesOf(images, raw, CapabilityFrom) && ChosenFrom(codec, kept, images, whole, marks)
  }

  /** An entry that was kept comes no later than any other with its name and source. */
  lemma KeptComesFirst(codec: Codec, sorted: seq<Capability>, c: Capability, m: Capability)
    requires Sorted(sorted, CapabilityOrder(codec)) && CapabilityOrder(codec)(c, c)
    requires c in Retain(sorted, NameAndSource) && m in sorted && m.name == c.name && m.source == c.source
    ensures Precedes(codec, c, m)
  {
    var i :| 0 <= i < |sorted| && sorted[i] == m;
    RetainKeepsFirst(sorted, NameAndSource, c, i);
    var j :| 0 <= j <= i && sorted[j] == c;
    assert CapabilityOrder(codec)(c, m);
    OrderIsPrecedes(codec, c, m);
  }

  lemma DeduplicatedIsChosen(codec: Codec, cs: seq<Capability>, c: Capability)
    requires Injective(codec.capability) && c in Deduplicated(codec, cs)
    ensures Chosen(codec, c, cs)
  {
    var sorted := Sort(cs, CapabilityOrder(codec));
    CapabilitySort(codec, cs);
    CapabilityOrderTotal(codec);
    CapabilityOrderGroups(codec, sorted);
    DedupIsRetain(sorted, NameAndSource);
    RetainUnique(sorted, NameAndSource);
    forall m | m in cs && m.name == c.name && m.source == c.source ensures Precedes(codec, c, m) {
      KeptComesFirst(codec, sorted, c, m);
    }
  }

  predicate Unmarked(r: Report) {
    forall c | c in r.capabilities :: c.name != "client.report.truncated"
  }

  lemma UnmarkedExactly(r: Report)
    ensures Unmarked(r) <==> !Marked(r.capabilities)
  {
  }

  /** In order, and nothing but the deduplicated entries and the marker; with room left, all of them. */
  predicate Members(codec: Codec, u: seq<Capability>, ds: seq<Capability>, marks: bool) {
    && Sorted(u, CapabilityOrder(codec))
    && (forall c | c in u :: c in ds || (marks && c == MARKER))
    && (|u| < CLIENT_REPORT_MAX_CAPABILITIES ==> forall d | d in ds :: d in u)
  }

  lemma PlainMembers(codec: Codec, n: seq<Capability>)
    requires Injective(codec.capability)
    ensures Members(codec, Truncate(Deduplicated(codec, n), CLIENT_REPORT_MAX_CAPABILITIES), Deduplicated(codec, n), false)
  {
    var ds := Deduplicated(codec, n);
    DeduplicatedFacts(codec, n);
    SortedPrefix(ds, |Truncate(ds, CLIENT_REPORT_MAX_CAPABILITIES)|, CapabilityOrder(codec));
  }

  lemma MarkedMembers(codec: Codec, cs: seq<Capability>, ds: seq<Capability>)
    requires Injective(codec.capability) && Members(codec, cs, ds, false)
    ensures Members(codec, WithMarker(codec, cs), ds, true)
  {
    WithMarkerFacts(codec, cs);
    CapabilitySort(codec, cs + [MARKER]);
    assert forall c | c in cs :: c in cs + [MARKER];
  }

  lemma UnfittedMembers(codec: Codec, r: Report, now: Time, clampFuture: bool)
    requires Lawful(codec)
    ensures Members(codec, Unfitted(codec, r, now, clampFuture).capabilities,
                    Deduplicated(codec, Map(r.capabilities, NormCapability)),
                    Changed(codec, r, now, clampFuture) && Unmarked(r))
  {
    UnmarkedExactly(r);
    var cs, ds := CanonicalCapabilities(codec, r), Deduplicated(codec, Map(r.capabilities, NormCapability));
    PlainMembers(codec, Map(r.capabilities, NormCapability));
    MarkedMembers(codec, cs, ds);
    UnfittedCases(codec, r, now, clampFuture);
  }

  lemma InOrderOfPrecedence(codec: Codec, u: seq<Capability>, kept: seq<Capability>)
    requires Sorted(u, CapabilityOrder(codec)) && kept <= u
    ensures InPrecedence(codec, kept)
  {
    forall i, j | 0 <= i < j < |kept| ensures Precedes(codec, kept[i], kept[j]) {
      assert CapabilityOrder(codec)(u[i], u[j]);
      OrderIsPrecedes(codec, u[i], u[j]);
    }
  }

  lemma NormalisedImages(raw: seq<Capability>)
    ensures ImagesOf(Map(raw, NormCapability), raw, CapabilityFrom)
  {
    forall i | 0 <= i < |raw| ensures CapabilityFrom(Map(raw, NormCapability)[i], raw[i]) {
      CapabilityIsFrom(raw[i]);
    }
  }

  lemma MembersChosen(codec: Codec, images: seq<Capability>, u: seq<Capability>, kept: seq<Capability>, whole: bool,
                      marks: bool)
    requires Injective(codec.capability) && kept <= u && (whole ==> kept == u)
    requires Members(codec, u, Deduplicated(codec, images), marks)
    ensures ChosenFrom(codec, kept, images, whole, marks)
  {
    forall c | c in kept ensures (marks && IsTruncation(c)) || Chosen(codec, c, images) {
      assert c in u;
      if c in Deduplicated(codec, images) {
        DeduplicatedIsChosen(codec, images, c);
      } else {
        assert marks && c == MARKER;
      }
    }
    if whole && |u| < CLIENT_REPORT_MAX_CAPABILITIES {
      forall m | m in images ensures exists c | c in u :: c.name == m.name && c.source == m.source {
        var j := DeduplicatedCovers(codec, images, m);
        assert Deduplicated(codec, images)[j] in u;
      }
    }
  }

  lemma MembersFrom(codec: Codec, u: seq<Capability>, kept: seq<Capability>, raw: seq<Capability>, whole: bool,
                    marks: bool)
    requires Injective(codec.capability) && kept <= u && (whole ==> kept == u)
    requires Members(codec, u, Deduplicated(codec, Map(raw, NormCapability)), marks)
    ensures CapabilitiesFrom(codec, kept, raw, whole, marks)
  {
    InOrderOfPrecedence(codec, u, kept);
    NormalisedImages(raw);
    MembersChosen(codec, Map(raw, NormCapability), u, kept, whole, marks);
  }

  // ----- The whole report -----

  /** A loss not marked before is marked in front and counted once. */
  predicate MarkedFor(b: Report, r: Report, marks: bool) {
    && (marks ==> b.capabilities != [] && b.capabilities[0].name == "client.report.truncated")
    && b.collectorErrors == if marks && r.collectorErrors < 0xffff_ffff_ffff_ffff then r.collectorErrors + 1
                            else r.collectorErrors
  }

  /** Every value of the bounded report, said of the raw report. */
  ghost predicate ReportFrom(codec: Codec, b: Report, r: Report, now: Time, clampFuture: bool, whole: bool, lossy: bool) {
    && ScalarsFrom(b, r, now, clampFuture) && HardwareFrom(b, r, whole)
    && ListsFrom(b, r) && (whole ==> ListsWhole(b, r))
    && CapabilitiesFrom(codec, b.capabilities, r.capabilities, whole, lossy && Unmarked(r))
    && MarkedFor(b, r, lossy && Unmarked(r))
  }

  lemma UnfittedMarks(codec: Codec, r: Report, now: Time, clampFuture: bool)
    requires Lawful(codec)
    ensures MarkedFor(Unfitted(codec, r, now, clampFuture), r, Changed(codec, r, now, clampFuture) && Unmarked(r))
  {
    UnmarkedExactly(r);
    UnfittedCases(codec, r, now, clampFuture);
    WithMarkerFacts(codec, CanonicalCapabilities(codec, r));
  }

  lemma CutKeepsMarker(b: Report, u: Report, r: Report, marks: bool)
    requires Cut(b, u) && |b.capabilities| >= CapabilityMinimum(u) && MarkedFor(u, r, marks)
    ensures MarkedFor(b, r, marks)
  {
  }

  lemma CutValues(codec: Codec, r: Report, now: Time, clampFuture: bool, b: Report, whole: bool)
    requires Lawful(codec) && Cut(b, Unfitted(codec, r, now, clampFuture))
    requires |b.capabilities| >= CapabilityMinimum(Unfitted(codec, r, now, clampFuture))
    requires whole ==> b == Unfitted(codec, r, now, clampFuture)
    ensures ReportFrom(codec, b, r, now, clampFuture, whole, Changed(codec, r, now, clampFuture))
  {
    var u := Unfitted(codec, r, now, clampFuture);
    var marks := Changed(codec, r, now, clampFuture) && Unmarked(r);
    CutScalarsFrom(codec, r, now, clampFuture, b);
    CutHardwareFrom(codec, r, now, clampFuture, b, whole);
    UnfittedListed(codec, r, now, clampFuture);
    ListsSelected(codec, r, u, b);
    UnfittedMembers(codec, r, now, clampFuture);
    MembersFrom(codec, u.capabilities, b.capabilities, r.capabilities, whole, marks);
    UnfittedMarks(codec, r, now, clampFuture);
    CutKeepsMarker(b, u, r, marks);
  }

  lemma BoundedKeepsMarker(codec: Codec, r: Report, now: Time, clampFuture: bool)
    ensures var u := Unfitted(codec, r, now, clampFuture);
            |Bounded(codec, r, now, clampFuture).0.capabilities| >= CapabilityMinimum(u)
  {
    var u := Unfitted(codec, r, now, clampFuture);
    var m := MinimaOf(codec, u, Normalized(r, now, clampFuture));
    FitResult(codec, u, m.network, m.disk, m.temperature, m.gpu);
  }

  /**
   Bounding changes values only as the contract says, drops elements only over their limits or the byte limit, and
   marks and counts a loss once.
   */
  lemma BoundedValues(codec: Codec, r: Report, now: Time, clampFuture: bool)
    requires Lawful(codec)
    ensures var (b, lossy) := Bounded(codec, r, now, clampFuture);
            ReportFrom(codec, b, r, now, clampFuture, Fits(codec, Unfitted(codec, r, now, clampFuture)), lossy)
  {
    var whole := Fits(codec, Unfitted(codec, r, now, clampFuture));
    BoundedCut(codec, r, now, clampFuture);
    BoundedKeepsMarker(codec, r, now, clampFuture);
    if whole {
      UncutWhenFitting(codec, r, now, clampFuture);
    }
    CutValues(codec, r, now, clampFuture, Bounded(codec, r, now, clampFuture).0, whole);
  }
}
