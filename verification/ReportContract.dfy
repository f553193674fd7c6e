/**
 What bounding a report means: normalise, order, deduplicate, truncate, mark, and cut to the
 byte limit. The lists are compared by their serialised elements.
 */
module ReportContract {
  import opened Wrappers
  import opened Sorting
  import opened ReportText
  import opened ReportModel
  import opened ReportNormal
  import opened ReportHardware
  import opened ReportPriority

  /** The serialiser: one key per list element, one document per report, and the parser back. */
  datatype Codec = Codec(capability: Capability -> seq<Symbol>, network: Network -> seq<Symbol>, disk: Volume -> seq<Symbol>,
                         temperature: Temperature -> seq<Symbol>, gpu: Gpu -> seq<Symbol>,
                         report: Report -> seq<Symbol>, parse: seq<Symbol> -> Option<Report>,
                         schemaOf: seq<Symbol> -> Option<nat>)

  ghost predicate Lawful(codec: Codec) {
    && Injective(codec.capability) && Injective(codec.network) && Injective(codec.disk)
    && Injective(codec.temperature) && Injective(codec.gpu)
    && (forall r :: codec.parse(codec.report(r)) == Some(r))
    && (forall r :: codec.schemaOf(codec.report(r)) == Some(r.schemaVersion))
  }

  function Size(codec: Codec, r: Report): nat {
    |codec.report(r)|
  }

  // ----- Capabilities -----

  const MARKER := Capability(TRUNCATED_CAPABILITY, false, TRUNCATED_SOURCE, Some(InvalidData), Some(TRUNCATED_MESSAGE))

  predicate IsMarker(c: Capability) {
    c.name == TRUNCATED_CAPABILITY
  }

  predicate Marked(cs: seq<Capability>) {
    exists i | 0 <= i < |cs| :: IsMarker(cs[i])
  }

  function MarkerRank(c: Capability): seq<Symbol> { [if IsMarker(c) then 0.0 else 1.0] }
  function NameCodes(c: Capability): seq<Symbol> { Codes(c.name) }
  function SourceCodes(c: Capability): seq<Symbol> { Codes(c.source) }
  function AvailableRank(c: Capability): seq<Symbol> { [if c.available then 0.0 else 1.0] }

  /** Markers first, then by name, source, available before unavailable, and the serialised form. */
  function CapabilityOrder(codec: Codec): (Capability, Capability) -> bool {
    Then(ByKey(MarkerRank),
         Then(ByKey(NameCodes), Then(ByKey(SourceCodes), Then(ByKey(AvailableRank), ByKey(codec.capability)))))
  }

  function NameAndSource(c: Capability): (string, string) { (c.name, c.source) }

  function Deduplicated(codec: Codec, cs: seq<Capability>): seq<Capability> {
    Dedup(Sort(cs, CapabilityOrder(codec)), NameAndSource)
  }

  // ----- Summary metrics -----

  function NetworkMetrics(): seq<Metric<Network>> {
    [(n: Network) => Some(n.receivedBytesPerSecond), (n: Network) => Some(n.transmittedBytesPerSecond)]
  }

  function DiskMetrics(): seq<Metric<Volume>> {
    [(d: Volume) => Some(d.readBytesPerSecond), (d: Volume) => Some(d.writtenBytesPerSecond)]
  }

  function TemperatureMetrics(): seq<Metric<Temperature>> {
    [(t: Temperature) => t.celsius]
  }

  function GpuMetrics(): seq<Metric<Gpu>> {
    [(g: Gpu) => g.utilizationPercent, (g: Gpu) => g.temperatureCelsius]
  }

  // ----- Fitting the body -----

  /** How much of each list the byte limit may not take. */
  datatype Minima = Minima(capability: nat, network: nat, disk: nat, temperature: nat, gpu: nat)

  function Excess(length: nat, minimum: nat): nat {
    if length > minimum then length - minimum else 0
  }

  function Removable(r: Report, m: Minima): nat {
    Excess(|r.capabilities|, m.capability) + Excess(|r.networks|, m.network) + Excess(|r.disks|, m.disk)
    + Excess(|r.temperatures|, m.temperature) + Excess(|r.gpus|, m.gpu)
  }

  function Lower(a: real, b: real): real { if a <= b then a else b }

  function Ratio(current: nat): real {
    Lower(CLIENT_REPORT_MAX_BODY_BYTES as real / (if current == 0 then 1 else current) as real * 0.97, 0.99)
  }

  /** The length a list is cut to: the ratio of it, never below its minimum, and always shorter above it. */
  function Target(length: nat, minimum: nat, ratio: real): (target: nat)
    requires ratio >= 0.0
    ensures target <= length
    ensures length > minimum ==> minimum <= target < length
    ensures length <= minimum ==> target == length
  {
    if length <= minimum then length
    else
      var scaled := (length as real * ratio).Floor;
      var target := if scaled < minimum then minimum else scaled;
      if target >= length then length - 1 else target
  }

  function Shrunk(r: Report, m: Minima, ratio: real): Report
    requires ratio >= 0.0
  {
    r.(capabilities := r.capabilities[..Target(|r.capabilities|, m.capability, ratio)],
       networks := r.networks[..Target(|r.networks|, m.network, ratio)],
       disks := r.disks[..Target(|r.disks|, m.disk, ratio)],
       temperatures := r.temperatures[..Target(|r.temperatures|, m.temperature, ratio)],
       gpus := r.gpus[..Target(|r.gpus|, m.gpu, ratio)])
  }

  lemma RatioBounds(current: nat)
    ensures 0.0 <= Ratio(current) <= 0.99
  {
    var d: real := (if current == 0 then 1 else current) as real;
    assert CLIENT_REPORT_MAX_BODY_BYTES as real / d >= 0.0;
  }

  function ShrinkRounds(codec: Codec, r: Report, m: Minima): Report
    decreases Removable(r, m)
  {
    if Size(codec, r) <= CLIENT_REPORT_MAX_BODY_BYTES || Removable(r, m) == 0 then r
    else
      RatioBounds(Size(codec, r));
      ShrinkRounds(codec, Shrunk(r, m, Ratio(Size(codec, r))), m)
  }

  function AllButLast<T>(xs: seq<T>): seq<T>
    requires xs != []
  {
    xs[..|xs| - 1]
  }

  /** The next element to give up when even the shrunk lists are too long. */
  function WithoutLastOptional(r: Report, capabilityMinimum: nat): Option<Report> {
    if r.temperatures != [] then Some(r.(temperatures := AllButLast(r.temperatures)))
    else if r.disks != [] then Some(r.(disks := AllButLast(r.disks)))
    else if r.networks != [] then Some(r.(networks := AllButLast(r.networks)))
    else if r.gpus != [] then Some(r.(gpus := AllButLast(r.gpus)))
    else if |r.capabilities| > capabilityMinimum then Some(r.(capabilities := AllButLast(r.capabilities)))
    else None
  }

  function ListTotal(r: Report): nat {
    |r.capabilities| + |r.networks| + |r.disks| + |r.temperatures| + |r.gpus|
  }

  function RemoveRounds(codec: Codec, r: Report, capabilityMinimum: nat): Report
    decreases ListTotal(r)
  {
    if Size(codec, r) <= CLIENT_REPORT_MAX_BODY_BYTES then r
    else
      match WithoutLastOptional(r, capabilityMinimum)
      case None => r
      case Some(next) => RemoveRounds(codec, next, capabilityMinimum)
  }

  function CapabilityMinimum(r: Report): nat {
    if r.capabilities != [] && IsMarker(r.capabilities[0]) then 1 else 0
  }

  function Fit(codec: Codec, r: Report, network: nat, disk: nat, temperature: nat, gpu: nat): Report {
    var bare := if Size(codec, r) > CLIENT_REPORT_MAX_BODY_BYTES then r.(hardware := None) else r;
    var minimum := CapabilityMinimum(bare);
    RemoveRounds(codec, ShrinkRounds(codec, bare, Minima(minimum, network, disk, temperature, gpu)), minimum)
  }

  // ----- Bounding -----

  /** The structural rules on a normalised report. */
  function Structured(codec: Codec, n: Report): Report {
    n.(hardware := if n.hardware.Some? then Some(BoundHardware(n.hardware.value, n.collectedAt).0) else None,
       cpu := BoundCpu(n.cpu),
       capabilities := Truncate(Deduplicated(codec, n.capabilities), CLIENT_REPORT_MAX_CAPABILITIES),
       networks := Truncate(Prioritized(n.networks, ByKey(codec.network), NetworkMetrics()), CLIENT_REPORT_MAX_NETWORKS),
       disks := Truncate(Prioritized(n.disks, ByKey(codec.disk), DiskMetrics()), CLIENT_REPORT_MAX_DISKS),
       temperatures := Truncate(Prioritized(n.temperatures, ByKey(codec.temperature), TemperatureMetrics()),
                                CLIENT_REPORT_MAX_TEMPERATURES),
       gpus := Truncate(Prioritized(n.gpus, ByKey(codec.gpu), GpuMetrics()), CLIENT_REPORT_MAX_GPUS))
  }

  /** Whether the structural rules changed or discarded anything; reordering a list does not count. */
  function StructureChanged(codec: Codec, n: Report): bool {
    || (n.hardware.Some? && BoundHardware(n.hardware.value, n.collectedAt).1)
    || BoundCpu(n.cpu) != n.cpu
    || |Deduplicated(codec, n.capabilities)| != |n.capabilities|
    || |Deduplicated(codec, n.capabilities)| > CLIENT_REPORT_MAX_CAPABILITIES
    || |n.networks| > CLIENT_REPORT_MAX_NETWORKS || |n.disks| > CLIENT_REPORT_MAX_DISKS
    || |n.temperatures| > CLIENT_REPORT_MAX_TEMPERATURES || |n.gpus| > CLIENT_REPORT_MAX_GPUS
  }

  /** Everything before the marker. */
  function Canonical(codec: Codec, r: Report, now: Time, clampFuture: bool): (Report, bool) {
    var n := Normalized(r, now, clampFuture);
    (Structured(codec, n), n != r || StructureChanged(codec, n))
  }

  function WithMarker(codec: Codec, cs: seq<Capability>): seq<Capability> {
    Truncate(Sort(cs + [MARKER], CapabilityOrder(codec)), CLIENT_REPORT_MAX_CAPABILITIES)
  }

  const U64_MAX: nat := 0xffff_ffff_ffff_ffff

  function Mark(codec: Codec, r: Report): Report {
    r.(capabilities := WithMarker(codec, r.capabilities),
       collectorErrors := if r.collectorErrors < U64_MAX then r.collectorErrors + 1 else r.collectorErrors)
  }

  function Changed(codec: Codec, r: Report, now: Time, clampFuture: bool): bool {
    var (canonical, changed) := Canonical(codec, r, now, clampFuture);
    changed || Size(codec, canonical) > CLIENT_REPORT_MAX_BODY_BYTES
  }

  /** The canonical report, marked once if anything had to change. */
  function Unfitted(codec: Codec, r: Report, now: Time, clampFuture: bool): Report {
    var canonical := Canonical(codec, r, now, clampFuture).0;
    if Changed(codec, r, now, clampFuture) && !Marked(r.capabilities) then Mark(codec, canonical) else canonical
  }


  function FitCanonical(codec: Codec, u: Report, n: Report): Report {
    Fit(codec, u,
        AtMost(AnchorCount(n.networks, ByKey(codec.network), NetworkMetrics()), |u.networks|),
        AtMost(AnchorCount(n.disks, ByKey(codec.disk), DiskMetrics()), |u.disks|),
        AtMost(AnchorCount(n.temperatures, ByKey(codec.temperature), TemperatureMetrics()), |u.temperatures|),
        AtMost(AnchorCount(n.gpus, ByKey(codec.gpu), GpuMetrics()), |u.gpus|))
  }

  /** The bounded report and whether any information had to be changed or discarded. */
  function Bounded(codec: Codec, r: Report, now: Time, clampFuture: bool): (Report, bool) {
    (FitCanonical(codec, Unfitted(codec, r, now, clampFuture), Normalized(r, now, clampFuture)),
     Changed(codec, r, now, clampFuture))
  }

  datatype EncodeError = UnsupportedSchema | TooLarge

  function Encode(codec: Codec, r: Report, now: Time, clampFuture: bool): Result<(Report, seq<Symbol>), EncodeError> {
    if r.schemaVersion != CLIENT_REPORT_SCHEMA_VERSION then Failure(UnsupportedSchema)
    else
      var bounded := Bounded(codec, r, now, clampFuture).0;
      if Size(codec, bounded) > CLIENT_REPORT_MAX_BODY_BYTES then Failure(TooLarge)
      else Success((bounded, codec.report(bounded)))
  }
}
