/** The scalar, text and per-element rules of a report, and why applying them again changes nothing. */
module ReportNormal {
  import opened Wrappers
  import opened Sorting
  import opened ReportText
  import opened ReportModel

  function AtMost(value: nat, limit: nat): nat {
    if value > limit then limit else value
  }

  function NormCapability(c: Capability): Capability {
    Capability(RequiredText(c.name, CLIENT_REPORT_MAX_CAPABILITY_NAME_BYTES, "unknown.capability"),
               c.available,
               RequiredText(c.source, CLIENT_REPORT_MAX_CAPABILITY_SOURCE_BYTES, "unknown"),
               c.errorKind,
               OptionalNonempty(c.message, CLIENT_REPORT_MAX_CAPABILITY_MESSAGE_BYTES))
  }

  function NormNetwork(n: Network): Network {
    n.(name := RequiredText(n.name, CLIENT_REPORT_MAX_NETWORK_NAME_BYTES, "unnamed-network"),
       receivedBytesPerSecond := NonNegative(n.receivedBytesPerSecond),
       transmittedBytesPerSecond := NonNegative(n.transmittedBytesPerSecond))
  }

  function NormVolume(d: Volume): Volume {
    d.(name := StripAndTruncate(d.name, CLIENT_REPORT_MAX_DISK_NAME_BYTES),
       mountPoint := RequiredText(d.mountPoint, CLIENT_REPORT_MAX_MOUNT_POINT_BYTES, "unknown"),
       fileSystem := StripAndTruncate(d.fileSystem, CLIENT_REPORT_MAX_FILE_SYSTEM_BYTES),
       availableBytes := AtMost(d.availableBytes, d.totalBytes),
       readBytesPerSecond := NonNegative(d.readBytesPerSecond),
       writtenBytesPerSecond := NonNegative(d.writtenBytesPerSecond))
  }

  function NormTemperature(t: Temperature): Temperature {
    Temperature(StripAndTruncate(t.id, CLIENT_REPORT_MAX_TEMPERATURE_ID_BYTES),
                StripAndTruncate(t.caption, CLIENT_REPORT_MAX_TEMPERATURE_LABEL_BYTES),
                Ranged(t.celsius, -273.15, 1000.0),
                Ranged(t.maxCelsius, -273.15, 1000.0),
                Ranged(t.criticalCelsius, -273.15, 1000.0),
                StripAndTruncate(t.source, CLIENT_REPORT_MAX_TEMPERATURE_SOURCE_BYTES))
  }

  function NormGpu(g: Gpu): Gpu {
    Gpu(StripAndTruncate(g.id, CLIENT_REPORT_MAX_GPU_ID_BYTES),
        StripAndTruncate(g.vendor, CLIENT_REPORT_MAX_GPU_VENDOR_BYTES),
        StripAndTruncate(g.name, CLIENT_REPORT_MAX_GPU_NAME_BYTES),
        Ranged(g.utilizationPercent, 0.0, 100.0),
        g.memoryTotalBytes,
        if g.memoryUsedBytes.Some? && g.memoryTotalBytes.Some?
        then Some(AtMost(g.memoryUsedBytes.value, g.memoryTotalBytes.value)) else g.memoryUsedBytes,
        Ranged(g.temperatureCelsius, -273.15, 1000.0),
        Ranged(g.powerWatts, 0.0, F64_MAX),
        Ranged(g.coreClockMhz, 0.0, F64_MAX),
        Ranged(g.memoryClockMhz, 0.0, F64_MAX),
        Ranged(g.pcieRxBytesPerSecond, 0.0, F64_MAX),
        Ranged(g.pcieTxBytesPerSecond, 0.0, F64_MAX),
        StripAndTruncate(g.source, CLIENT_REPORT_MAX_GPU_SOURCE_BYTES))
  }

  function NormHost(h: Host): Host {
    Host(h.id,
         RequiredText(h.os, CLIENT_REPORT_MAX_HOST_OS_BYTES, "unknown"),
         OptionalText(h.osVersion, CLIENT_REPORT_MAX_HOST_VERSION_BYTES),
         OptionalText(h.kernelVersion, CLIENT_REPORT_MAX_HOST_VERSION_BYTES),
         RequiredText(h.arch, CLIENT_REPORT_MAX_HOST_ARCH_BYTES, "unknown"),
         RequiredText(h.clientVersion, CLIENT_REPORT_MAX_CLIENT_VERSION_BYTES, "unknown"))
  }

  function NormMemory(m: Memory): Memory {
    m.(usedBytes := AtMost(m.usedBytes, m.totalBytes),
       availableBytes := AtMost(m.availableBytes, m.totalBytes),
       swapUsedBytes := AtMost(m.swapUsedBytes, m.swapTotalBytes))
  }

  function NormInterval(v: F64): F64 {
    Fin(if v.Fin? then Clamp(v.value, CLIENT_REPORT_INTERVAL_SECONDS.0, CLIENT_REPORT_INTERVAL_SECONDS.1)
        else CLIENT_REPORT_INTERVAL_SECONDS.0)
  }

  /** A collection time too far in the future becomes now, when the policy clamps at all. */
  function NormTime(collectedAt: Time, now: Time, clampFuture: bool): Time {
    if clampFuture && collectedAt - now > FUTURE_TOLERANCE then now else collectedAt
  }

  function Normalized(r: Report, now: Time, clampFuture: bool): Report {
    r.(intervalSeconds := NormInterval(r.intervalSeconds),
       collectedAt := NormTime(r.collectedAt, now, clampFuture),
       host := NormHost(r.host),
       cpu := r.cpu.(usagePercent := Percent(r.cpu.usagePercent)),
       memory := NormMemory(r.memory),
       capabilities := Map(r.capabilities, NormCapability),
       networks := Map(r.networks, NormNetwork),
       disks := Map(r.disks, NormVolume),
       temperatures := Map(r.temperatures, NormTemperature),
       gpus := Map(r.gpus, NormGpu))
  }

  /** One entry per logical core, at least one, never more than the limit. */
  function BoundCpu(c: Cpu): Cpu {
    var cores := if c.perCorePercent == [] then [c.usagePercent] else c.perCorePercent;
    var bounded := Truncate(Map(cores, Percent), CLIENT_REPORT_MAX_CPU_CORES);
    Cpu(c.usagePercent, |bounded|,
        if c.physicalCount.Some? && (c.physicalCount.value == 0 || c.physicalCount.value > |bounded|) then None
        else c.physicalCount,
        bounded)
  }

  /** Every element rule has nothing left to do. */
  ghost predicate Normal(r: Report) {
    && NormInterval(r.intervalSeconds) == r.intervalSeconds
    && NormHost(r.host) == r.host
    && Percent(r.cpu.usagePercent) == r.cpu.usagePercent
    && NormMemory(r.memory) == r.memory
    && (forall c | c in r.capabilities :: NormCapability(c) == c)
    && (forall n | n in r.networks :: NormNetwork(n) == n)
    && (forall d | d in r.disks :: NormVolume(d) == d)
    && (forall t | t in r.temperatures :: NormTemperature(t) == t)
    && (forall g | g in r.gpus :: NormGpu(g) == g)
  }

  /** The rules outside the lists have nothing to do. */
  predicate ScalarsFixed(r: Report, now: Time, clampFuture: bool) {
    && NormInterval(r.intervalSeconds) == r.intervalSeconds
    && NormTime(r.collectedAt, now, clampFuture) == r.collectedAt
    && NormHost(r.host) == r.host && Percent(r.cpu.usagePercent) == r.cpu.usagePercent
    && NormMemory(r.memory) == r.memory
  }

  /** A report is left alone exactly when every one of its parts is. */
  lemma FixedExactly(r: Report, now: Time, clampFuture: bool)
    ensures Normalized(r, now, clampFuture) == r <==>
              && ScalarsFixed(r, now, clampFuture)
              && Map(r.capabilities, NormCapability) == r.capabilities
              && Map(r.networks, NormNetwork) == r.networks
              && Map(r.disks, NormVolume) == r.disks
              && Map(r.temperatures, NormTemperature) == r.temperatures
              && Map(r.gpus, NormGpu) == r.gpus
  {
  }

  lemma CapabilityStable(c: Capability)
    ensures NormCapability(NormCapability(c)) == NormCapability(c)
  {
    RequiredTextIsStable(c.name, CLIENT_REPORT_MAX_CAPABILITY_NAME_BYTES, "unknown.capability");
    RequiredTextIsStable(c.source, CLIENT_REPORT_MAX_CAPABILITY_SOURCE_BYTES, "unknown");
    OptionalNonemptyIsStable(c.message, CLIENT_REPORT_MAX_CAPABILITY_MESSAGE_BYTES);
  }

  lemma NetworkStable(n: Network)
    ensures NormNetwork(NormNetwork(n)) == NormNetwork(n)
  {
    RequiredTextIsStable(n.name, CLIENT_REPORT_MAX_NETWORK_NAME_BYTES, "unnamed-network");
  }

  lemma VolumeStable(d: Volume)
    ensures NormVolume(NormVolume(d)) == NormVolume(d)
  {
    DescriptiveTextIsStable(d.name, CLIENT_REPORT_MAX_DISK_NAME_BYTES);
    RequiredTextIsStable(d.mountPoint, CLIENT_REPORT_MAX_MOUNT_POINT_BYTES, "unknown");
    DescriptiveTextIsStable(d.fileSystem, CLIENT_REPORT_MAX_FILE_SYSTEM_BYTES);
  }

  lemma TemperatureStable(t: Temperature)
    ensures NormTemperature(NormTemperature(t)) == NormTemperature(t)
  {
    DescriptiveTextIsStable(t.id, CLIENT_REPORT_MAX_TEMPERATURE_ID_BYTES);
    DescriptiveTextIsStable(t.caption, CLIENT_REPORT_MAX_TEMPERATURE_LABEL_BYTES);
    DescriptiveTextIsStable(t.source, CLIENT_REPORT_MAX_TEMPERATURE_SOURCE_BYTES);
  }

  lemma GpuStable(g: Gpu)
    ensures NormGpu(NormGpu(g)) == NormGpu(g)
  {
    DescriptiveTextIsStable(g.id, CLIENT_REPORT_MAX_GPU_ID_BYTES);
    DescriptiveTextIsStable(g.vendor, CLIENT_REPORT_MAX_GPU_VENDOR_BYTES);
    DescriptiveTextIsStable(g.name, CLIENT_REPORT_MAX_GPU_NAME_BYTES);
    DescriptiveTextIsStable(g.source, CLIENT_REPORT_MAX_GPU_SOURCE_BYTES);
  }

  lemma HostStable(h: Host)
    ensures NormHost(NormHost(h)) == NormHost(h)
  {
    RequiredTextIsStable(h.os, CLIENT_REPORT_MAX_HOST_OS_BYTES, "unknown");
    OptionalTextIsStable(h.osVersion, CLIENT_REPORT_MAX_HOST_VERSION_BYTES);
    OptionalTextIsStable(h.kernelVersion, CLIENT_REPORT_MAX_HOST_VERSION_BYTES);
    RequiredTextIsStable(h.arch, CLIENT_REPORT_MAX_HOST_ARCH_BYTES, "unknown");
    RequiredTextIsStable(h.clientVersion, CLIENT_REPORT_MAX_CLIENT_VERSION_BYTES, "unknown");
  }

  lemma MapFixes<T(!new)>(xs: seq<T>, norm: T -> T)
    requires forall x | x in xs :: norm(norm(x)) == norm(x)
    ensures forall y | y in Map(xs, norm) :: norm(y) == y
  {
    forall y | y in Map(xs, norm) ensures norm(y) == y {
      MapImages(xs, norm, y);
    }
  }

  lemma NormalizedIsNormal(r: Report, now: Time, clampFuture: bool)
    ensures Normal(Normalized(r, now, clampFuture))
  {
    HostStable(r.host);
    forall c ensures NormCapability(NormCapability(c)) == NormCapability(c) { CapabilityStable(c); }
    forall n ensures NormNetwork(NormNetwork(n)) == NormNetwork(n) { NetworkStable(n); }
    forall d ensures NormVolume(NormVolume(d)) == NormVolume(d) { VolumeStable(d); }
    forall t ensures NormTemperature(NormTemperature(t)) == NormTemperature(t) { TemperatureStable(t); }
    forall g ensures NormGpu(NormGpu(g)) == NormGpu(g) { GpuStable(g); }
    MapFixes(r.capabilities, NormCapability);
    MapFixes(r.networks, NormNetwork);
    MapFixes(r.disks, NormVolume);
    MapFixes(r.temperatures, NormTemperature);
    MapFixes(r.gpus, NormGpu);
  }

  lemma NormalIsFixed(r: Report, now: Time, clampFuture: bool)
    requires Normal(r) && NormTime(r.collectedAt, now, clampFuture) == r.collectedAt
    ensures Normalized(r, now, clampFuture) == r
  {
    MapFixed(r.capabilities, NormCapability);
    MapFixed(r.networks, NormNetwork);
    MapFixed(r.disks, NormVolume);
    MapFixed(r.temperatures, NormTemperature);
    MapFixed(r.gpus, NormGpu);
  }

  lemma BoundCpuStable(c: Cpu)
    ensures BoundCpu(BoundCpu(c)) == BoundCpu(c)
    ensures BoundCpu(c).logicalCount == |BoundCpu(c).perCorePercent| > 0
    ensures |BoundCpu(c).perCorePercent| <= CLIENT_REPORT_MAX_CPU_CORES
  {
    var b := BoundCpu(c);
    assert BoundCpu(b).perCorePercent == b.perCorePercent;
  }
}
