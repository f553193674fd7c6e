/**
 What becomes of the numbers, texts and elements of a report, said of the raw ones alone, without the functions
 that compute it.
 */
module ReportValues {
  import opened Wrappers
  import opened Sorting
  import opened ReportText
  import opened ReportModel
  import opened ReportNormal

  // ----- Numbers -----

  function Distance(a: real, b: real): real {
    if a <= b then b - a else a - b
  }

  /** The value in the range that is nearest to a finite one; the fallback for anything else. */
  ghost predicate Nearest(after: F64, raw: F64, low: real, high: real, fallback: real) {
    if raw.Fin? then
      && after.Fin? && low <= after.value <= high
      && forall w: real | low <= w <= high :: Distance(after.value, raw.value) <= Distance(w, raw.value)
    else after == Fin(fallback)
  }

  lemma NearestIsUnique(a: F64, b: F64, raw: F64, low: real, high: real, fallback: real)
    requires Nearest(a, raw, low, high, fallback) && Nearest(b, raw, low, high, fallback)
    ensures a == b
  {
    if raw.Fin? {
      assert Distance(a.value, raw.value) == Distance(b.value, raw.value);
      var middle := (a.value + b.value) / 2.0;
      assert low <= middle <= high;
      assert Distance(a.value, raw.value) <= Distance(middle, raw.value);
    }
  }

  lemma ClampIsNearest(value: real, low: real, high: real)
    requires low <= high
    ensures Nearest(Fin(Clamp(value, low, high)), Fin(value), low, high, low)
  {
  }

  lemma PercentIsNearest(v: F64)
    ensures Nearest(Percent(v), v, 0.0, 100.0, 0.0)
  {
    if v.Fin? {
      ClampIsNearest(v.value, 0.0, 100.0);
    }
  }

  lemma PercentOfPercent(v: F64)
    ensures Nearest(Percent(Percent(v)), v, 0.0, 100.0, 0.0)
  {
    PercentIsNearest(v);
  }

  lemma IntervalIsNearest(v: F64)
    ensures Nearest(NormInterval(v), v, CLIENT_REPORT_INTERVAL_SECONDS.0, CLIENT_REPORT_INTERVAL_SECONDS.1,
                    CLIENT_REPORT_INTERVAL_SECONDS.0)
  {
    if v.Fin? {
      ClampIsNearest(v.value, CLIENT_REPORT_INTERVAL_SECONDS.0, CLIENT_REPORT_INTERVAL_SECONDS.1);
    }
  }

  /** A finite value that is not negative stays; anything else is zero. */
  predicate RateFrom(after: F64, raw: F64) {
    if raw.Fin? && raw.value >= 0.0 then after == raw else after == Fin(0.0)
  }

  /** A reading in range stays; one out of range, or not finite, disappears. */
  predicate Kept(after: Option<F64>, raw: Option<F64>, low: real, high: real) {
    if raw.Some? && raw.value.Fin? && low <= raw.value.value <= high then after == raw else after == None
  }

  predicate Capped(after: nat, raw: nat, limit: nat) {
    after == if raw > limit then limit else raw
  }

  // ----- Text -----

  predicate IsVisible(c: char) {
    !IsControl(c)
  }

  lemma {:induction false} StripControlsExactly(s: string) returns (at: seq<nat>)
    ensures Picks(StripControls(s), s, IsVisible, at)
  {
    if s == [] {
      at := [];
    } else {
      var n := |s| - 1;
      at := StripControlsExactly(s[..n]);
      assert s == s[..n] + [s[n]];
      StripControlsConcat(s[..n], [s[n]]);
      StripOne(s[n]);
      PicksOneMore(StripControls(s[..n]), s[..n], IsVisible, at, s[n]);
      if IsVisible(s[n]) {
        at := at + [n];
      }
    }
  }

  lemma StripOne(c: char)
    ensures StripControls([c]) == if IsControl(c) then [] else [c]
  {
    assert [c][1..] == [] && StripControls([]) == [];
  }

  /** The longest prefix of whole code points that fits. */
  predicate Longest(t: string, s: string, maximum: nat) {
    && t <= s && ByteLen(t) <= maximum
    && (|t| < |s| ==> ByteLen(s[..|t| + 1]) > maximum)
  }

  /** What the byte limit leaves of the visible characters. */
  ghost predicate TextFrom(after: string, raw: string, maximum: nat) {
    exists visible, at :: Picks(visible, raw, IsVisible, at) && Longest(after, visible, maximum)
  }

  lemma TextIsFrom(raw: string, maximum: nat)
    ensures TextFrom(StripAndTruncate(raw, maximum), raw, maximum)
  {
    var at := StripControlsExactly(raw);
    TakeBytesIsLongestPrefix(StripControls(raw), maximum);
  }

  /** A text that is blank after that is replaced by what fits of the fallback. */
  ghost predicate RequiredFrom(after: string, raw: string, maximum: nat, fallback: string) {
    exists text :: TextFrom(text, raw, maximum) && if IsBlank(text) then Longest(after, fallback, maximum) else after == text
  }

  lemma RequiredIsFrom(raw: string, maximum: nat, fallback: string)
    ensures RequiredFrom(RequiredText(raw, maximum, fallback), raw, maximum, fallback)
  {
    TextIsFrom(raw, maximum);
    TakeBytesIsLongestPrefix(fallback, maximum);
  }

  ghost predicate OptionalFrom(after: Option<string>, raw: Option<string>, maximum: nat) {
    if raw.None? then after.None? else after.Some? && TextFrom(after.value, raw.value, maximum)
  }

  lemma OptionalIsFrom(raw: Option<string>, maximum: nat)
    ensures OptionalFrom(OptionalText(raw, maximum), raw, maximum)
  {
    if raw.Some? {
      TextIsFrom(raw.value, maximum);
    }
  }

  /** An optional text that is blank after that disappears. */
  ghost predicate NonemptyFrom(after: Option<string>, raw: Option<string>, maximum: nat) {
    if raw.None? then after.None?
    else exists text :: TextFrom(text, raw.value, maximum) && after == if IsBlank(text) then None else Some(text)
  }

  lemma NonemptyIsFrom(raw: Option<string>, maximum: nat)
    ensures NonemptyFrom(OptionalNonempty(raw, maximum), raw, maximum)
  {
    if raw.Some? {
      TextIsFrom(raw.value, maximum);
    }
  }

  // ----- Elements -----

  ghost predicate HostFrom(b: Host, h: Host) {
    && b.id == h.id
    && RequiredFrom(b.os, h.os, CLIENT_REPORT_MAX_HOST_OS_BYTES, "unknown")
    && OptionalFrom(b.osVersion, h.osVersion, CLIENT_REPORT_MAX_HOST_VERSION_BYTES)
    && OptionalFrom(b.kernelVersion, h.kernelVersion, CLIENT_REPORT_MAX_HOST_VERSION_BYTES)
    && RequiredFrom(b.arch, h.arch, CLIENT_REPORT_MAX_HOST_ARCH_BYTES, "unknown")
    && RequiredFrom(b.clientVersion, h.clientVersion, CLIENT_REPORT_MAX_CLIENT_VERSION_BYTES, "unknown")
  }

  predicate MemoryFrom(b: Memory, m: Memory) {
    && b.totalBytes == m.totalBytes && b.swapTotalBytes == m.swapTotalBytes
    && Capped(b.usedBytes, m.usedBytes, m.totalBytes) && Capped(b.availableBytes, m.availableBytes, m.totalBytes)
    && Capped(b.swapUsedBytes, m.swapUsedBytes, m.swapTotalBytes)
  }

  /** One load per core, the total where there is none, and counts that agree with them. */
  ghost predicate CpuFrom(b: Cpu, c: Cpu) {
    var cores := if c.perCorePercent == [] then [c.usagePercent] else c.perCorePercent;
    && Nearest(b.usagePercent, c.usagePercent, 0.0, 100.0, 0.0)
    && Capped(|b.perCorePercent|, |cores|, CLIENT_REPORT_MAX_CPU_CORES)
    && (forall i | 0 <= i < |b.perCorePercent| :: Nearest(b.perCorePercent[i], cores[i], 0.0, 100.0, 0.0))
    && b.logicalCount == |b.perCorePercent|
    && b.physicalCount == if c.physicalCount.Some? && 1 <= c.physicalCount.value <= |b.perCorePercent|
                          then c.physicalCount else None
  }

  ghost predicate CapabilityFrom(b: Capability, c: Capability) {
    && RequiredFrom(b.name, c.name, CLIENT_REPORT_MAX_CAPABILITY_NAME_BYTES, "unknown.capability")
    && b.available == c.available
    && RequiredFrom(b.source, c.source, CLIENT_REPORT_MAX_CAPABILITY_SOURCE_BYTES, "unknown")
    && b.errorKind == c.errorKind
    && NonemptyFrom(b.message, c.message, CLIENT_REPORT_MAX_CAPABILITY_MESSAGE_BYTES)
  }

  ghost predicate NetworkFrom(b: Network, n: Network) {
    && RequiredFrom(b.name, n.name, CLIENT_REPORT_MAX_NETWORK_NAME_BYTES, "unnamed-network")
    && RateFrom(b.receivedBytesPerSecond, n.receivedBytesPerSecond)
    && RateFrom(b.transmittedBytesPerSecond, n.transmittedBytesPerSecond)
    && b.receivedBytesTotal == n.receivedBytesTotal && b.transmittedBytesTotal == n.transmittedBytesTotal
    && b.packetsReceivedTotal == n.packetsReceivedTotal && b.packetsTransmittedTotal == n.packetsTransmittedTotal
    && b.receiveErrorsTotal == n.receiveErrorsTotal && b.transmitErrorsTotal == n.transmitErrorsTotal
  }

  ghost predicate VolumeFrom(b: Volume, d: Volume) {
    && TextFrom(b.name, d.name, CLIENT_REPORT_MAX_DISK_NAME_BYTES)
    && RequiredFrom(b.mountPoint, d.mountPoint, CLIENT_REPORT_MAX_MOUNT_POINT_BYTES, "unknown")
    && TextFrom(b.fileSystem, d.fileSystem, CLIENT_REPORT_MAX_FILE_SYSTEM_BYTES)
    && b.totalBytes == d.totalBytes && Capped(b.availableBytes, d.availableBytes, d.totalBytes)
    && b.readBytesTotal == d.readBytesTotal && b.writtenBytesTotal == d.writtenBytesTotal
    && RateFrom(b.readBytesPerSecond, d.readBytesPerSecond)
    && RateFrom(b.writtenBytesPerSecond, d.writtenBytesPerSecond)
    && b.isReadOnly == d.isReadOnly
  }

  ghost predicate TemperatureFrom(b: Temperature, t: Temperature) {
    && TextFrom(b.id, t.id, CLIENT_REPORT_MAX_TEMPERATURE_ID_BYTES)
    && TextFrom(b.caption, t.caption, CLIENT_REPORT_MAX_TEMPERATURE_LABEL_BYTES)
    && TextFrom(b.source, t.source, CLIENT_REPORT_MAX_TEMPERATURE_SOURCE_BYTES)
    && Kept(b.celsius, t.celsius, -273.15, 1000.0)
    && Kept(b.maxCelsius, t.maxCelsius, -273.15, 1000.0)
    && Kept(b.criticalCelsius, t.criticalCelsius, -273.15, 1000.0)
  }

  ghost predicate GpuTextsFrom(b: Gpu, g: Gpu) {
    && TextFrom(b.id, g.id, CLIENT_REPORT_MAX_GPU_ID_BYTES)
    && TextFrom(b.vendor, g.vendor, CLIENT_REPORT_MAX_GPU_VENDOR_BYTES)
    && TextFrom(b.name, g.name, CLIENT_REPORT_MAX_GPU_NAME_BYTES)
    && TextFrom(b.source, g.source, CLIENT_REPORT_MAX_GPU_SOURCE_BYTES)
  }

  predicate GpuReadingsFrom(b: Gpu, g: Gpu) {
    && Kept(b.utilizationPercent, g.utilizationPercent, 0.0, 100.0)
    && b.memoryTotalBytes == g.memoryTotalBytes
    && (if g.memoryUsedBytes.Some? && g.memoryTotalBytes.Some?
        then b.memoryUsedBytes.Some? && Capped(b.memoryUsedBytes.value, g.memoryUsedBytes.value, g.memoryTotalBytes.value)
        else b.memoryUsedBytes == g.memoryUsedBytes)
    && Kept(b.temperatureCelsius, g.temperatureCelsius, -273.15, 1000.0)
    && Kept(b.powerWatts, g.powerWatts, 0.0, F64_MAX)
    && Kept(b.coreClockMhz, g.coreClockMhz, 0.0, F64_MAX)
    && Kept(b.memoryClockMhz, g.memoryClockMhz, 0.0, F64_MAX)
    && Kept(b.pcieRxBytesPerSecond, g.pcieRxBytesPerSecond, 0.0, F64_MAX)
    && Kept(b.pcieTxBytesPerSecond, g.pcieTxBytesPerSecond, 0.0, F64_MAX)
  }

  ghost predicate GpuFrom(b: Gpu, g: Gpu) {
    GpuTextsFrom(b, g) && GpuReadingsFrom(b, g)
  }

  lemma HostIsFrom(h: Host)
    ensures HostFrom(NormHost(h), h)
  {
    RequiredIsFrom(h.os, CLIENT_REPORT_MAX_HOST_OS_BYTES, "unknown");
    OptionalIsFrom(h.osVersion, CLIENT_REPORT_MAX_HOST_VERSION_BYTES);
    OptionalIsFrom(h.kernelVersion, CLIENT_REPORT_MAX_HOST_VERSION_BYTES);
    RequiredIsFrom(h.arch, CLIENT_REPORT_MAX_HOST_ARCH_BYTES, "unknown");
    RequiredIsFrom(h.clientVersion, CLIENT_REPORT_MAX_CLIENT_VERSION_BYTES, "unknown");
  }

  lemma CpuIsFrom(c: Cpu)
    ensures CpuFrom(BoundCpu(c.(usagePercent := Percent(c.usagePercent))), c)
  {
    var cores := if c.perCorePercent == [] then [c.usagePercent] else c.perCorePercent;
    var b := BoundCpu(c.(usagePercent := Percent(c.usagePercent)));
    PercentIsNearest(c.usagePercent);
    PercentOfPercent(c.usagePercent);
    forall i | 0 <= i < |b.perCorePercent| ensures Nearest(b.perCorePercent[i], cores[i], 0.0, 100.0, 0.0) {
      PercentIsNearest(cores[i]);
    }
  }

  lemma CapabilityIsFrom(c: Capability)
    ensures CapabilityFrom(NormCapability(c), c)
  {
    RequiredIsFrom(c.name, CLIENT_REPORT_MAX_CAPABILITY_NAME_BYTES, "unknown.capability");
    RequiredIsFrom(c.source, CLIENT_REPORT_MAX_CAPABILITY_SOURCE_BYTES, "unknown");
    NonemptyIsFrom(c.message, CLIENT_REPORT_MAX_CAPABILITY_MESSAGE_BYTES);
  }

  lemma NetworkIsFrom(n: Network)
    ensures NetworkFrom(NormNetwork(n), n)
  {
    RequiredIsFrom(n.name, CLIENT_REPORT_MAX_NETWORK_NAME_BYTES, "unnamed-network");
  }

  lemma VolumeIsFrom(d: Volume)
    ensures VolumeFrom(NormVolume(d), d)
  {
    TextIsFrom(d.name, CLIENT_REPORT_MAX_DISK_NAME_BYTES);
    RequiredIsFrom(d.mountPoint, CLIENT_REPORT_MAX_MOUNT_POINT_BYTES, "unknown");
    TextIsFrom(d.fileSystem, CLIENT_REPORT_MAX_FILE_SYSTEM_BYTES);
  }

  lemma TemperatureIsFrom(t: Temperature)
    ensures TemperatureFrom(NormTemperature(t), t)
  {
    TextIsFrom(t.id, CLIENT_REPORT_MAX_TEMPERATURE_ID_BYTES);
    TextIsFrom(t.caption, CLIENT_REPORT_MAX_TEMPERATURE_LABEL_BYTES);
    TextIsFrom(t.source, CLIENT_REPORT_MAX_TEMPERATURE_SOURCE_BYTES);
  }

  lemma GpuIsFrom(g: Gpu)
    ensures GpuFrom(NormGpu(g), g)
  {
    TextIsFrom(g.id, CLIENT_REPORT_MAX_GPU_ID_BYTES);
    TextIsFrom(g.vendor, CLIENT_REPORT_MAX_GPU_VENDOR_BYTES);
    TextIsFrom(g.name, CLIENT_REPORT_MAX_GPU_NAME_BYTES);
    TextIsFrom(g.source, CLIENT_REPORT_MAX_GPU_SOURCE_BYTES);
  }
}
