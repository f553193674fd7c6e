/** What every bounded report promises to the server, and why enumeration order does not matter. */
module ReportWire {
  import opened Wrappers
  import opened Sorting
  import opened ReportText
  import opened ReportModel
  import opened ReportNormal
  import opened ReportHardware
  import opened ReportPriority
  import opened ReportContract
  import opened ReportFit
  import opened ReportFixedPoint

  // ----- Enumeration order -----

  /** The same report with its five lists enumerated in another order. */
  predicate Reordered(s: Report, r: Report) {
    && s == r.(capabilities := s.capabilities, networks := s.networks, disks := s.disks,
               temperatures := s.temperatures, gpus := s.gpus)
    && multiset(s.capabilities) == multiset(r.capabilities)
    && multiset(s.networks) == multiset(r.networks)
    && multiset(s.disks) == multiset(r.disks)
    && multiset(s.temperatures) == multiset(r.temperatures)
    && multiset(s.gpus) == multiset(r.gpus)
  }

  lemma SameLength<T>(xs: seq<T>, ys: seq<T>)
    requires multiset(xs) == multiset(ys)
    ensures |xs| == |ys|
  {
    assert |multiset(xs)| == |xs| && |multiset(ys)| == |ys|;
  }

  lemma FixedTogether<T>(xs: seq<T>, ys: seq<T>, f: T -> T)
    requires multiset(xs) == multiset(ys)
    ensures Map(xs, f) == xs <==> Map(ys, f) == ys
  {
    if Map(xs, f) == xs { FixedBoth(xs, ys, f); }
    if Map(ys, f) == ys { FixedBoth(ys, xs, f); }
  }

  lemma FixedBoth<T>(xs: seq<T>, ys: seq<T>, f: T -> T)
    requires multiset(xs) == multiset(ys) && Map(xs, f) == xs
    ensures Map(ys, f) == ys
  {
    forall i | 0 <= i < |ys| ensures f(ys[i]) == ys[i] {
      assert ys[i] in multiset(xs);
      var j :| 0 <= j < |xs| && xs[j] == ys[i];
      assert Map(xs, f)[j] == f(xs[j]);
    }
  }

  lemma SamePriorities<T(!new)>(xs: seq<T>, ys: seq<T>, key: T -> seq<Symbol>, metrics: seq<Metric<T>>)
    requires Injective(key) && multiset(xs) == multiset(ys)
    ensures |xs| == |ys|
    ensures Prioritized(xs, ByKey(key), metrics) == Prioritized(ys, ByKey(key), metrics)
    ensures AnchorCount(xs, ByKey(key), metrics) == AnchorCount(ys, ByKey(key), metrics)
  {
    SameLength(xs, ys);
    ByKeyOrders(key);
    PrioritizedPermutation(xs, ys, ByKey(key), metrics);
  }

  lemma SameCapabilities(codec: Codec, xs: seq<Capability>, ys: seq<Capability>)
    requires Injective(codec.capability) && multiset(xs) == multiset(ys)
    ensures |xs| == |ys| && Deduplicated(codec, xs) == Deduplicated(codec, ys)
  {
    SameLength(xs, ys);
    CapabilityOrderTotal(codec);
    SortPermutation(xs, ys, CapabilityOrder(codec));
  }

  lemma MarkedTogether(xs: seq<Capability>, ys: seq<Capability>)
    requires multiset(xs) == multiset(ys) && Marked(xs)
    ensures Marked(ys)
  {
    var i :| 0 <= i < |xs| && IsMarker(xs[i]);
    assert xs[i] in multiset(ys);
    var j :| 0 <= j < |ys| && ys[j] == xs[i];
  }

  lemma NormalizedReordered(s: Report, r: Report, now: Time, clampFuture: bool)
    requires Reordered(s, r)
    ensures Reordered(Normalized(s, now, clampFuture), Normalized(r, now, clampFuture))
  {
    MapPermutation(s.capabilities, r.capabilities, NormCapability);
    MapPermutation(s.networks, r.networks, NormNetwork);
    MapPermutation(s.disks, r.disks, NormVolume);
    MapPermutation(s.temperatures, r.temperatures, NormTemperature);
    MapPermutation(s.gpus, r.gpus, NormGpu);
  }

  lemma NormalisedTogether(s: Report, r: Report, now: Time, clampFuture: bool)
    requires Reordered(s, r)
    ensures Normalized(s, now, clampFuture) == s <==> Normalized(r, now, clampFuture) == r
  {
    FixedExactly(s, now, clampFuture);
    FixedExactly(r, now, clampFuture);
    FixedTogether(s.capabilities, r.capabilities, NormCapability);
    FixedTogether(s.networks, r.networks, NormNetwork);
    FixedTogether(s.disks, r.disks, NormVolume);
    FixedTogether(s.temperatures, r.temperatures, NormTemperature);
    FixedTogether(s.gpus, r.gpus, NormGpu);
  }

  lemma StructuredTogether(codec: Codec, s: Report, r: Report)
    requires Lawful(codec) && Reordered(s, r)
    ensures Structured(codec, s) == Structured(codec, r)
    ensures StructureChanged(codec, s) == StructureChanged(codec, r)
  {
    SameCapabilities(codec, s.capabilities, r.capabilities);
    SamePriorities(s.networks, r.networks, codec.network, NetworkMetrics());
    SamePriorities(s.disks, r.disks, codec.disk, DiskMetrics());
    SamePriorities(s.temperatures, r.temperatures, codec.temperature, TemperatureMetrics());
    SamePriorities(s.gpus, r.gpus, codec.gpu, GpuMetrics());
  }

  lemma CanonicalTogether(codec: Codec, s: Report, r: Report, now: Time, clampFuture: bool)
    requires Lawful(codec) && Reordered(s, r)
    ensures Canonical(codec, s, now, clampFuture) == Canonical(codec, r, now, clampFuture)
    ensures Marked(s.capabilities) == Marked(r.capabilities)
  {
    NormalizedReordered(s, r, now, clampFuture);
    NormalisedTogether(s, r, now, clampFuture);
    StructuredTogether(codec, Normalized(s, now, clampFuture), Normalized(r, now, clampFuture));
    if Marked(s.capabilities) { MarkedTogether(s.capabilities, r.capabilities); }
    if Marked(r.capabilities) { MarkedTogether(r.capabilities, s.capabilities); }
  }

  lemma UnfittedTogether(codec: Codec, s: Report, r: Report, now: Time, clampFuture: bool)
    requires Canonical(codec, s, now, clampFuture) == Canonical(codec, r, now, clampFuture)
    requires Marked(s.capabilities) == Marked(r.capabilities)
    ensures Changed(codec, s, now, clampFuture) == Changed(codec, r, now, clampFuture)
    ensures Unfitted(codec, s, now, clampFuture) == Unfitted(codec, r, now, clampFuture)
  {
  }

  lemma FitTogether(codec: Codec, u: Report, s: Report, r: Report)
    requires Lawful(codec) && Reordered(s, r)
    ensures FitCanonical(codec, u, s) == FitCanonical(codec, u, r)
  {
    SamePriorities(s.networks, r.networks, codec.network, NetworkMetrics());
    SamePriorities(s.disks, r.disks, codec.disk, DiskMetrics());
    SamePriorities(s.temperatures, r.temperatures, codec.temperature, TemperatureMetrics());
    SamePriorities(s.gpus, r.gpus, codec.gpu, GpuMetrics());
  }

  /** Enumerating networks, disks, temperatures, GPUs or capabilities in another order gives the identical report. */
  lemma OrderIsIrrelevant(codec: Codec, s: Report, r: Report, now: Time, clampFuture: bool)
    requires Lawful(codec) && Reordered(s, r)
    ensures Bounded(codec, s, now, clampFuture) == Bounded(codec, r, now, clampFuture)
  {
    NormalizedReordered(s, r, now, clampFuture);
    CanonicalTogether(codec, s, r, now, clampFuture);
    UnfittedTogether(codec, s, r, now, clampFuture);
    FitTogether(codec, Unfitted(codec, r, now, clampFuture), Normalized(s, now, clampFuture), Normalized(r, now, clampFuture));
  }

  // ----- The wire contract -----

  predicate CleanOption(s: Option<string>, maximum: nat) {
    s.Some? ==> CleanText(s.value, maximum)
  }

  predicate CleanNonempty(s: Option<string>, maximum: nat) {
    s.Some? ==> CleanText(s.value, maximum) && !IsBlank(s.value)
  }

  predicate WithinRange(v: Option<F64>, low: real, high: real) {
    v.Some? ==> InRange(v.value, low, high)
  }

  predicate Rate(v: F64) {
    v.Fin? && v.value >= 0.0
  }

  predicate WireCapability(c: Capability) {
    && CleanText(c.name, CLIENT_REPORT_MAX_CAPABILITY_NAME_BYTES) && !IsBlank(c.name)
    && CleanText(c.source, CLIENT_REPORT_MAX_CAPABILITY_SOURCE_BYTES) && !IsBlank(c.source)
    && CleanNonempty(c.message, CLIENT_REPORT_MAX_CAPABILITY_MESSAGE_BYTES)
  }

  predicate WireNetwork(n: Network) {
    && CleanText(n.name, CLIENT_REPORT_MAX_NETWORK_NAME_BYTES) && !IsBlank(n.name)
    && Rate(n.receivedBytesPerSecond) && Rate(n.transmittedBytesPerSecond)
  }

  predicate WireVolume(d: Volume) {
    && CleanText(d.name, CLIENT_REPORT_MAX_DISK_NAME_BYTES)
    && CleanText(d.mountPoint, CLIENT_REPORT_MAX_MOUNT_POINT_BYTES) && !IsBlank(d.mountPoint)
    && CleanText(d.fileSystem, CLIENT_REPORT_MAX_FILE_SYSTEM_BYTES)
    && d.availableBytes <= d.totalBytes
    && Rate(d.readBytesPerSecond) && Rate(d.writtenBytesPerSecond)
  }

  predicate WireTemperature(t: Temperature) {
    && CleanText(t.id, CLIENT_REPORT_MAX_TEMPERATURE_ID_BYTES)
    && CleanText(t.caption, CLIENT_REPORT_MAX_TEMPERATURE_LABEL_BYTES)
    && CleanText(t.source, CLIENT_REPORT_MAX_TEMPERATURE_SOURCE_BYTES)
    && WithinRange(t.celsius, -273.15, 1000.0) && WithinRange(t.maxCelsius, -273.15, 1000.0)
    && WithinRange(t.criticalCelsius, -273.15, 1000.0)
  }

  predicate WireGpu(g: Gpu) {
    && CleanText(g.id, CLIENT_REPORT_MAX_GPU_ID_BYTES) && CleanText(g.vendor, CLIENT_REPORT_MAX_GPU_VENDOR_BYTES)
    && CleanText(g.name, CLIENT_REPORT_MAX_GPU_NAME_BYTES) && CleanText(g.source, CLIENT_REPORT_MAX_GPU_SOURCE_BYTES)
    && (g.memoryUsedBytes.Some? && g.memoryTotalBytes.Some? ==> g.memoryUsedBytes.value <= g.memoryTotalBytes.value)
    && WithinRange(g.utilizationPercent, 0.0, 100.0) && WithinRange(g.temperatureCelsius, -273.15, 1000.0)
    && WithinRange(g.powerWatts, 0.0, F64_MAX) && WithinRange(g.coreClockMhz, 0.0, F64_MAX)
    && WithinRange(g.memoryClockMhz, 0.0, F64_MAX) && WithinRange(g.pcieRxBytesPerSecond, 0.0, F64_MAX)
    && WithinRange(g.pcieTxBytesPerSecond, 0.0, F64_MAX)
  }

  predicate WireScalars(b: Report) {
    && InRange(b.intervalSeconds, CLIENT_REPORT_INTERVAL_SECONDS.0, CLIENT_REPORT_INTERVAL_SECONDS.1)
    && CleanText(b.host.os, CLIENT_REPORT_MAX_HOST_OS_BYTES) && !IsBlank(b.host.os)
    && CleanOption(b.host.osVersion, CLIENT_REPORT_MAX_HOST_VERSION_BYTES)
    && CleanOption(b.host.kernelVersion, CLIENT_REPORT_MAX_HOST_VERSION_BYTES)
    && CleanText(b.host.arch, CLIENT_REPORT_MAX_HOST_ARCH_BYTES) && !IsBlank(b.host.arch)
    && CleanText(b.host.clientVersion, CLIENT_REPORT_MAX_CLIENT_VERSION_BYTES) && !IsBlank(b.host.clientVersion)
    && b.memory.usedBytes <= b.memory.totalBytes && b.memory.availableBytes <= b.memory.totalBytes
    && b.memory.swapUsedBytes <= b.memory.swapTotalBytes
  }

  predicate WireCpu(c: Cpu) {
    && InRange(c.usagePercent, 0.0, 100.0)
    && 0 < |c.perCorePercent| == c.logicalCount <= CLIENT_REPORT_MAX_CPU_CORES
    && (c.physicalCount.Some? ==> 0 < c.physicalCount.value <= c.logicalCount)
    && (forall v | v in c.perCorePercent :: InRange(v, 0.0, 100.0))
  }

  predicate WireLists(b: Report) {
    && |b.capabilities| <= CLIENT_REPORT_MAX_CAPABILITIES && |b.networks| <= CLIENT_REPORT_MAX_NETWORKS
    && |b.disks| <= CLIENT_REPORT_MAX_DISKS && |b.temperatures| <= CLIENT_REPORT_MAX_TEMPERATURES
    && |b.gpus| <= CLIENT_REPORT_MAX_GPUS
    && (forall c | c in b.capabilities :: WireCapability(c))
    && (forall n | n in b.networks :: WireNetwork(n))
    && (forall d | d in b.disks :: WireVolume(d))
    && (forall t | t in b.temperatures :: WireTemperature(t))
    && (forall g | g in b.gpus :: WireGpu(g))
  }

  predicate VisibleText(s: string) {
    CleanText(s, MAX_HARDWARE_TEXT) && !IsBlank(s)
  }

  predicate WireModule(m: MemoryModule) {
    && VisibleText(m.id) && VisibleText(m.source)
    && WireDetails(m.details)
    && m.capacityBytes != Some(0)
    && WithinRange(m.speedMtS, F64_MIN_POSITIVE, 10000000.0)
    && WithinRange(m.configuredSpeedMtS, F64_MIN_POSITIVE, 10000000.0)
  }

  predicate WireDevice(d: Device) {
    && VisibleText(d.id) && VisibleText(d.name) && VisibleText(d.source)
    && WireDetails(d.details)
    && WithinRange(d.speedMbps, F64_MIN_POSITIVE, 1000000000.0)
  }

  predicate WireNetworkHardware(n: NetworkHardware) {
    && VisibleText(n.name) && CleanNonempty(n.macAddress, MAX_HARDWARE_TEXT)
    && CleanNonempty(n.operationalState, MAX_HARDWARE_TEXT) && WithinRange(n.linkSpeedMbps, 0.0, F64_MAX)
    && |n.ipAddresses| <= MAX_IP_ADDRESSES && (forall a | a in n.ipAddresses :: IsCidr(a))
  }

  predicate WireAdapter(n: Adapter) {
    && VisibleText(n.id) && VisibleText(n.name) && VisibleText(n.source)
    && CleanNonempty(n.interfaceName, MAX_HARDWARE_TEXT) && CleanNonempty(n.macAddress, MAX_HARDWARE_TEXT)
    && WithinRange(n.linkSpeedMbps, 0.0, F64_MAX)
  }

  predicate WireSensor(s: Sensor) {
    VisibleText(s.id) && VisibleText(s.caption) && VisibleText(s.source) && SensorAllowed(s)
  }

  predicate WireDiskHealth(d: DiskHealth, t: Time) {
    && d.collectedAt <= t
    && VisibleText(d.device) && VisibleText(d.source)
    && CleanNonempty(d.model, MAX_HARDWARE_TEXT) && CleanNonempty(d.serialNumber, MAX_HARDWARE_TEXT)
    && CleanNonempty(d.protocol, MAX_HARDWARE_TEXT)
    && WithinRange(d.temperatureCelsius, -273.15, 1000.0) && WithinRange(d.percentageUsed, 0.0, 255.0)
    && WithinRange(d.availableSparePercent, 0.0, 100.0)
  }

  predicate WireCpuHardware(c: CpuHardware) {
    && CleanNonempty(c.model, MAX_HARDWARE_TEXT) && CleanNonempty(c.vendor, MAX_HARDWARE_TEXT)
    && WithinRange(c.frequencyMhz, 0.0, F64_MAX) && WithinRange(c.maxFrequencyMhz, 0.0, F64_MAX)
    && |c.perCoreFrequencyMhz| <= CLIENT_REPORT_MAX_CPU_CORES
    && (forall v | v in c.perCoreFrequencyMhz :: WithinRange(v, 0.0, F64_MAX))
    && (c.loadAverage.Some? ==> forall v | v in c.loadAverage.value :: Rate(v))
  }

  predicate WireModules(ms: seq<MemoryModule>) {
    |ms| <= MAX_MEMORY_MODULES && UniqueKeys(ms, ModuleKey) && forall m | m in ms :: WireModule(m)
  }

  predicate WireDevices(ds: seq<Device>) {
    |ds| <= MAX_HARDWARE_DEVICES && UniqueKeys(ds, DeviceKey) && forall d | d in ds :: WireDevice(d)
  }

  predicate WireNetworksHardware(ns: seq<NetworkHardware>) {
    |ns| <= MAX_HARDWARE_NETWORKS && forall n | n in ns :: WireNetworkHardware(n)
  }

  predicate WireAdapters(ns: seq<Adapter>) {
    |ns| <= MAX_HARDWARE_NETWORKS && UniqueKeys(ns, AdapterKey) && forall n | n in ns :: WireAdapter(n)
  }

  predicate WireSensors(ss: seq<Sensor>) {
    |ss| <= MAX_HARDWARE_SENSORS && UniqueKeys(ss, SensorKey) && forall s | s in ss :: WireSensor(s)
  }

  predicate WireHealth(ds: seq<DiskHealth>, t: Time) {
    |ds| <= MAX_HARDWARE_DISKS && forall d | d in ds :: WireDiskHealth(d, t)
  }

  /** Within the limits, unique where deduplicated, and never later than the report. */
  predicate WireHardware(h: Hardware, t: Time) {
    && h.collectedAt <= t && (h.inventoryCollectedAt.Some? ==> h.inventoryCollectedAt.value <= t)
    && WireCpuHardware(h.cpu)
    && WireModules(h.memoryModules) && WireDevices(h.devices)
    && WireNetworksHardware(h.networks) && WireAdapters(h.physicalNetworks)
    && WireSensors(h.sensors) && WireHealth(h.diskHealth, t)
  }

  lemma CapabilityOnWire(c: Capability)
    ensures NormCapability(c) == c <==> WireCapability(c)
  {
    RequiredTextIsStable(c.name, CLIENT_REPORT_MAX_CAPABILITY_NAME_BYTES, "unknown.capability");
    RequiredTextIsStable(c.source, CLIENT_REPORT_MAX_CAPABILITY_SOURCE_BYTES, "unknown");
    OptionalNonemptyIsStable(c.message, CLIENT_REPORT_MAX_CAPABILITY_MESSAGE_BYTES);
  }

  lemma NetworkOnWire(n: Network)
    ensures NormNetwork(n) == n <==> WireNetwork(n)
  {
    RequiredTextIsStable(n.name, CLIENT_REPORT_MAX_NETWORK_NAME_BYTES, "unnamed-network");
  }

  lemma VolumeOnWire(d: Volume)
    ensures NormVolume(d) == d <==> WireVolume(d)
  {
    DescriptiveTextIsStable(d.name, CLIENT_REPORT_MAX_DISK_NAME_BYTES);
    RequiredTextIsStable(d.mountPoint, CLIENT_REPORT_MAX_MOUNT_POINT_BYTES, "unknown");
    DescriptiveTextIsStable(d.fileSystem, CLIENT_REPORT_MAX_FILE_SYSTEM_BYTES);
  }

  lemma TemperatureOnWire(t: Temperature)
    ensures NormTemperature(t) == t <==> WireTemperature(t)
  {
    DescriptiveTextIsStable(t.id, CLIENT_REPORT_MAX_TEMPERATURE_ID_BYTES);
    DescriptiveTextIsStable(t.caption, CLIENT_REPORT_MAX_TEMPERATURE_LABEL_BYTES);
    DescriptiveTextIsStable(t.source, CLIENT_REPORT_MAX_TEMPERATURE_SOURCE_BYTES);
  }

  lemma GpuOnWire(g: Gpu)
    ensures NormGpu(g) == g <==> WireGpu(g)
  {
    DescriptiveTextIsStable(g.id, CLIENT_REPORT_MAX_GPU_ID_BYTES);
    DescriptiveTextIsStable(g.vendor, CLIENT_REPORT_MAX_GPU_VENDOR_BYTES);
    DescriptiveTextIsStable(g.name, CLIENT_REPORT_MAX_GPU_NAME_BYTES);
    DescriptiveTextIsStable(g.source, CLIENT_REPORT_MAX_GPU_SOURCE_BYTES);
  }

  lemma ScalarsOnWire(b: Report)
    ensures WireScalars(b) <==>
              NormInterval(b.intervalSeconds) == b.intervalSeconds && NormHost(b.host) == b.host && NormMemory(b.memory) == b.memory
  {
    RequiredTextIsStable(b.host.os, CLIENT_REPORT_MAX_HOST_OS_BYTES, "unknown");
    OptionalTextIsStable(b.host.osVersion, CLIENT_REPORT_MAX_HOST_VERSION_BYTES);
    OptionalTextIsStable(b.host.kernelVersion, CLIENT_REPORT_MAX_HOST_VERSION_BYTES);
    RequiredTextIsStable(b.host.arch, CLIENT_REPORT_MAX_HOST_ARCH_BYTES, "unknown");
    RequiredTextIsStable(b.host.clientVersion, CLIENT_REPORT_MAX_CLIENT_VERSION_BYTES, "unknown");
  }

  predicate WireDetails(details: seq<Option<string>>) {
    forall i | 0 <= i < |details| :: CleanNonempty(details[i], MAX_HARDWARE_TEXT)
  }

  lemma DetailsOnWire(details: seq<Option<string>>)
    ensures OptionalDetails(details) == details <==> WireDetails(details)
  {
    forall i | 0 <= i < |details|
      ensures OptionalDetails(details)[i] == details[i] <==> CleanNonempty(details[i], MAX_HARDWARE_TEXT)
    {
      OptionalNonemptyIsStable(details[i], MAX_HARDWARE_TEXT);
    }
  }

  lemma ModuleOnWire(m: MemoryModule)
    ensures NormModule(m) == m <==> WireModule(m)
  {
    RequiredTextIsStable(m.id, MAX_HARDWARE_TEXT, "unknown-memory");
    RequiredTextIsStable(m.source, MAX_HARDWARE_TEXT, "unknown");
    DetailsOnWire(m.details);
  }

  lemma DeviceOnWire(d: Device)
    ensures NormDevice(d) == d <==> WireDevice(d)
  {
    RequiredTextIsStable(d.id, MAX_HARDWARE_TEXT, "unknown-device");
    RequiredTextIsStable(d.name, MAX_HARDWARE_TEXT, "unknown-device");
    RequiredTextIsStable(d.source, MAX_HARDWARE_TEXT, "unknown");
    DetailsOnWire(d.details);
  }

  lemma NetworkHardwareOnWire(n: NetworkHardware)
    ensures NormNetworkHardware(n) == n <==> WireNetworkHardware(n)
  {
    RequiredTextIsStable(n.name, MAX_HARDWARE_TEXT, "unknown");
    OptionalNonemptyIsStable(n.macAddress, MAX_HARDWARE_TEXT);
    OptionalNonemptyIsStable(n.operationalState, MAX_HARDWARE_TEXT);
    FilterKeeps(Truncate(n.ipAddresses, MAX_IP_ADDRESSES), IsCidr);
  }

  lemma AdapterOnWire(n: Adapter)
    ensures NormAdapter(n) == n <==> WireAdapter(n)
  {
    RequiredTextIsStable(n.id, MAX_HARDWARE_TEXT, "unknown-adapter");
    RequiredTextIsStable(n.name, MAX_HARDWARE_TEXT, "unknown-adapter");
    RequiredTextIsStable(n.source, MAX_HARDWARE_TEXT, "unknown");
    OptionalNonemptyIsStable(n.interfaceName, MAX_HARDWARE_TEXT);
    OptionalNonemptyIsStable(n.macAddress, MAX_HARDWARE_TEXT);
  }

  lemma SensorOnWire(s: Sensor)
    ensures NormSensor(s) == s && SensorAllowed(s) <==> WireSensor(s)
  {
    RequiredTextIsStable(s.id, MAX_HARDWARE_TEXT, "unknown");
    RequiredTextIsStable(s.caption, MAX_HARDWARE_TEXT, "unknown");
    RequiredTextIsStable(s.source, MAX_HARDWARE_TEXT, "unknown");
  }

  lemma DiskHealthOnWire(d: DiskHealth, t: Time)
    ensures NormDiskHealth(d, t) == d <==> WireDiskHealth(d, t)
  {
    RequiredTextIsStable(d.device, MAX_HARDWARE_TEXT, "unknown");
    RequiredTextIsStable(d.source, MAX_HARDWARE_TEXT, "unknown");
    OptionalNonemptyIsStable(d.model, MAX_HARDWARE_TEXT);
    OptionalNonemptyIsStable(d.serialNumber, MAX_HARDWARE_TEXT);
    OptionalNonemptyIsStable(d.protocol, MAX_HARDWARE_TEXT);
  }

  lemma CpuHardwareOnWire(c: CpuHardware)
    ensures WireCpuHardware(NormCpuHardware(c))
  {
    OptionalNonemptyIsStable(c.model, MAX_HARDWARE_TEXT);
    OptionalNonemptyIsStable(c.vendor, MAX_HARDWARE_TEXT);
  }

  lemma InventoryOnWire(modules: seq<MemoryModule>, devices: seq<Device>)
    ensures WireModules(BoundModules(modules).0) && WireDevices(BoundDevices(devices).0)
  {
    ModulesStable(modules);
    DevicesStable(devices);
    forall m | m in BoundModules(modules).0 ensures WireModule(m) { ModuleOnWire(m); }
    forall d | d in BoundDevices(devices).0 ensures WireDevice(d) { DeviceOnWire(d); }
  }

  lemma NetworksOnWire(networks: seq<NetworkHardware>, adapters: seq<Adapter>)
    ensures WireNetworksHardware(BoundNetworksHardware(networks).0) && WireAdapters(BoundAdapters(adapters).0)
  {
    NetworksHardwareStable(networks);
    AdaptersStable(adapters);
    forall n | n in BoundNetworksHardware(networks).0 ensures WireNetworkHardware(n) { NetworkHardwareOnWire(n); }
    forall n | n in BoundAdapters(adapters).0 ensures WireAdapter(n) { AdapterOnWire(n); }
  }

  lemma ReadingsOnWire(sensors: seq<Sensor>, health: seq<DiskHealth>, t: Time)
    ensures WireSensors(BoundSensors(sensors).0) && WireHealth(BoundDiskHealth(health, t).0, t)
  {
    SensorsStable(sensors);
    DiskHealthListStable(health, t);
    forall s | s in BoundSensors(sensors).0 ensures WireSensor(s) { SensorOnWire(s); }
    forall d | d in BoundDiskHealth(health, t).0 ensures WireDiskHealth(d, t) { DiskHealthOnWire(d, t); }
  }

  lemma HardwareOnWire(h: Hardware, t: Time)
    ensures WireHardware(BoundHardware(h, t).0, t)
  {
    InventoryOnWire(h.memoryModules, h.devices);
    NetworksOnWire(h.networks, h.physicalNetworks);
    ReadingsOnWire(h.sensors, h.diskHealth, t);
    CpuHardwareOnWire(h.cpu);
  }

  lemma CpuOnWire(c: Cpu)
    requires Percent(c.usagePercent) == c.usagePercent
    ensures WireCpu(BoundCpu(c))
  {
  }

  lemma ListsOnWire(b: Report)
    requires Normal(b)
    requires |b.capabilities| <= CLIENT_REPORT_MAX_CAPABILITIES && |b.networks| <= CLIENT_REPORT_MAX_NETWORKS
    requires |b.disks| <= CLIENT_REPORT_MAX_DISKS && |b.temperatures| <= CLIENT_REPORT_MAX_TEMPERATURES
    requires |b.gpus| <= CLIENT_REPORT_MAX_GPUS
    ensures WireLists(b)
  {
    forall c | c in b.capabilities ensures WireCapability(c) { CapabilityOnWire(c); }
    forall n | n in b.networks ensures WireNetwork(n) { NetworkOnWire(n); }
    forall d | d in b.disks ensures WireVolume(d) { VolumeOnWire(d); }
    forall t | t in b.temperatures ensures WireTemperature(t) { TemperatureOnWire(t); }
    forall g | g in b.gpus ensures WireGpu(g) { GpuOnWire(g); }
  }

  lemma CutScalarsOnWire(codec: Codec, r: Report, now: Time, clampFuture: bool, b: Report)
    requires Lawful(codec) && Cut(b, Unfitted(codec, r, now, clampFuture))
    ensures WireScalars(b) && WireCpu(b.cpu)
    ensures clampFuture ==> b.collectedAt <= now + FUTURE_TOLERANCE
    ensures b.reportId == r.reportId && b.host.id == r.host.id && b.schemaVersion == r.schemaVersion
  {
    CutNormal(codec, r, now, clampFuture, b);
    CutParts(codec, r, now, clampFuture, b);
    ScalarsOnWire(b);
    CpuOnWire(Normalized(r, now, clampFuture).cpu);
  }

  lemma CutListsOnWire(codec: Codec, r: Report, now: Time, clampFuture: bool, b: Report)
    requires Lawful(codec) && Cut(b, Unfitted(codec, r, now, clampFuture))
    ensures WireLists(b)
  {
    CutNormal(codec, r, now, clampFuture, b);
    CutLists(codec, r, now, clampFuture, b);
    CutCapabilities(codec, r, now, clampFuture, b);
    ListsOnWire(b);
  }

  lemma CutHardwareOnWire(codec: Codec, r: Report, now: Time, clampFuture: bool, b: Report)
    requires Cut(b, Unfitted(codec, r, now, clampFuture)) && b.hardware.Some?
    ensures WireHardware(b.hardware.value, b.collectedAt)
  {
    var n := Normalized(r, now, clampFuture);
    CutParts(codec, r, now, clampFuture, b);
    HardwareOnWire(n.hardware.value, n.collectedAt);
  }

  lemma BoundedFits(codec: Codec, r: Report, now: Time, clampFuture: bool)
    ensures var b := Bounded(codec, r, now, clampFuture).0;
            Fits(codec, b) || (b.hardware == None && Exhausted(b, 1))
  {
    var u := Unfitted(codec, r, now, clampFuture);
    var m := MinimaOf(codec, u, Normalized(r, now, clampFuture));
    FitResult(codec, u, m.network, m.disk, m.temperature, m.gpu);
  }

  /**
   Every report, however wild, is bounded to one that meets the whole wire contract, and is either within
   the byte limit or has nothing optional left to give up.
   */
  lemma WireContract(codec: Codec, r: Report, now: Time, clampFuture: bool)
    requires Lawful(codec)
    ensures var b := Bounded(codec, r, now, clampFuture).0;
            && WireScalars(b) && WireCpu(b.cpu) && WireLists(b)
            && (b.hardware.Some? ==> WireHardware(b.hardware.value, b.collectedAt))
            && (clampFuture ==> b.collectedAt <= now + FUTURE_TOLERANCE)
            && (Fits(codec, b) || (b.hardware == None && Exhausted(b, 1)))
            && b.reportId == r.reportId && b.host.id == r.host.id && b.schemaVersion == r.schemaVersion
  {
    var b := Bounded(codec, r, now, clampFuture).0;
    BoundedCut(codec, r, now, clampFuture);
    CutScalarsOnWire(codec, r, now, clampFuture, b);
    CutListsOnWire(codec, r, now, clampFuture, b);
    if b.hardware.Some? {
      CutHardwareOnWire(codec, r, now, clampFuture, b);
    }
    BoundedFits(codec, r, now, clampFuture);
  }
}
