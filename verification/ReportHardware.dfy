/**
 Bounding of the hardware inventory. Every list rule returns the bounded list and whether
 anything was changed or discarded; applying a rule to its own result changes nothing.
 */
module ReportHardware {
  import opened Wrappers
  import opened Sorting
  import opened ReportText
  import opened ReportModel

  function OptionalDetails(details: seq<Option<string>>): seq<Option<string>> {
    Map(details, (d: Option<string>) => OptionalNonempty(d, MAX_HARDWARE_TEXT))
  }

  function NormModule(m: MemoryModule): MemoryModule {
    MemoryModule(RequiredText(m.id, MAX_HARDWARE_TEXT, "unknown-memory"),
                 RequiredText(m.source, MAX_HARDWARE_TEXT, "unknown"),
                 OptionalDetails(m.details),
                 if m.capacityBytes == Some(0) then None else m.capacityBytes,
                 Ranged(m.speedMtS, F64_MIN_POSITIVE, 10000000.0),
                 Ranged(m.configuredSpeedMtS, F64_MIN_POSITIVE, 10000000.0))
  }

  function NormDevice(d: Device): Device {
    Device(RequiredText(d.id, MAX_HARDWARE_TEXT, "unknown-device"), d.kind,
           RequiredText(d.name, MAX_HARDWARE_TEXT, "unknown-device"),
           RequiredText(d.source, MAX_HARDWARE_TEXT, "unknown"),
           OptionalDetails(d.details),
           Ranged(d.speedMbps, F64_MIN_POSITIVE, 1000000000.0))
  }

  function NormNetworkHardware(n: NetworkHardware): NetworkHardware {
    NetworkHardware(RequiredText(n.name, MAX_HARDWARE_TEXT, "unknown"),
                    OptionalNonempty(n.macAddress, MAX_HARDWARE_TEXT),
                    OptionalNonempty(n.operationalState, MAX_HARDWARE_TEXT),
                    Ranged(n.linkSpeedMbps, 0.0, F64_MAX),
                    Filter(Truncate(n.ipAddresses, MAX_IP_ADDRESSES), IsCidr))
  }

  function NormAdapter(n: Adapter): Adapter {
    Adapter(RequiredText(n.id, MAX_HARDWARE_TEXT, "unknown-adapter"),
            RequiredText(n.name, MAX_HARDWARE_TEXT, "unknown-adapter"),
            OptionalNonempty(n.interfaceName, MAX_HARDWARE_TEXT),
            OptionalNonempty(n.macAddress, MAX_HARDWARE_TEXT),
            Ranged(n.linkSpeedMbps, 0.0, F64_MAX),
            RequiredText(n.source, MAX_HARDWARE_TEXT, "unknown"))
  }

  predicate SensorAllowed(s: Sensor) {
    s.value.Fin? && (s.value.value >= 0.0 || s.kind.VoltageVolts? || s.kind.CurrentAmps?)
  }

  function NormSensor(s: Sensor): Sensor {
    s.(id := RequiredText(s.id, MAX_HARDWARE_TEXT, "unknown"),
       caption := RequiredText(s.caption, MAX_HARDWARE_TEXT, "unknown"),
       source := RequiredText(s.source, MAX_HARDWARE_TEXT, "unknown"))
  }

  function Earlier(time: Time, limit: Time): Time {
    if time > limit then limit else time
  }

  function NormDiskHealth(d: DiskHealth, reportTime: Time): DiskHealth {
    DiskHealth(Earlier(d.collectedAt, reportTime),
               RequiredText(d.device, MAX_HARDWARE_TEXT, "unknown"),
               RequiredText(d.source, MAX_HARDWARE_TEXT, "unknown"),
               OptionalNonempty(d.model, MAX_HARDWARE_TEXT),
               OptionalNonempty(d.serialNumber, MAX_HARDWARE_TEXT),
               OptionalNonempty(d.protocol, MAX_HARDWARE_TEXT),
               Ranged(d.temperatureCelsius, -273.15, 1000.0),
               Ranged(d.percentageUsed, 0.0, 255.0),
               Ranged(d.availableSparePercent, 0.0, 100.0))
  }

  function NormCpuHardware(c: CpuHardware): CpuHardware {
    CpuHardware(OptionalNonempty(c.model, MAX_HARDWARE_TEXT),
                OptionalNonempty(c.vendor, MAX_HARDWARE_TEXT),
                Ranged(c.frequencyMhz, 0.0, F64_MAX),
                Ranged(c.maxFrequencyMhz, 0.0, F64_MAX),
                Map(Truncate(c.perCoreFrequencyMhz, CLIENT_REPORT_MAX_CPU_CORES),
                    (v: Option<F64>) => Ranged(v, 0.0, F64_MAX)),
                if c.loadAverage.Some? && exists i | 0 <= i < |c.loadAverage.value| ::
                     !(c.loadAverage.value[i].Fin? && c.loadAverage.value[i].value >= 0.0)
                then None else c.loadAverage)
  }

  function Codes(s: string): seq<Symbol> {
    seq(|s|, i requires 0 <= i < |s| => s[i] as int as real)
  }

  lemma CodesInjective(a: string, b: string)
    ensures Codes(a) == Codes(b) ==> a == b
  {
    if Codes(a) == Codes(b) {
      assert |Codes(a)| == |Codes(b)|;
      forall i | 0 <= i < |a| ensures a[i] == b[i] {
        assert Codes(a)[i] == Codes(b)[i];
      }
    }
  }

  function ModuleKey(m: MemoryModule): (string, string) { (m.source, m.id) }
  function DeviceKey(d: Device): (string, string, nat) { (d.source, d.id, d.kind) }
  function AdapterKey(n: Adapter): (string, string) { (n.source, n.id) }
  function SensorKey(s: Sensor): (string, string) { (s.source, s.id) }

  /** By source, then by id. */
  function ModuleOrder(): (MemoryModule, MemoryModule) -> bool {
    Then(ByKey((m: MemoryModule) => Codes(m.source)), ByKey((m: MemoryModule) => Codes(m.id)))
  }

  function DeviceOrder(): (Device, Device) -> bool {
    Then(ByKey((d: Device) => Codes(d.source)), ByKey((d: Device) => Codes(d.id)))
  }

  function BoundModules(ms: seq<MemoryModule>): (seq<MemoryModule>, bool) {
    var n := Map(ms, NormModule);
    var sorted := Sort(n, ModuleOrder());
    var d := Dedup(sorted, ModuleKey);
    (Truncate(d, MAX_MEMORY_MODULES), n != ms || |d| != |sorted| || |d| > MAX_MEMORY_MODULES)
  }

  function BoundDevices(ds: seq<Device>): (seq<Device>, bool) {
    var n := Map(ds, NormDevice);
    var sorted := Sort(n, DeviceOrder());
    var d := Retain(sorted, DeviceKey);
    (Truncate(d, MAX_HARDWARE_DEVICES), n != ds || |d| != |sorted| || |d| > MAX_HARDWARE_DEVICES)
  }

  function BoundNetworksHardware(ns: seq<NetworkHardware>): (seq<NetworkHardware>, bool) {
    var t := Truncate(ns, MAX_HARDWARE_NETWORKS);
    var n := Map(t, NormNetworkHardware);
    (n, |t| != |ns| || n != t)
  }

  function BoundAdapters(ns: seq<Adapter>): (seq<Adapter>, bool) {
    var n := Map(ns, NormAdapter);
    var d := Retain(n, AdapterKey);
    (Truncate(d, MAX_HARDWARE_NETWORKS), n != ns || |d| != |n| || |d| > MAX_HARDWARE_NETWORKS)
  }

  function BoundSensors(ss: seq<Sensor>): (seq<Sensor>, bool) {
    var t := Truncate(ss, MAX_HARDWARE_SENSORS);
    var allowed := Filter(t, SensorAllowed);
    var n := Map(allowed, NormSensor);
    var d := Retain(n, SensorKey);
    (d, |t| != |ss| || |allowed| != |t| || n != allowed || |d| != |n|)
  }

  function BoundDiskHealth(ds: seq<DiskHealth>, reportTime: Time): (seq<DiskHealth>, bool) {
    var t := Truncate(ds, MAX_HARDWARE_DISKS);
    var n := Map(t, (d: DiskHealth) => NormDiskHealth(d, reportTime));
    (n, |t| != |ds| || n != t)
  }

  function BoundHardware(h: Hardware, reportTime: Time): (Hardware, bool) {
    var inventory := if h.inventoryCollectedAt.Some? then Some(Earlier(h.inventoryCollectedAt.value, reportTime))
                     else None;
    var (modules, modulesChanged) := BoundModules(h.memoryModules);
    var (devices, devicesChanged) := BoundDevices(h.devices);
    var (networks, networksChanged) := BoundNetworksHardware(h.networks);
    var (adapters, adaptersChanged) := BoundAdapters(h.physicalNetworks);
    var (sensors, sensorsChanged) := BoundSensors(h.sensors);
    var (health, healthChanged) := BoundDiskHealth(h.diskHealth, reportTime);
    var collected := Earlier(h.collectedAt, reportTime);
    var cpu := NormCpuHardware(h.cpu);
    (Hardware(collected, inventory, cpu, networks, adapters, sensors, health, modules, devices),
     inventory != h.inventoryCollectedAt || modulesChanged || devicesChanged || collected != h.collectedAt
     || cpu != h.cpu || networksChanged || adaptersChanged || sensorsChanged || healthChanged)
  }

  // ----- Element rules are stable -----

  lemma DetailsStable(details: seq<Option<string>>)
    ensures OptionalDetails(OptionalDetails(details)) == OptionalDetails(details)
  {
    forall i | 0 <= i < |details|
      ensures OptionalDetails(OptionalDetails(details))[i] == OptionalDetails(details)[i]
    {
      OptionalNonemptyIsStable(details[i], MAX_HARDWARE_TEXT);
    }
  }

  lemma ModuleStable(m: MemoryModule)
    ensures NormModule(NormModule(m)) == NormModule(m)
  {
    RequiredTextIsStable(m.id, MAX_HARDWARE_TEXT, "unknown-memory");
    RequiredTextIsStable(m.source, MAX_HARDWARE_TEXT, "unknown");
    DetailsStable(m.details);
  }

  lemma DeviceStable(d: Device)
    ensures NormDevice(NormDevice(d)) == NormDevice(d)
  {
    RequiredTextIsStable(d.id, MAX_HARDWARE_TEXT, "unknown-device");
    RequiredTextIsStable(d.name, MAX_HARDWARE_TEXT, "unknown-device");
    RequiredTextIsStable(d.source, MAX_HARDWARE_TEXT, "unknown");
    DetailsStable(d.details);
  }

  lemma NetworkHardwareStable(n: NetworkHardware)
    ensures NormNetworkHardware(NormNetworkHardware(n)) == NormNetworkHardware(n)
  {
    RequiredTextIsStable(n.name, MAX_HARDWARE_TEXT, "unknown");
    OptionalNonemptyIsStable(n.macAddress, MAX_HARDWARE_TEXT);
    OptionalNonemptyIsStable(n.operationalState, MAX_HARDWARE_TEXT);
    FilterKeeps(Truncate(n.ipAddresses, MAX_IP_ADDRESSES), IsCidr);
    FilterKeeps(NormNetworkHardware(n).ipAddresses, IsCidr);
  }

  lemma AdapterStable(n: Adapter)
    ensures NormAdapter(NormAdapter(n)) == NormAdapter(n)
  {
    RequiredTextIsStable(n.id, MAX_HARDWARE_TEXT, "unknown-adapter");
    RequiredTextIsStable(n.name, MAX_HARDWARE_TEXT, "unknown-adapter");
    RequiredTextIsStable(n.source, MAX_HARDWARE_TEXT, "unknown");
    OptionalNonemptyIsStable(n.interfaceName, MAX_HARDWARE_TEXT);
    OptionalNonemptyIsStable(n.macAddress, MAX_HARDWARE_TEXT);
  }

  lemma SensorStable(s: Sensor)
    ensures NormSensor(NormSensor(s)) == NormSensor(s)
    ensures SensorAllowed(NormSensor(s)) == SensorAllowed(s)
  {
    RequiredTextIsStable(s.id, MAX_HARDWARE_TEXT, "unknown");
    RequiredTextIsStable(s.caption, MAX_HARDWARE_TEXT, "unknown");
    RequiredTextIsStable(s.source, MAX_HARDWARE_TEXT, "unknown");
  }

  lemma DiskHealthStable(d: DiskHealth, t: Time)
    ensures NormDiskHealth(NormDiskHealth(d, t), t) == NormDiskHealth(d, t)
  {
    RequiredTextIsStable(d.device, MAX_HARDWARE_TEXT, "unknown");
    RequiredTextIsStable(d.source, MAX_HARDWARE_TEXT, "unknown");
    OptionalNonemptyIsStable(d.model, MAX_HARDWARE_TEXT);
    OptionalNonemptyIsStable(d.serialNumber, MAX_HARDWARE_TEXT);
    OptionalNonemptyIsStable(d.protocol, MAX_HARDWARE_TEXT);
  }

  lemma CpuHardwareStable(c: CpuHardware)
    ensures NormCpuHardware(NormCpuHardware(c)) == NormCpuHardware(c)
  {
    OptionalNonemptyIsStable(c.model, MAX_HARDWARE_TEXT);
    OptionalNonemptyIsStable(c.vendor, MAX_HARDWARE_TEXT);
    assert NormCpuHardware(NormCpuHardware(c)).perCoreFrequencyMhz == NormCpuHardware(c).perCoreFrequencyMhz;
  }

  // ----- List rules are stable -----

  lemma PrefixUnique<T, K>(xs: seq<T>, key: T -> K, maximum: nat)
    requires UniqueKeys(xs, key)
    ensures UniqueKeys(Truncate(xs, maximum), key)
  {
  }

  lemma PrefixSorted<T>(xs: seq<T>, le: (T, T) -> bool, maximum: nat)
    requires Sorted(xs, le)
    ensures Sorted(Truncate(xs, maximum), le)
  {
  }

  lemma ModuleOrderGroups(xs: seq<MemoryModule>)
    requires Sorted(xs, ModuleOrder())
    ensures Grouped(xs, ModuleKey)
  {
    forall i, j, k | 0 <= i < j < k < |xs| && ModuleKey(xs[i]) == ModuleKey(xs[k])
      ensures ModuleKey(xs[j]) == ModuleKey(xs[k])
    {
      assert ModuleOrder()(xs[i], xs[j]) && ModuleOrder()(xs[j], xs[k]);
      LexTotal(Codes(xs[i].source), Codes(xs[j].source));
      CodesInjective(xs[i].source, xs[j].source);
      LexTotal(Codes(xs[i].id), Codes(xs[j].id));
      CodesInjective(xs[i].id, xs[j].id);
    }
  }

  lemma ModuleOrderTotal()
    ensures TotalPreorder(ModuleOrder())
  {
    var first := (m: MemoryModule) => Codes(m.source);
    var second := (m: MemoryModule) => Codes(m.id);
    ByKeyOrders(first);
    ByKeyOrders(second);
    ThenOrders(ByKey(first), ByKey(second));
  }

  lemma DeviceOrderTotal()
    ensures TotalPreorder(DeviceOrder())
  {
    var first := (d: Device) => Codes(d.source);
    var second := (d: Device) => Codes(d.id);
    ByKeyOrders(first);
    ByKeyOrders(second);
    ThenOrders(ByKey(first), ByKey(second));
  }

  lemma InSorted<T(!new)>(xs: seq<T>, le: (T, T) -> bool, x: T)
    requires TotalPreorder(le)
    requires x in Sort(xs, le)
    ensures x in xs
  {
    SortSorts(xs, le);
    assert x in multiset(Sort(xs, le));
    assert x in multiset(xs);
  }

  lemma ModulesStable(ms: seq<MemoryModule>)
    ensures BoundModules(BoundModules(ms).0) == (BoundModules(ms).0, false)
    ensures UniqueKeys(BoundModules(ms).0, ModuleKey) && |BoundModules(ms).0| <= MAX_MEMORY_MODULES
    ensures forall m | m in BoundModules(ms).0 :: NormModule(m) == m
  {
    var n := Map(ms, NormModule);
    var sorted := Sort(n, ModuleOrder());
    var d := Dedup(sorted, ModuleKey);
    var r := Truncate(d, MAX_MEMORY_MODULES);
    ModuleOrderTotal();
    SortSorts(n, ModuleOrder());
    ModuleOrderGroups(sorted);
    DedupIsRetain(sorted, ModuleKey);
    RetainUnique(sorted, ModuleKey);
    DedupSorted(sorted, ModuleKey, ModuleOrder());
    PrefixUnique(d, ModuleKey, MAX_MEMORY_MODULES);
    PrefixSorted(d, ModuleOrder(), MAX_MEMORY_MODULES);
    forall m | m in r ensures NormModule(m) == m {
      assert m in sorted;
      InSorted(n, ModuleOrder(), m);
      MapImages(ms, NormModule, m);
      var o :| o in ms && NormModule(o) == m;
      ModuleStable(o);
    }
    MapFixed(r, NormModule);
    SortOfSorted(r, ModuleOrder());
    DedupOfUnique(r, ModuleKey);
  }

  lemma DevicesStable(ds: seq<Device>)
    ensures BoundDevices(BoundDevices(ds).0) == (BoundDevices(ds).0, false)
    ensures UniqueKeys(BoundDevices(ds).0, DeviceKey) && |BoundDevices(ds).0| <= MAX_HARDWARE_DEVICES
    ensures forall d | d in BoundDevices(ds).0 :: NormDevice(d) == d
  {
    var n := Map(ds, NormDevice);
    var sorted := Sort(n, DeviceOrder());
    var d := Retain(sorted, DeviceKey);
    var r := Truncate(d, MAX_HARDWARE_DEVICES);
    DeviceOrderTotal();
    SortSorts(n, DeviceOrder());
    RetainUnique(sorted, DeviceKey);
    RetainSorted(sorted, DeviceKey, DeviceOrder());
    PrefixUnique(d, DeviceKey, MAX_HARDWARE_DEVICES);
    PrefixSorted(d, DeviceOrder(), MAX_HARDWARE_DEVICES);
    forall x | x in r ensures NormDevice(x) == x {
      assert x in sorted;
      InSorted(n, DeviceOrder(), x);
      MapImages(ds, NormDevice, x);
      var o :| o in ds && NormDevice(o) == x;
      DeviceStable(o);
    }
    MapFixed(r, NormDevice);
    SortOfSorted(r, DeviceOrder());
    RetainUnique(r, DeviceKey);
  }

  lemma {:induction false} RetainSorted<T(!new), K>(xs: seq<T>, key: T -> K, le: (T, T) -> bool)
    requires Sorted(xs, le)
    ensures Sorted(Retain(xs, key), le)
  {
    if xs != [] {
      var rest, last := xs[..|xs| - 1], xs[|xs| - 1];
      RetainSorted(rest, key, le);
      RetainUnique(rest, key);
      forall x | x in Retain(rest, key) ensures le(x, last) {
        var i :| 0 <= i < |rest| && rest[i] == x;
        assert le(xs[i], xs[|xs| - 1]);
      }
    }
  }

  lemma NetworksHardwareStable(ns: seq<NetworkHardware>)
    ensures BoundNetworksHardware(BoundNetworksHardware(ns).0) == (BoundNetworksHardware(ns).0, false)
  {
    var r := BoundNetworksHardware(ns).0;
    forall x | x in r ensures NormNetworkHardware(x) == x {
      MapImages(Truncate(ns, MAX_HARDWARE_NETWORKS), NormNetworkHardware, x);
      var o :| o in ns && NormNetworkHardware(o) == x;
      NetworkHardwareStable(o);
    }
    MapFixed(r, NormNetworkHardware);
  }

  lemma AdaptersStable(ns: seq<Adapter>)
    ensures BoundAdapters(BoundAdapters(ns).0) == (BoundAdapters(ns).0, false)
    ensures UniqueKeys(BoundAdapters(ns).0, AdapterKey) && |BoundAdapters(ns).0| <= MAX_HARDWARE_NETWORKS
    ensures forall x | x in BoundAdapters(ns).0 :: NormAdapter(x) == x
  {
    var n := Map(ns, NormAdapter);
    var d := Retain(n, AdapterKey);
    var r := Truncate(d, MAX_HARDWARE_NETWORKS);
    RetainUnique(n, AdapterKey);
    PrefixUnique(d, AdapterKey, MAX_HARDWARE_NETWORKS);
    forall x | x in r ensures NormAdapter(x) == x {
      assert x in n;
      MapImages(ns, NormAdapter, x);
      var o :| o in ns && NormAdapter(o) == x;
      AdapterStable(o);
    }
    MapFixed(r, NormAdapter);
    RetainUnique(r, AdapterKey);
  }

  /** What is left of the sensors: of the allowed ones, normalised, the first of each key. */
  lemma SensorsKept(t: seq<Sensor>)
    ensures var r := Retain(Map(Filter(t, SensorAllowed), NormSensor), SensorKey);
            && UniqueKeys(r, SensorKey) && |r| <= |t|
            && (forall x | x in r :: NormSensor(x) == x && SensorAllowed(x))
  {
    var allowed := Filter(t, SensorAllowed);
    var n := Map(allowed, NormSensor);
    var r := Retain(n, SensorKey);
    FilterKeeps(t, SensorAllowed);
    RetainUnique(n, SensorKey);
    forall x | x in r ensures NormSensor(x) == x && SensorAllowed(x) {
      assert x in n;
      MapImages(allowed, NormSensor, x);
      var o :| o in allowed && NormSensor(o) == x;
      SensorStable(o);
    }
  }

  lemma SensorsFixed(r: seq<Sensor>)
    requires UniqueKeys(r, SensorKey) && |r| <= MAX_HARDWARE_SENSORS
    requires forall x | x in r :: NormSensor(x) == x && SensorAllowed(x)
    ensures BoundSensors(r) == (r, false)
  {
    FilterKeeps(r, SensorAllowed);
    MapFixed(r, NormSensor);
    RetainUnique(r, SensorKey);
  }

  lemma SensorsStable(ss: seq<Sensor>)
    ensures BoundSensors(BoundSensors(ss).0) == (BoundSensors(ss).0, false)
    ensures UniqueKeys(BoundSensors(ss).0, SensorKey) && |BoundSensors(ss).0| <= MAX_HARDWARE_SENSORS
    ensures forall x | x in BoundSensors(ss).0 :: NormSensor(x) == x && SensorAllowed(x)
  {
    SensorsKept(Truncate(ss, MAX_HARDWARE_SENSORS));
    SensorsFixed(BoundSensors(ss).0);
  }

  lemma DiskHealthListStable(ds: seq<DiskHealth>, t: Time)
    ensures BoundDiskHealth(BoundDiskHealth(ds, t).0, t) == (BoundDiskHealth(ds, t).0, false)
    ensures forall x | x in BoundDiskHealth(ds, t).0 :: NormDiskHealth(x, t) == x
  {
    var r := BoundDiskHealth(ds, t).0;
    var norm := (d: DiskHealth) => NormDiskHealth(d, t);
    forall x | x in r ensures NormDiskHealth(x, t) == x {
      MapImages(Truncate(ds, MAX_HARDWARE_DISKS), norm, x);
      var o :| o in ds && norm(o) == x;
      DiskHealthStable(o, t);
    }
    MapFixed(r, norm);
  }

  /** Each part is bounded to itself. */
  predicate PartsFixed(h: Hardware, t: Time) {
    && BoundModules(h.memoryModules) == (h.memoryModules, false)
    && BoundDevices(h.devices) == (h.devices, false)
    && BoundNetworksHardware(h.networks) == (h.networks, false)
    && BoundAdapters(h.physicalNetworks) == (h.physicalNetworks, false)
    && BoundSensors(h.sensors) == (h.sensors, false)
    && BoundDiskHealth(h.diskHealth, t) == (h.diskHealth, false)
    && NormCpuHardware(h.cpu) == h.cpu
    && Earlier(h.collectedAt, t) == h.collectedAt
    && (h.inventoryCollectedAt.Some? ==> Earlier(h.inventoryCollectedAt.value, t) == h.inventoryCollectedAt.value)
  }

  lemma FixedParts(h: Hardware, t: Time)
    requires PartsFixed(h, t)
    ensures BoundHardware(h, t) == (h, false)
  {
  }

  lemma PartsStable(h: Hardware, t: Time)
    ensures PartsFixed(BoundHardware(h, t).0, t)
  {
    ModulesStable(h.memoryModules);
    DevicesStable(h.devices);
    NetworksHardwareStable(h.networks);
    AdaptersStable(h.physicalNetworks);
    SensorsStable(h.sensors);
    DiskHealthListStable(h.diskHealth, t);
    CpuHardwareStable(h.cpu);
  }

  /** Bounding an already bounded inventory against the same report time changes nothing. */
  lemma HardwareStable(h: Hardware, t: Time)
    ensures BoundHardware(BoundHardware(h, t).0, t) == (BoundHardware(h, t).0, false)
  {
    PartsStable(h, t);
    FixedParts(BoundHardware(h, t).0, t);
  }
}
