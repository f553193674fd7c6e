/** What becomes of the hardware inventory, said of the raw inventory alone. */
module InventoryValues {
  import opened Wrappers
  import opened Sorting
  import opened ReportText
  import opened ReportModel
  import opened ReportHardware
  import opened ReportValues

  // ----- Elements -----

  ghost predicate DetailsFrom(b: seq<Option<string>>, details: seq<Option<string>>) {
    |b| == |details| && forall i | 0 <= i < |b| :: NonemptyFrom(b[i], details[i], MAX_HARDWARE_TEXT)
  }

  ghost predicate ModuleFrom(b: MemoryModule, m: MemoryModule) {
    && RequiredFrom(b.id, m.id, MAX_HARDWARE_TEXT, "unknown-memory")
    && RequiredFrom(b.source, m.source, MAX_HARDWARE_TEXT, "unknown")
    && DetailsFrom(b.details, m.details)
    && b.capacityBytes == (if m.capacityBytes == Some(0) then None else m.capacityBytes)
    && Kept(b.speedMtS, m.speedMtS, F64_MIN_POSITIVE, 10_000_000.0)
    && Kept(b.configuredSpeedMtS, m.configuredSpeedMtS, F64_MIN_POSITIVE, 10_000_000.0)
  }

  ghost predicate DeviceFrom(b: Device, d: Device) {
    && RequiredFrom(b.id, d.id, MAX_HARDWARE_TEXT, "unknown-device")
    && b.kind == d.kind
    && RequiredFrom(b.name, d.name, MAX_HARDWARE_TEXT, "unknown-device")
    && RequiredFrom(b.source, d.source, MAX_HARDWARE_TEXT, "unknown")
    && DetailsFrom(b.details, d.details)
    && Kept(b.speedMbps, d.speedMbps, F64_MIN_POSITIVE, 1_000_000_000.0)
  }

  ghost predicate NetworkHardwareFrom(b: NetworkHardware, n: NetworkHardware) {
    && RequiredFrom(b.name, n.name, MAX_HARDWARE_TEXT, "unknown")
    && NonemptyFrom(b.macAddress, n.macAddress, MAX_HARDWARE_TEXT)
    && NonemptyFrom(b.operationalState, n.operationalState, MAX_HARDWARE_TEXT)
    && Kept(b.linkSpeedMbps, n.linkSpeedMbps, 0.0, F64_MAX)
    && var first := if |n.ipAddresses| > 64 then n.ipAddresses[..64] else n.ipAddresses;
       exists at :: Picks(b.ipAddresses, first, IsCidr, at)
  }

  ghost predicate AdapterFrom(b: Adapter, n: Adapter) {
    && RequiredFrom(b.id, n.id, MAX_HARDWARE_TEXT, "unknown-adapter")
    && RequiredFrom(b.name, n.name, MAX_HARDWARE_TEXT, "unknown-adapter")
    && NonemptyFrom(b.interfaceName, n.interfaceName, MAX_HARDWARE_TEXT)
    && NonemptyFrom(b.macAddress, n.macAddress, MAX_HARDWARE_TEXT)
    && Kept(b.linkSpeedMbps, n.linkSpeedMbps, 0.0, F64_MAX)
    && RequiredFrom(b.source, n.source, MAX_HARDWARE_TEXT, "unknown")
  }

  /** Only voltages and currents may be negative. */
  predicate Plausible(s: Sensor) {
    match s.value
    case Fin(value) => value >= 0.0 || s.kind == VoltageVolts || s.kind == CurrentAmps
    case _ => false
  }

  ghost predicate SensorFrom(b: Sensor, s: Sensor) {
    && RequiredFrom(b.id, s.id, MAX_HARDWARE_TEXT, "unknown")
    && RequiredFrom(b.caption, s.caption, MAX_HARDWARE_TEXT, "unknown")
    && b.kind == s.kind && b.value == s.value
    && RequiredFrom(b.source, s.source, MAX_HARDWARE_TEXT, "unknown")
  }

  predicate NotAfter(b: Time, time: Time, limit: Time) {
    b == if time > limit then limit else time
  }

  ghost predicate DiskHealthTextsFrom(b: DiskHealth, d: DiskHealth) {
    && RequiredFrom(b.device, d.device, MAX_HARDWARE_TEXT, "unknown")
    && RequiredFrom(b.source, d.source, MAX_HARDWARE_TEXT, "unknown")
    && NonemptyFrom(b.model, d.model, MAX_HARDWARE_TEXT)
    && NonemptyFrom(b.serialNumber, d.serialNumber, MAX_HARDWARE_TEXT)
    && NonemptyFrom(b.protocol, d.protocol, MAX_HARDWARE_TEXT)
  }

  ghost predicate DiskHealthFrom(b: DiskHealth, d: DiskHealth, reportTime: Time) {
    && NotAfter(b.collectedAt, d.collectedAt, reportTime)
    && DiskHealthTextsFrom(b, d)
    && Kept(b.temperatureCelsius, d.temperatureCelsius, -273.15, 1000.0)
    && Kept(b.percentageUsed, d.percentageUsed, 0.0, 255.0)
    && Kept(b.availableSparePercent, d.availableSparePercent, 0.0, 100.0)
  }

  predicate AllRates(values: seq<F64>) {
    forall i | 0 <= i < |values| :: values[i].Fin? && values[i].value >= 0.0
  }

  predicate FrequenciesFrom(b: CpuHardware, c: CpuHardware) {
    && Kept(b.frequencyMhz, c.frequencyMhz, 0.0, F64_MAX)
    && Kept(b.maxFrequencyMhz, c.maxFrequencyMhz, 0.0, F64_MAX)
    && Capped(|b.perCoreFrequencyMhz|, |c.perCoreFrequencyMhz|, CLIENT_REPORT_MAX_CPU_CORES)
    && (forall i | 0 <= i < |b.perCoreFrequencyMhz| ::
          Kept(b.perCoreFrequencyMhz[i], c.perCoreFrequencyMhz[i], 0.0, F64_MAX))
  }

  ghost predicate CpuHardwareFrom(b: CpuHardware, c: CpuHardware) {
    && NonemptyFrom(b.model, c.model, MAX_HARDWARE_TEXT)
    && NonemptyFrom(b.vendor, c.vendor, MAX_HARDWARE_TEXT)
    && FrequenciesFrom(b, c)
    && b.loadAverage == if c.loadAverage.Some? && AllRates(c.loadAverage.value) then c.loadAverage else None
  }

  lemma DetailsAreFrom(details: seq<Option<string>>)
    ensures DetailsFrom(OptionalDetails(details), details)
  {
    forall i | 0 <= i < |details| ensures NonemptyFrom(OptionalDetails(details)[i], details[i], MAX_HARDWARE_TEXT) {
      NonemptyIsFrom(details[i], MAX_HARDWARE_TEXT);
    }
  }

  lemma ModuleIsFrom(m: MemoryModule)
    ensures ModuleFrom(NormModule(m), m)
  {
    RequiredIsFrom(m.id, MAX_HARDWARE_TEXT, "unknown-memory");
    RequiredIsFrom(m.source, MAX_HARDWARE_TEXT, "unknown");
    DetailsAreFrom(m.details);
  }

  lemma DeviceIsFrom(d: Device)
    ensures DeviceFrom(NormDevice(d), d)
  {
    RequiredIsFrom(d.id, MAX_HARDWARE_TEXT, "unknown-device");
    RequiredIsFrom(d.name, MAX_HARDWARE_TEXT, "unknown-device");
    RequiredIsFrom(d.source, MAX_HARDWARE_TEXT, "unknown");
    DetailsAreFrom(d.details);
  }

  lemma NetworkHardwareIsFrom(n: NetworkHardware)
    ensures NetworkHardwareFrom(NormNetworkHardware(n), n)
  {
    RequiredIsFrom(n.name, MAX_HARDWARE_TEXT, "unknown");
    NonemptyIsFrom(n.macAddress, MAX_HARDWARE_TEXT);
    NonemptyIsFrom(n.operationalState, MAX_HARDWARE_TEXT);
    var at := FilterPicks(Truncate(n.ipAddresses, MAX_IP_ADDRESSES), IsCidr);
  }

  lemma AdapterIsFrom(n: Adapter)
    ensures AdapterFrom(NormAdapter(n), n)
  {
    RequiredIsFrom(n.id, MAX_HARDWARE_TEXT, "unknown-adapter");
    RequiredIsFrom(n.name, MAX_HARDWARE_TEXT, "unknown-adapter");
    NonemptyIsFrom(n.interfaceName, MAX_HARDWARE_TEXT);
    NonemptyIsFrom(n.macAddress, MAX_HARDWARE_TEXT);
    RequiredIsFrom(n.source, MAX_HARDWARE_TEXT, "unknown");
  }

  lemma SensorIsFrom(s: Sensor)
    ensures SensorFrom(NormSensor(s), s)
  {
    RequiredIsFrom(s.id, MAX_HARDWARE_TEXT, "unknown");
    RequiredIsFrom(s.caption, MAX_HARDWARE_TEXT, "unknown");
    RequiredIsFrom(s.source, MAX_HARDWARE_TEXT, "unknown");
  }

  lemma DiskHealthTextsAreFrom(d: DiskHealth, reportTime: Time)
    ensures DiskHealthTextsFrom(NormDiskHealth(d, reportTime), d)
  {
    RequiredIsFrom(d.device, MAX_HARDWARE_TEXT, "unknown");
    RequiredIsFrom(d.source, MAX_HARDWARE_TEXT, "unknown");
    NonemptyIsFrom(d.model, MAX_HARDWARE_TEXT);
    NonemptyIsFrom(d.serialNumber, MAX_HARDWARE_TEXT);
    NonemptyIsFrom(d.protocol, MAX_HARDWARE_TEXT);
  }

  lemma DiskHealthIsFrom(d: DiskHealth, reportTime: Time)
    ensures DiskHealthFrom(NormDiskHealth(d, reportTime), d, reportTime)
  {
    DiskHealthTextsAreFrom(d, reportTime);
  }

  lemma FrequenciesAreFrom(c: CpuHardware)
    ensures FrequenciesFrom(NormCpuHardware(c), c)
  {
  }

  lemma CpuHardwareIsFrom(c: CpuHardware)
    ensures CpuHardwareFrom(NormCpuHardware(c), c)
  {
    FrequenciesAreFrom(c);
    NonemptyIsFrom(c.model, MAX_HARDWARE_TEXT);
    NonemptyIsFrom(c.vendor, MAX_HARDWARE_TEXT);
  }

  // ----- Lists -----

  ghost predicate ImagesOf<T(!new)>(images: seq<T>, raw: seq<T>, from: (T, T) -> bool) {
    |images| == |raw| && forall i | 0 <= i < |raw| :: from(images[i], raw[i])
  }

  /** It is the first with its key. */
  predicate FirstOfKey<T(==), K(==)>(x: T, xs: seq<T>, key: T -> K) {
    exists i | 0 <= i < |xs| :: xs[i] == x && forall j | 0 <= j < i :: key(xs[j]) != key(x)
  }

  /** The first of every key, no key twice, and as long as there is room none missing. */
  ghost predicate FirstOfEach<T(!new), K>(kept: seq<T>, xs: seq<T>, key: T -> K, room: bool) {
    && (forall x | x in kept :: FirstOfKey(x, xs, key))
    && (forall i, j | 0 <= i < j < |kept| :: key(kept[i]) != key(kept[j]))
    && (room ==> forall x | x in xs :: exists c | c in kept :: key(c) == key(x))
  }

  lemma RetainIsFirstOfEach<T(!new), K>(xs: seq<T>, key: T -> K, k: nat)
    requires k <= |Retain(xs, key)|
    ensures FirstOfEach(Retain(xs, key)[..k], xs, key, k == |Retain(xs, key)|)
  {
    var all := Retain(xs, key);
    RetainUnique(xs, key);
    forall x | x in all[..k] ensures FirstOfKey(x, xs, key) {
      assert x in all;
      RetainedIsFirst(xs, key, x);
    }
    if k == |all| {
      forall x | x in xs ensures exists c | c in all[..k] :: key(c) == key(x) {
        var i :| 0 <= i < |xs| && xs[i] == x;
        var j := RetainCovers(xs, key, i);
        assert all[..k][j] in all[..k];
      }
    }
  }

  lemma {:induction false} FirstAt<T>(xs: seq<T>, p: T -> bool, i: nat) returns (first: nat)
    requires i < |xs| && p(xs[i])
    ensures first <= i && p(xs[first]) && forall j | 0 <= j < first :: !p(xs[j])
  {
    if exists j | 0 <= j < i :: p(xs[j]) {
      var j :| 0 <= j < i && p(xs[j]);
      first := FirstAt(xs, p, j);
    } else {
      first := i;
    }
  }

  lemma RetainedIsFirst<T, K>(xs: seq<T>, key: T -> K, x: T)
    requires x in Retain(xs, key)
    ensures FirstOfKey(x, xs, key)
  {
    RetainUnique(xs, key);
    var i :| 0 <= i < |xs| && xs[i] == x;
    var first := FirstAt(xs, y => key(y) == key(x), i);
    RetainKeepsFirst(xs, key, x, first);
    var j :| 0 <= j <= first && xs[j] == x;
    assert j == first;
  }

  lemma {:induction false} FilterHead<T>(xs: seq<T>, keep: T -> bool, i: nat)
    requires i < |xs| && keep(xs[i]) && forall j | 0 <= j < i :: !keep(xs[j])
    ensures Filter(xs, keep) != [] && Filter(xs, keep)[0] == xs[i]
  {
    if i > 0 {
      FilterHead(xs[1..], keep, i - 1);
    }
  }

  /** Sorting stably by less than the key does not change which element is the first of its key. */
  lemma FirstBeforeSorting<T(!new), K>(xs: seq<T>, le: (T, T) -> bool, key: T -> K, x: T)
    requires TotalPreorder(le) && forall a, b | key(a) == key(b) :: le(a, b)
    requires FirstOfKey(x, Sort(xs, le), key)
    ensures FirstOfKey(x, xs, key)
  {
    var alike := (y: T) => key(y) == key(x);
    var sorted := Sort(xs, le);
    var i :| 0 <= i < |sorted| && sorted[i] == x && forall j | 0 <= j < i :: key(sorted[j]) != key(x);
    SortIsStable(xs, le, alike);
    FilterHead(sorted, alike, i);
    SortSorts(xs, le);
    assert x in multiset(sorted) && x in multiset(xs);
    var k :| 0 <= k < |xs| && xs[k] == x;
    var first := FirstAt(xs, alike, k);
    FilterHead(xs, alike, first);
  }

  lemma SortedFirstOfEach<T(!new), K>(xs: seq<T>, le: (T, T) -> bool, key: T -> K, kept: seq<T>, room: bool)
    requires TotalPreorder(le) && forall a, b | key(a) == key(b) :: le(a, b)
    requires FirstOfEach(kept, Sort(xs, le), key, room)
    ensures FirstOfEach(kept, xs, key, room)
  {
    forall x | x in kept ensures FirstOfKey(x, xs, key) {
      FirstBeforeSorting(xs, le, key, x);
    }
    if room {
      SortSorts(xs, le);
      forall x | x in xs ensures x in Sort(xs, le) {
        assert x in multiset(xs);
        assert x in multiset(Sort(xs, le));
      }
    }
  }

  predicate Places<T(==)>(kept: seq<T>, xs: seq<T>, at: seq<nat>) {
    && |at| == |kept| && (forall i, j | 0 <= i < j < |at| :: at[i] < at[j])
    && (forall i | 0 <= i < |at| :: at[i] < |xs| && kept[i] == xs[at[i]])
  }

  /** In the order of `xs`. */
  ghost predicate Subsequence<T>(kept: seq<T>, xs: seq<T>) {
    exists at: seq<nat> :: Places(kept, xs, at)
  }

  lemma PlacesOneMore<T>(kept: seq<T>, xs: seq<T>, at: seq<nat>, x: T)
    requires Places(kept, xs, at)
    ensures Places(kept, xs + [x], at) && Places(kept + [x], xs + [x], at + [|xs|])
  {
  }

  lemma {:induction false} RetainPlaces<T, K>(xs: seq<T>, key: T -> K) returns (at: seq<nat>)
    ensures Places(Retain(xs, key), xs, at)
  {
    if xs == [] {
      at := [];
    } else {
      var rest, last := xs[..|xs| - 1], xs[|xs| - 1];
      var head := Retain(rest, key);
      at := RetainPlaces(rest, key);
      PlacesOneMore(head, rest, at, last);
      assert xs == rest + [last];
      if !(exists i | 0 <= i < |head| :: key(head[i]) == key(last)) {
        at := at + [|rest|];
      }
    }
  }

  lemma RetainSubsequence<T, K>(xs: seq<T>, key: T -> K, k: nat)
    requires k <= |Retain(xs, key)|
    ensures Subsequence(Retain(xs, key)[..k], xs)
  {
    var at := RetainPlaces(xs, key);
    assert Places(Retain(xs, key)[..k], xs, at[..k]);
  }

  lemma SameFirsts<T(!new), K>(kept: seq<T>, xs: seq<T>, key: T -> K, same: T -> K, room: bool)
    requires FirstOfEach(kept, xs, key, room) && forall x :: key(x) == same(x)
    ensures FirstOfEach(kept, xs, same, room)
  {
    forall x | x in kept ensures FirstOfKey(x, xs, same) {
      assert FirstOfKey(x, xs, key);
    }
  }

  // ----- The inventory -----

  predicate SourceThenId(source: string, id: string, otherSource: string, otherId: string) {
    LexLe(Codes(source), Codes(otherSource)) && (source == otherSource ==> LexLe(Codes(id), Codes(otherId)))
  }

  /** Sorted by source and id, the first enumerated of each. */
  ghost predicate ModulesFrom(kept: seq<MemoryModule>, raw: seq<MemoryModule>) {
    && |kept| <= MAX_MEMORY_MODULES
    && (forall i, j | 0 <= i < j < |kept| :: SourceThenId(kept[i].source, kept[i].id, kept[j].source, kept[j].id))
    && exists images: seq<MemoryModule> ::
         && ImagesOf(images, raw, ModuleFrom)
         && FirstOfEach(kept, images, (m: MemoryModule) => (m.source, m.id), |kept| < MAX_MEMORY_MODULES)
  }

  /** Sorted by source and id, the first enumerated of each with its kind. */
  ghost predicate DevicesFrom(kept: seq<Device>, raw: seq<Device>) {
    && |kept| <= MAX_HARDWARE_DEVICES
    && (forall i, j | 0 <= i < j < |kept| :: SourceThenId(kept[i].source, kept[i].id, kept[j].source, kept[j].id))
    && exists images: seq<Device> ::
         && ImagesOf(images, raw, DeviceFrom)
         && FirstOfEach(kept, images, (d: Device) => (d.source, d.id, d.kind), |kept| < MAX_HARDWARE_DEVICES)
  }

  /** As enumerated, the first of each source and id. */
  ghost predicate AdaptersFrom(kept: seq<Adapter>, raw: seq<Adapter>) {
    && |kept| <= MAX_HARDWARE_NETWORKS
    && exists images: seq<Adapter> ::
         && ImagesOf(images, raw, AdapterFrom) && Subsequence(kept, images)
         && FirstOfEach(kept, images, (n: Adapter) => (n.source, n.id), |kept| < MAX_HARDWARE_NETWORKS)
  }

  /** As enumerated within the limit, the plausible ones, the first of each source and id. */
  ghost predicate SensorsFrom(kept: seq<Sensor>, raw: seq<Sensor>) {
    var first := if |raw| > MAX_HARDWARE_SENSORS then raw[..MAX_HARDWARE_SENSORS] else raw;
    exists plausible: seq<Sensor>, at, images: seq<Sensor> ::
      && Picks(plausible, first, Plausible, at) && ImagesOf(images, plausible, SensorFrom)
      && Subsequence(kept, images) && FirstOfEach(kept, images, (s: Sensor) => (s.source, s.id), true)
  }

  ghost predicate NetworksHardwareFrom(kept: seq<NetworkHardware>, raw: seq<NetworkHardware>) {
    && Capped(|kept|, |raw|, MAX_HARDWARE_NETWORKS)
    && forall i | 0 <= i < |kept| :: NetworkHardwareFrom(kept[i], raw[i])
  }

  ghost predicate HealthFrom(kept: seq<DiskHealth>, raw: seq<DiskHealth>, reportTime: Time) {
    && Capped(|kept|, |raw|, MAX_HARDWARE_DISKS)
    && forall i | 0 <= i < |kept| :: DiskHealthFrom(kept[i], raw[i], reportTime)
  }

  ghost predicate InventoryListsFrom(b: Hardware, h: Hardware, reportTime: Time) {
    && ModulesFrom(b.memoryModules, h.memoryModules) && DevicesFrom(b.devices, h.devices)
    && NetworksHardwareFrom(b.networks, h.networks) && AdaptersFrom(b.physicalNetworks, h.physicalNetworks)
    && SensorsFrom(b.sensors, h.sensors) && HealthFrom(b.diskHealth, h.diskHealth, reportTime)
  }

  ghost predicate InventoryFrom(b: Hardware, h: Hardware, reportTime: Time) {
    && NotAfter(b.collectedAt, h.collectedAt, reportTime)
    && (if h.inventoryCollectedAt.None? then b.inventoryCollectedAt.None?
        else b.inventoryCollectedAt.Some?
             && NotAfter(b.inventoryCollectedAt.value, h.inventoryCollectedAt.value, reportTime))
    && CpuHardwareFrom(b.cpu, h.cpu)
    && InventoryListsFrom(b, h, reportTime)
  }

  lemma ThenBySourceAndId(source: string, id: string, otherSource: string, otherId: string)
    ensures LexLe(Codes(source), Codes(source)) && LexLe(Codes(id), Codes(id))
    ensures LexLe(Codes(source), Codes(otherSource))
            && (!LexLe(Codes(otherSource), Codes(source)) || LexLe(Codes(id), Codes(otherId)))
            ==> SourceThenId(source, id, otherSource, otherId)
  {
    LexTotal(Codes(source), Codes(source));
    LexTotal(Codes(id), Codes(id));
  }

  /** Sorted, then the first of each key: in order, and the first enumerated of each key. */
  lemma SortedRetained<T(!new), K>(images: seq<T>, le: (T, T) -> bool, key: T -> K, same: T -> K, k: nat)
    requires TotalPreorder(le) && (forall a, b | key(a) == key(b) :: le(a, b)) && forall x :: key(x) == same(x)
    requires k <= |Retain(Sort(images, le), key)|
    ensures var all := Retain(Sort(images, le), key);
            Sorted(all[..k], le) && FirstOfEach(all[..k], images, same, k == |all|)
  {
    var sorted := Sort(images, le);
    var all := Retain(sorted, key);
    SortSorts(images, le);
    RetainSorted(sorted, key, le);
    RetainIsFirstOfEach(sorted, key, k);
    SortedFirstOfEach(images, le, key, all[..k], k == |all|);
    SameFirsts(all[..k], images, key, same, k == |all|);
  }

  lemma ModulesInOrder(a: MemoryModule, b: MemoryModule)
    ensures ModuleOrder()(a, b) ==> SourceThenId(a.source, a.id, b.source, b.id)
    ensures ModuleKey(a) == ModuleKey(b) ==> ModuleOrder()(a, b)
  {
    ThenBySourceAndId(a.source, a.id, b.source, b.id);
  }

  lemma DevicesInOrder(a: Device, b: Device)
    ensures DeviceOrder()(a, b) ==> SourceThenId(a.source, a.id, b.source, b.id)
    ensures DeviceKey(a) == DeviceKey(b) ==> DeviceOrder()(a, b)
  {
    ThenBySourceAndId(a.source, a.id, b.source, b.id);
  }

  lemma ModuleImages(raw: seq<MemoryModule>)
    ensures ImagesOf(Map(raw, NormModule), raw, ModuleFrom)
  {
    forall i | 0 <= i < |raw| ensures ModuleFrom(Map(raw, NormModule)[i], raw[i]) { ModuleIsFrom(raw[i]); }
  }

  lemma DeviceImages(raw: seq<Device>)
    ensures ImagesOf(Map(raw, NormDevice), raw, DeviceFrom)
  {
    forall i | 0 <= i < |raw| ensures DeviceFrom(Map(raw, NormDevice)[i], raw[i]) { DeviceIsFrom(raw[i]); }
  }

  lemma BoundModulesRetain(raw: seq<MemoryModule>)
    ensures var all := Retain(Sort(Map(raw, NormModule), ModuleOrder()), ModuleKey);
            BoundModules(raw).0 == all[..if |all| > MAX_MEMORY_MODULES then MAX_MEMORY_MODULES else |all|]
  {
    var images := Map(raw, NormModule);
    ModuleOrderTotal();
    SortSorts(images, ModuleOrder());
    ModuleOrderGroups(Sort(images, ModuleOrder()));
    DedupIsRetain(Sort(images, ModuleOrder()), ModuleKey);
  }

  lemma ModulesAreFrom(raw: seq<MemoryModule>)
    ensures ModulesFrom(BoundModules(raw).0, raw)
  {
    var all := Retain(Sort(Map(raw, NormModule), ModuleOrder()), ModuleKey);
    var k := if |all| > MAX_MEMORY_MODULES then MAX_MEMORY_MODULES else |all|;
    ModuleImages(raw);
    BoundModulesRetain(raw);
    ModuleOrderTotal();
    forall a, b ensures ModuleKey(a) == ModuleKey(b) ==> ModuleOrder()(a, b) { ModulesInOrder(a, b); }
    SortedRetained(Map(raw, NormModule), ModuleOrder(), ModuleKey, (m: MemoryModule) => (m.source, m.id), k);
    ModulesSorted(all[..k]);
  }

  lemma ModulesSorted(kept: seq<MemoryModule>)
    requires Sorted(kept, ModuleOrder())
    ensures forall i, j | 0 <= i < j < |kept| :: SourceThenId(kept[i].source, kept[i].id, kept[j].source, kept[j].id)
  {
    forall i, j | 0 <= i < j < |kept| ensures SourceThenId(kept[i].source, kept[i].id, kept[j].source, kept[j].id) {
      ModulesInOrder(kept[i], kept[j]);
    }
  }

  lemma BoundDevicesRetain(raw: seq<Device>)
    ensures var all := Retain(Sort(Map(raw, NormDevice), DeviceOrder()), DeviceKey);
            BoundDevices(raw).0 == all[..if |all| > MAX_HARDWARE_DEVICES then MAX_HARDWARE_DEVICES else |all|]
  {
    var all := Retain(Sort(Map(raw, NormDevice), DeviceOrder()), DeviceKey);
    assert all[..|all|] == all;
  }

  lemma DevicesAreFrom(raw: seq<Device>)
    ensures DevicesFrom(BoundDevices(raw).0, raw)
  {
    var all := Retain(Sort(Map(raw, NormDevice), DeviceOrder()), DeviceKey);
    var k := if |all| > MAX_HARDWARE_DEVICES then MAX_HARDWARE_DEVICES else |all|;
    DeviceImages(raw);
    BoundDevicesRetain(raw);
    DeviceOrderTotal();
    forall a, b ensures DeviceKey(a) == DeviceKey(b) ==> DeviceOrder()(a, b) { DevicesInOrder(a, b); }
    SortedRetained(Map(raw, NormDevice), DeviceOrder(), DeviceKey, (d: Device) => (d.source, d.id, d.kind), k);
    DevicesSorted(all[..k]);
  }

  lemma DevicesSorted(kept: seq<Device>)
    requires Sorted(kept, DeviceOrder())
    ensures forall i, j | 0 <= i < j < |kept| :: SourceThenId(kept[i].source, kept[i].id, kept[j].source, kept[j].id)
  {
    forall i, j | 0 <= i < j < |kept| ensures SourceThenId(kept[i].source, kept[i].id, kept[j].source, kept[j].id) {
      DevicesInOrder(kept[i], kept[j]);
    }
  }

  lemma AdaptersAreFrom(raw: seq<Adapter>)
    ensures AdaptersFrom(BoundAdapters(raw).0, raw)
  {
    var images := Map(raw, NormAdapter);
    var all, kept := Retain(images, AdapterKey), BoundAdapters(raw).0;
    forall i | 0 <= i < |raw| ensures AdapterFrom(images[i], raw[i]) { AdapterIsFrom(raw[i]); }
    assert kept == all[..|kept|];
    RetainIsFirstOfEach(images, AdapterKey, |kept|);
    RetainSubsequence(images, AdapterKey, |kept|);
    SameFirsts(kept, images, AdapterKey, (n: Adapter) => (n.source, n.id), |kept| == |all|);
  }

  lemma SensorsAreFrom(raw: seq<Sensor>)
    ensures SensorsFrom(BoundSensors(raw).0, raw)
  {
    var first := Truncate(raw, MAX_HARDWARE_SENSORS);
    var plausible := Filter(first, SensorAllowed);
    var at := FilterPicks(first, SensorAllowed);
    assert Picks(plausible, first, Plausible, at);
    var images := Map(plausible, NormSensor);
    forall i | 0 <= i < |plausible| ensures SensorFrom(images[i], plausible[i]) { SensorIsFrom(plausible[i]); }
    var kept := Retain(images, SensorKey);
    assert kept == kept[..|kept|];
    RetainIsFirstOfEach(images, SensorKey, |kept|);
    RetainSubsequence(images, SensorKey, |kept|);
    SameFirsts(kept, images, SensorKey, (s: Sensor) => (s.source, s.id), true);
    assert ImagesOf(images, plausible, SensorFrom);
  }

  lemma NetworksHardwareAreFrom(raw: seq<NetworkHardware>)
    ensures NetworksHardwareFrom(BoundNetworksHardware(raw).0, raw)
  {
    var kept := BoundNetworksHardware(raw).0;
    forall i | 0 <= i < |kept| ensures NetworkHardwareFrom(kept[i], raw[i]) { NetworkHardwareIsFrom(raw[i]); }
  }

  lemma HealthIsFrom(raw: seq<DiskHealth>, reportTime: Time)
    ensures HealthFrom(BoundDiskHealth(raw, reportTime).0, raw, reportTime)
  {
    var kept := BoundDiskHealth(raw, reportTime).0;
    forall i | 0 <= i < |kept| ensures DiskHealthFrom(kept[i], raw[i], reportTime) { DiskHealthIsFrom(raw[i], reportTime); }
  }

  lemma InventoryListsAreFrom(h: Hardware, reportTime: Time)
    ensures InventoryListsFrom(BoundHardware(h, reportTime).0, h, reportTime)
  {
    ModulesAreFrom(h.memoryModules);
    DevicesAreFrom(h.devices);
    NetworksHardwareAreFrom(h.networks);
    AdaptersAreFrom(h.physicalNetworks);
    SensorsAreFrom(h.sensors);
    HealthIsFrom(h.diskHealth, reportTime);
  }

  /** Every value of the bounded inventory, said of the raw one. */
  lemma InventoryIsFrom(h: Hardware, reportTime: Time)
    ensures InventoryFrom(BoundHardware(h, reportTime).0, h, reportTime)
  {
    CpuHardwareIsFrom(h.cpu);
    InventoryListsAreFrom(h, reportTime);
  }
}
