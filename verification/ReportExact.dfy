/** What the change flag means: a report is left alone exactly when it already meets the contract and fits. */
module ReportExact {
  import opened Wrappers
  import opened Sorting
  import opened ReportText
  import opened ReportModel
  import opened ReportNormal
  import opened ReportHardware
  import opened ReportPriority
  import opened ReportContract
  import opened ReportFit
  import opened ReportFixedPoint
  import opened ReportWire

  // ----- Lists -----

  lemma MultisetDistinct<T(!new)>(xs: seq<T>)
    requires multiset(xs) == multiset(Elements(xs))
    ensures Distinct(xs)
  {
    forall i, j | 0 <= i < j < |xs| ensures xs[i] != xs[j] {
      if xs[i] == xs[j] {
        TwiceCounts(xs, i, j);
      }
    }
  }

  lemma UniqueIsDistinct<T, K(!new)>(xs: seq<T>, key: T -> K)
    ensures UniqueKeys(xs, key) <==> Distinct(Map(xs, key))
  {
    var ks := Map(xs, key);
    if Distinct(ks) {
      forall i, j | 0 <= i < j < |xs| ensures key(xs[i]) != key(xs[j]) {
        assert ks[i] != ks[j];
      }
    }
  }

  lemma DistinctPermutation<T(!new)>(xs: seq<T>, ys: seq<T>)
    requires multiset(xs) == multiset(ys) && Distinct(xs)
    ensures Distinct(ys)
  {
    DistinctMultiset(xs);
    SameMembers(xs, ys);
    assert Elements(xs) == Elements(ys);
    MultisetDistinct(ys);
  }

  /** Reordering neither makes nor removes duplicates. */
  lemma UniquePermutation<T, K(!new)>(xs: seq<T>, ys: seq<T>, key: T -> K)
    requires multiset(xs) == multiset(ys)
    ensures UniqueKeys(xs, key) <==> UniqueKeys(ys, key)
  {
    MapPermutation(xs, ys, key);
    UniqueIsDistinct(xs, key);
    UniqueIsDistinct(ys, key);
    if UniqueKeys(xs, key) { DistinctPermutation(Map(xs, key), Map(ys, key)); }
    if UniqueKeys(ys, key) { DistinctPermutation(Map(ys, key), Map(xs, key)); }
  }

  lemma RetainsAll<T, K>(xs: seq<T>, key: T -> K)
    ensures |Retain(xs, key)| == |xs| <==> UniqueKeys(xs, key)
  {
    RetainUnique(xs, key);
    if |Retain(xs, key)| == |xs| {
      RetainLoses(xs, key);
    }
  }

  lemma {:induction false} FiltersNothing<T>(xs: seq<T>, keep: T -> bool)
    ensures |Filter(xs, keep)| == |xs| <==> forall x | x in xs :: keep(x)
  {
    FilterKeeps(xs, keep);
    if xs != [] {
      FiltersNothing(xs[1..], keep);
      FilterKeeps(xs[1..], keep);
      assert xs == [xs[0]] + xs[1..];
    }
  }

  lemma MapFixedExactly<T>(xs: seq<T>, f: T -> T)
    ensures Map(xs, f) == xs <==> forall x | x in xs :: f(x) == x
  {
    if Map(xs, f) == xs {
      forall x | x in xs ensures f(x) == x {
        var i :| 0 <= i < |xs| && xs[i] == x;
        assert Map(xs, f)[i] == f(xs[i]);
      }
    }
  }

  // ----- The hardware inventory -----

  lemma ModulesKept(ms: seq<MemoryModule>)
    ensures !BoundModules(ms).1 <==> WireModules(ms)
  {
    MapFixedExactly(ms, NormModule);
    forall m ensures NormModule(m) == m <==> WireModule(m) { ModuleOnWire(m); }
    if Map(ms, NormModule) == ms {
      var sorted := Sort(ms, ModuleOrder());
      ModuleOrderTotal();
      SortSorts(ms, ModuleOrder());
      ModuleOrderGroups(sorted);
      DedupIsRetain(sorted, ModuleKey);
      RetainsAll(sorted, ModuleKey);
      UniquePermutation(sorted, ms, ModuleKey);
    }
  }

  lemma DevicesKept(ds: seq<Device>)
    ensures !BoundDevices(ds).1 <==> WireDevices(ds)
  {
    MapFixedExactly(ds, NormDevice);
    forall d ensures NormDevice(d) == d <==> WireDevice(d) { DeviceOnWire(d); }
    if Map(ds, NormDevice) == ds {
      var sorted := Sort(ds, DeviceOrder());
      DeviceOrderTotal();
      SortSorts(ds, DeviceOrder());
      RetainsAll(sorted, DeviceKey);
      UniquePermutation(sorted, ds, DeviceKey);
    }
  }

  lemma NetworksHardwareKept(ns: seq<NetworkHardware>)
    ensures !BoundNetworksHardware(ns).1 <==> WireNetworksHardware(ns)
  {
    MapFixedExactly(ns, NormNetworkHardware);
    forall n ensures NormNetworkHardware(n) == n <==> WireNetworkHardware(n) { NetworkHardwareOnWire(n); }
  }

  lemma AdaptersKept(ns: seq<Adapter>)
    ensures !BoundAdapters(ns).1 <==> WireAdapters(ns)
  {
    MapFixedExactly(ns, NormAdapter);
    forall n ensures NormAdapter(n) == n <==> WireAdapter(n) { AdapterOnWire(n); }
    RetainsAll(Map(ns, NormAdapter), AdapterKey);
  }

  lemma SensorsAllowedAndKept(ss: seq<Sensor>)
    requires forall s | s in ss :: SensorAllowed(s)
    ensures Filter(ss, SensorAllowed) == ss
    ensures Map(ss, NormSensor) == ss <==> forall s | s in ss :: WireSensor(s)
  {
    FilterKeeps(ss, SensorAllowed);
    MapFixedExactly(ss, NormSensor);
    forall s | s in ss ensures NormSensor(s) == s <==> WireSensor(s) { SensorOnWire(s); }
  }

  lemma SensorsKept(ss: seq<Sensor>)
    ensures !BoundSensors(ss).1 <==> WireSensors(ss)
  {
    if |ss| <= MAX_HARDWARE_SENSORS {
      FiltersNothing(ss, SensorAllowed);
      if forall s | s in ss :: SensorAllowed(s) {
        SensorsAllowedAndKept(ss);
        RetainsAll(Map(ss, NormSensor), SensorKey);
      }
    }
  }

  lemma HealthKept(ds: seq<DiskHealth>, t: Time)
    ensures !BoundDiskHealth(ds, t).1 <==> WireHealth(ds, t)
  {
    var norm := (d: DiskHealth) => NormDiskHealth(d, t);
    MapFixedExactly(ds, norm);
    forall d ensures norm(d) == d <==> WireDiskHealth(d, t) { DiskHealthOnWire(d, t); }
  }

  lemma CpuHardwareKept(c: CpuHardware)
    ensures NormCpuHardware(c) == c <==> WireCpuHardware(c)
  {
    CpuHardwareOnWire(c);
    if WireCpuHardware(c) {
      OptionalNonemptyIsStable(c.model, MAX_HARDWARE_TEXT);
      OptionalNonemptyIsStable(c.vendor, MAX_HARDWARE_TEXT);
      forall i | 0 <= i < |c.perCoreFrequencyMhz| ensures WithinRange(c.perCoreFrequencyMhz[i], 0.0, F64_MAX) {
        assert c.perCoreFrequencyMhz[i] in c.perCoreFrequencyMhz;
      }
      if c.loadAverage.Some? {
        forall i | 0 <= i < |c.loadAverage.value| ensures Rate(c.loadAverage.value[i]) {
          assert c.loadAverage.value[i] in c.loadAverage.value;
        }
      }
      assert NormCpuHardware(c).perCoreFrequencyMhz == c.perCoreFrequencyMhz;
    }
  }

  /** The inventory is reported as changed exactly when it breaks the contract. */
  lemma HardwareKept(h: Hardware, t: Time)
    ensures !BoundHardware(h, t).1 <==> WireHardware(h, t)
  {
    ModulesKept(h.memoryModules);
    DevicesKept(h.devices);
    NetworksHardwareKept(h.networks);
    AdaptersKept(h.physicalNetworks);
    SensorsKept(h.sensors);
    HealthKept(h.diskHealth, t);
    CpuHardwareKept(h.cpu);
  }

  // ----- The report -----

  /** The whole contract on a raw report; `now` matters only where the time is clamped. */
  predicate Acceptable(r: Report, now: Time, clampFuture: bool) {
    && WireScalars(r) && WireCpu(r.cpu) && WireLists(r)
    && UniqueKeys(r.capabilities, NameAndSource)
    && (r.hardware.Some? ==> WireHardware(r.hardware.value, r.collectedAt))
    && (clampFuture ==> r.collectedAt <= now + FUTURE_TOLERANCE)
  }

  predicate WireElements(r: Report) {
    && (forall c | c in r.capabilities :: WireCapability(c))
    && (forall n | n in r.networks :: WireNetwork(n))
    && (forall d | d in r.disks :: WireVolume(d))
    && (forall t | t in r.temperatures :: WireTemperature(t))
    && (forall g | g in r.gpus :: WireGpu(g))
  }

  lemma ElementsKept(r: Report)
    ensures WireElements(r) <==>
              && Map(r.capabilities, NormCapability) == r.capabilities
              && Map(r.networks, NormNetwork) == r.networks
              && Map(r.disks, NormVolume) == r.disks
              && Map(r.temperatures, NormTemperature) == r.temperatures
              && Map(r.gpus, NormGpu) == r.gpus
  {
    forall c ensures NormCapability(c) == c <==> WireCapability(c) { CapabilityOnWire(c); }
    forall n ensures NormNetwork(n) == n <==> WireNetwork(n) { NetworkOnWire(n); }
    forall d ensures NormVolume(d) == d <==> WireVolume(d) { VolumeOnWire(d); }
    forall t ensures NormTemperature(t) == t <==> WireTemperature(t) { TemperatureOnWire(t); }
    forall g ensures NormGpu(g) == g <==> WireGpu(g) { GpuOnWire(g); }
    MapFixedExactly(r.capabilities, NormCapability);
    MapFixedExactly(r.networks, NormNetwork);
    MapFixedExactly(r.disks, NormVolume);
    MapFixedExactly(r.temperatures, NormTemperature);
    MapFixedExactly(r.gpus, NormGpu);
  }

  lemma CpuKept(c: Cpu)
    ensures Percent(c.usagePercent) == c.usagePercent && BoundCpu(c) == c <==> WireCpu(c)
  {
    if BoundCpu(c) == c && Percent(c.usagePercent) == c.usagePercent {
      CpuOnWire(c);
    }
    if WireCpu(c) {
      forall v | v in c.perCorePercent ensures Percent(v) == v {
      }
      MapFixed(c.perCorePercent, Percent);
    }
  }

  lemma NormalisedExactly(r: Report, now: Time, clampFuture: bool)
    ensures Normalized(r, now, clampFuture) == r <==>
              && WireScalars(r) && Percent(r.cpu.usagePercent) == r.cpu.usagePercent && WireElements(r)
              && (clampFuture ==> r.collectedAt <= now + FUTURE_TOLERANCE)
  {
    FixedExactly(r, now, clampFuture);
    ElementsKept(r);
    ScalarsOnWire(r);
  }

  lemma CapabilitiesKept(codec: Codec, cs: seq<Capability>)
    requires Injective(codec.capability)
    ensures |Deduplicated(codec, cs)| == |cs| <==> UniqueKeys(cs, NameAndSource)
  {
    var sorted := Sort(cs, CapabilityOrder(codec));
    CapabilityOrderTotal(codec);
    SortSorts(cs, CapabilityOrder(codec));
    CapabilityOrderGroups(codec, sorted);
    DedupIsRetain(sorted, NameAndSource);
    RetainsAll(sorted, NameAndSource);
    UniquePermutation(sorted, cs, NameAndSource);
  }

  predicate WithinLimits(r: Report) {
    && |r.capabilities| <= CLIENT_REPORT_MAX_CAPABILITIES && |r.networks| <= CLIENT_REPORT_MAX_NETWORKS
    && |r.disks| <= CLIENT_REPORT_MAX_DISKS && |r.temperatures| <= CLIENT_REPORT_MAX_TEMPERATURES
    && |r.gpus| <= CLIENT_REPORT_MAX_GPUS
  }

  lemma StructureKept(codec: Codec, r: Report)
    requires Injective(codec.capability)
    ensures !StructureChanged(codec, r) <==>
              && BoundCpu(r.cpu) == r.cpu && WithinLimits(r) && UniqueKeys(r.capabilities, NameAndSource)
              && (r.hardware.Some? ==> WireHardware(r.hardware.value, r.collectedAt))
  {
    CapabilitiesKept(codec, r.capabilities);
    if r.hardware.Some? {
      HardwareKept(r.hardware.value, r.collectedAt);
    }
  }

  lemma AcceptableExactly(r: Report, now: Time, clampFuture: bool)
    ensures Acceptable(r, now, clampFuture) <==>
              && (WireScalars(r) && Percent(r.cpu.usagePercent) == r.cpu.usagePercent && WireElements(r)
                  && (clampFuture ==> r.collectedAt <= now + FUTURE_TOLERANCE))
              && (BoundCpu(r.cpu) == r.cpu && WithinLimits(r) && UniqueKeys(r.capabilities, NameAndSource)
                  && (r.hardware.Some? ==> WireHardware(r.hardware.value, r.collectedAt)))
  {
    CpuKept(r.cpu);
  }

  /**
   The change flag is exact: it is down if and only if the report met the whole contract already and, put in
   order, fits the byte limit.
   */
  lemma FlagIsExact(codec: Codec, r: Report, now: Time, clampFuture: bool)
    requires Lawful(codec)
    ensures !Bounded(codec, r, now, clampFuture).1 <==>
              Acceptable(r, now, clampFuture) && Fits(codec, Structured(codec, r))
  {
    NormalisedExactly(r, now, clampFuture);
    AcceptableExactly(r, now, clampFuture);
    if Normalized(r, now, clampFuture) == r {
      StructureKept(codec, r);
    }
  }

  lemma UniqueDeduplicated(codec: Codec, cs: seq<Capability>)
    requires Injective(codec.capability) && UniqueKeys(cs, NameAndSource)
    ensures multiset(Deduplicated(codec, cs)) == multiset(cs) && |Deduplicated(codec, cs)| == |cs|
  {
    var sorted := Sort(cs, CapabilityOrder(codec));
    CapabilityOrderTotal(codec);
    SortSorts(cs, CapabilityOrder(codec));
    UniquePermutation(sorted, cs, NameAndSource);
    DedupOfUnique(sorted, NameAndSource);
  }

  lemma PrioritizedKeepsAll<T(!new)>(xs: seq<T>, key: T -> seq<Symbol>, metrics: seq<Metric<T>>)
    requires Injective(key)
    ensures multiset(Prioritized(xs, ByKey(key), metrics)) == multiset(xs) && |Prioritized(xs, ByKey(key), metrics)| == |xs|
  {
    ByKeyOrders(key);
    PrioritizedFacts(xs, ByKey(key), metrics);
  }

  lemma StructuredKeepsAll(codec: Codec, r: Report)
    requires Lawful(codec) && WithinLimits(r) && UniqueKeys(r.capabilities, NameAndSource) && BoundCpu(r.cpu) == r.cpu
    ensures Reordered(Structured(codec, r).(hardware := r.hardware), r)
  {
    UniqueDeduplicated(codec, r.capabilities);
    PrioritizedKeepsAll(r.networks, codec.network, NetworkMetrics());
    PrioritizedKeepsAll(r.disks, codec.disk, DiskMetrics());
    PrioritizedKeepsAll(r.temperatures, codec.temperature, TemperatureMetrics());
    PrioritizedKeepsAll(r.gpus, codec.gpu, GpuMetrics());
  }

  /** With the flag down nothing was lost: outside the inventory the result is the report in another order. */
  lemma UnflaggedLosesNothing(codec: Codec, r: Report, now: Time, clampFuture: bool)
    requires Lawful(codec) && !Bounded(codec, r, now, clampFuture).1
    ensures Bounded(codec, r, now, clampFuture).0 == Structured(codec, r)
    ensures Reordered(Bounded(codec, r, now, clampFuture).0.(hardware := r.hardware), r)
  {
    NormalisedExactly(r, now, clampFuture);
    StructureKept(codec, r);
    UncutWhenFitting(codec, r, now, clampFuture);
    StructuredKeepsAll(codec, r);
  }
}
