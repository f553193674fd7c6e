/** The report as the client changes it in place, and its bounding step by step. */
module ClientReports {
  import opened Wrappers
  import opened Sorting
  import opened ReportText
  import opened ReportModel
  import opened ReportNormal
  import opened ReportHardware
  import opened ReportPriority
  import opened ReportContract
  import opened ReportFit
  import opened ReportFixedPoint
  import opened InventoryValues
  import opened ReportOutcome

  // ----- Lists -----

  method BoundEach<T(==)>(values: seq<T>, norm: T -> T) returns (bounded: seq<T>, changed: bool)
    ensures bounded == Map(values, norm)
    ensures changed <==> bounded != values
  {
    bounded, changed := values, false;
    for i := 0 to |values|
      invariant |bounded| == |values|
      invariant forall j | 0 <= j < i :: bounded[j] == norm(values[j])
      invariant forall j | i <= j < |values| :: bounded[j] == values[j]
      invariant changed <==> exists j | 0 <= j < i :: bounded[j] != values[j]
    {
      bounded := bounded[i := norm(values[i])];
      changed := changed || bounded[i] != values[i];
    }
  }

  lemma KeySeen<T, K>(kept: seq<T>, key: T -> K, k: K)
    ensures k in (set x | x in kept :: key(x)) <==> exists i | 0 <= i < |kept| :: key(kept[i]) == k
  {
    if k in (set x | x in kept :: key(x)) {
      var x :| x in kept && key(x) == k;
      var i :| 0 <= i < |kept| && kept[i] == x;
    }
  }

  /** Keep an element when its key was not seen before. */
  method RetainFirst<T(!new, ==), K(==)>(values: seq<T>, key: T -> K) returns (kept: seq<T>)
    ensures kept == Retain(values, key)
    ensures FirstOfEach(kept, values, key, true) && Subsequence(kept, values)
  {
    kept := [];
    var seen: set<K> := {};
    for i := 0 to |values|
      invariant kept == Retain(values[..i], key)
      invariant seen == set x | x in kept :: key(x)
    {
      assert values[..i + 1][..i] == values[..i];
      KeySeen(kept, key, key(values[i]));
      if key(values[i]) !in seen {
        assert forall x :: x in kept + [values[i]] <==> x in kept || x == values[i];
        kept, seen := kept + [values[i]], seen + {key(values[i])};
      }
    }
    assert values[..|values|] == values;
    assert kept[..|kept|] == kept;
    RetainIsFirstOfEach(values, key, |kept|);
    RetainSubsequence(values, key, |kept|);
  }

  /** Drop an element with the same key as the last one kept. */
  method DedupAdjacent<T, K(==)>(values: seq<T>, key: T -> K) returns (kept: seq<T>)
    ensures kept == Dedup(values, key)
  {
    kept := [];
    for i := 0 to |values|
      invariant kept == Dedup(values[..i], key)
      invariant i > 0 ==> kept != [] && key(kept[|kept| - 1]) == key(values[i - 1])
    {
      assert values[..i + 1][..i] == values[..i];
      if i == 0 || key(values[i]) != key(kept[|kept| - 1]) {
        kept := kept + [values[i]];
      }
    }
    assert values[..|values|] == values;
  }

  method RetainIf<T>(values: seq<T>, keep: T -> bool) returns (kept: seq<T>)
    ensures kept == Filter(values, keep)
  {
    kept := [];
    for i := 0 to |values|
      invariant kept + Filter(values[i..], keep) == Filter(values, keep)
    {
      assert values[i..][1..] == values[i + 1..];
      if keep(values[i]) {
        kept := kept + [values[i]];
      }
    }
    assert values[|values|..] == [];
  }

  method TruncateList<T>(values: seq<T>, maximum: nat) returns (kept: seq<T>, changed: bool)
    ensures kept == Truncate(values, maximum)
    ensures changed <==> |values| > maximum
  {
    if |values| <= maximum {
      return values, false;
    }
    return values[..maximum], true;
  }

  // ----- The hardware inventory -----

  method BoundModuleList(modules: seq<MemoryModule>) returns (kept: seq<MemoryModule>, changed: bool)
    ensures (kept, changed) == BoundModules(modules)
  {
    kept, changed := BoundEach(modules, NormModule);
    kept := Sort(kept, ModuleOrder());
    var length := |kept|;
    kept := DedupAdjacent(kept, ModuleKey);
    changed := changed || length != |kept|;
    var cut;
    kept, cut := TruncateList(kept, MAX_MEMORY_MODULES);
    changed := changed || cut;
  }

  method BoundDeviceList(devices: seq<Device>) returns (kept: seq<Device>, changed: bool)
    ensures (kept, changed) == BoundDevices(devices)
  {
    kept, changed := BoundEach(devices, NormDevice);
    kept := Sort(kept, DeviceOrder());
    var length := |kept|;
    kept := RetainFirst(kept, DeviceKey);
    changed := changed || length != |kept|;
    var cut;
    kept, cut := TruncateList(kept, MAX_HARDWARE_DEVICES);
    changed := changed || cut;
  }

  method BoundAdapterList(adapters: seq<Adapter>) returns (kept: seq<Adapter>, changed: bool)
    ensures (kept, changed) == BoundAdapters(adapters)
  {
    kept, changed := BoundEach(adapters, NormAdapter);
    var length := |kept|;
    kept := RetainFirst(kept, AdapterKey);
    changed := changed || length != |kept|;
    var cut;
    kept, cut := TruncateList(kept, MAX_HARDWARE_NETWORKS);
    changed := changed || cut;
  }

  method BoundSensorList(sensors: seq<Sensor>) returns (kept: seq<Sensor>, changed: bool)
    ensures (kept, changed) == BoundSensors(sensors)
  {
    kept, changed := TruncateList(sensors, MAX_HARDWARE_SENSORS);
    var length := |kept|;
    kept := RetainIf(kept, SensorAllowed);
    changed := changed || length != |kept|;
    var renamed;
    kept, renamed := BoundEach(kept, NormSensor);
    length := |kept|;
    kept := RetainFirst(kept, SensorKey);
    changed := changed || renamed || length != |kept|;
  }

  method BoundNetworkHardwareList(networks: seq<NetworkHardware>) returns (kept: seq<NetworkHardware>, changed: bool)
    ensures (kept, changed) == BoundNetworksHardware(networks)
  {
    var cut;
    kept, cut := TruncateList(networks, MAX_HARDWARE_NETWORKS);
    kept, changed := BoundEach(kept, NormNetworkHardware);
    changed := changed || cut;
  }

  method BoundHealthList(health: seq<DiskHealth>, reportTime: Time) returns (kept: seq<DiskHealth>, changed: bool)
    ensures (kept, changed) == BoundDiskHealth(health, reportTime)
  {
    var cut;
    kept, cut := TruncateList(health, MAX_HARDWARE_DISKS);
    kept, changed := BoundEach(kept, (d: DiskHealth) => NormDiskHealth(d, reportTime));
    changed := changed || cut;
  }

  method BoundInventoryLists(h: Hardware, reportTime: Time) returns (bounded: Hardware, changed: bool)
    ensures bounded == h.(memoryModules := BoundModules(h.memoryModules).0, devices := BoundDevices(h.devices).0,
                          networks := BoundNetworksHardware(h.networks).0,
                          physicalNetworks := BoundAdapters(h.physicalNetworks).0, sensors := BoundSensors(h.sensors).0,
                          diskHealth := BoundDiskHealth(h.diskHealth, reportTime).0)
    ensures changed <==> || BoundModules(h.memoryModules).1 || BoundDevices(h.devices).1
                         || BoundNetworksHardware(h.networks).1 || BoundAdapters(h.physicalNetworks).1
                         || BoundSensors(h.sensors).1 || BoundDiskHealth(h.diskHealth, reportTime).1
  {
    var modules, modulesChanged := BoundModuleList(h.memoryModules);
    var devices, devicesChanged := BoundDeviceList(h.devices);
    var networks, networksChanged := BoundNetworkHardwareList(h.networks);
    var adapters, adaptersChanged := BoundAdapterList(h.physicalNetworks);
    var sensors, sensorsChanged := BoundSensorList(h.sensors);
    var health, healthChanged := BoundHealthList(h.diskHealth, reportTime);
    bounded := h.(memoryModules := modules, devices := devices, networks := networks, physicalNetworks := adapters,
                  sensors := sensors, diskHealth := health);
    changed := || modulesChanged || devicesChanged || networksChanged || adaptersChanged || sensorsChanged
               || healthChanged;
  }

  method BoundInventoryScalars(h: Hardware, reportTime: Time) returns (bounded: Hardware, changed: bool)
    ensures bounded.cpu == NormCpuHardware(h.cpu) && bounded.collectedAt == Earlier(h.collectedAt, reportTime)
    ensures bounded.inventoryCollectedAt == if h.inventoryCollectedAt.None? then None
                                            else Some(Earlier(h.inventoryCollectedAt.value, reportTime))
    ensures bounded == h.(collectedAt := bounded.collectedAt, inventoryCollectedAt := bounded.inventoryCollectedAt,
                          cpu := bounded.cpu)
    ensures changed <==> bounded != h
  {
    bounded, changed := h, false;
    if h.inventoryCollectedAt.Some? && h.inventoryCollectedAt.value > reportTime {
      bounded, changed := bounded.(inventoryCollectedAt := Some(reportTime)), true;
    }
    if h.collectedAt > reportTime {
      bounded, changed := bounded.(collectedAt := reportTime), true;
    }
    bounded := bounded.(cpu := NormCpuHardware(h.cpu));
    changed := changed || bounded.cpu != h.cpu;
  }

  method BoundInventory(h: Hardware, reportTime: Time) returns (bounded: Hardware, changed: bool)
    ensures (bounded, changed) == BoundHardware(h, reportTime)
    ensures InventoryFrom(bounded, h, reportTime)
  {
    InventoryIsFrom(h, reportTime);
    var scalarsChanged, listsChanged;
    bounded, scalarsChanged := BoundInventoryScalars(h, reportTime);
    bounded, listsChanged := BoundInventoryLists(bounded, reportTime);
    changed := scalarsChanged || listsChanged;
  }

  // ----- The report -----

  /** Normalisation of everything outside the lists. */
  predicate ScalarsNormalized(s: Report, r: Report, now: Time, clampFuture: bool) {
    s == r.(intervalSeconds := NormInterval(r.intervalSeconds), collectedAt := NormTime(r.collectedAt, now, clampFuture),
            host := NormHost(r.host), memory := NormMemory(r.memory),
            cpu := r.cpu.(usagePercent := Percent(r.cpu.usagePercent)))
  }

  /** Normalisation of every list element. */
  predicate ListsNormalized(s: Report, r: Report) {
    s == r.(capabilities := Map(r.capabilities, NormCapability), networks := Map(r.networks, NormNetwork),
            disks := Map(r.disks, NormVolume), temperatures := Map(r.temperatures, NormTemperature),
            gpus := Map(r.gpus, NormGpu))
  }

  lemma ScalarsDiffer(s: Report, r: Report)
    requires s == r.(intervalSeconds := s.intervalSeconds, collectedAt := s.collectedAt, host := s.host,
                     memory := s.memory, cpu := s.cpu)
    ensures s != r <==> || s.intervalSeconds != r.intervalSeconds || s.collectedAt != r.collectedAt
                        || s.host != r.host || s.memory != r.memory || s.cpu != r.cpu
  {
  }

  /** Four normalisations of separate parts in a row. */
  lemma ScalarsInSteps(r: Report, a: Report, b: Report, c: Report, d: Report, now: Time, clampFuture: bool)
    requires a == r.(intervalSeconds := NormInterval(r.intervalSeconds), collectedAt := NormTime(r.collectedAt, now, clampFuture))
    requires b == a.(host := NormHost(a.host))
    requires c == b.(cpu := b.cpu.(usagePercent := Percent(b.cpu.usagePercent)))
    requires d == c.(memory := NormMemory(c.memory))
    ensures ScalarsNormalized(d, r, now, clampFuture)
    ensures d != r <==> a != r || b != a || c != b || d != c
  {
    ScalarsDiffer(d, r);
  }

  lemma ListsDiffer(s: Report, r: Report)
    requires s == r.(capabilities := s.capabilities, networks := s.networks, disks := s.disks,
                     temperatures := s.temperatures, gpus := s.gpus)
    ensures s != r <==> || s.capabilities != r.capabilities || s.networks != r.networks || s.disks != r.disks
                        || s.temperatures != r.temperatures || s.gpus != r.gpus
  {
  }

  lemma IsNormalized(s: Report, mid: Report, r: Report, now: Time, clampFuture: bool)
    requires ScalarsNormalized(mid, r, now, clampFuture) && ListsNormalized(s, mid)
    ensures s == Normalized(r, now, clampFuture)
    ensures s != r <==> mid != r || s != mid
  {
  }

  /** The structural rules as `Structured` states them, one part at a time. */
  predicate PartsBounded(s: Report, n: Report) {
    && s == n.(hardware := s.hardware, cpu := s.cpu, capabilities := s.capabilities, networks := s.networks,
               disks := s.disks, temperatures := s.temperatures, gpus := s.gpus)
    && s.cpu == BoundCpu(n.cpu)
    && s.hardware == if n.hardware.Some? then Some(BoundHardware(n.hardware.value, n.collectedAt).0) else None
  }

  predicate ListsBounded(codec: Codec, s: Report, n: Report) {
    && s.capabilities == Truncate(Deduplicated(codec, n.capabilities), CLIENT_REPORT_MAX_CAPABILITIES)
    && s.networks == Truncate(Prioritized(n.networks, ByKey(codec.network), NetworkMetrics()), CLIENT_REPORT_MAX_NETWORKS)
    && s.disks == Truncate(Prioritized(n.disks, ByKey(codec.disk), DiskMetrics()), CLIENT_REPORT_MAX_DISKS)
    && s.temperatures == Truncate(Prioritized(n.temperatures, ByKey(codec.temperature), TemperatureMetrics()),
                                  CLIENT_REPORT_MAX_TEMPERATURES)
    && s.gpus == Truncate(Prioritized(n.gpus, ByKey(codec.gpu), GpuMetrics()), CLIENT_REPORT_MAX_GPUS)
  }

  lemma IsStructured(codec: Codec, s: Report, n: Report)
    requires PartsBounded(s, n) && ListsBounded(codec, s, n)
    ensures s == Structured(codec, n)
  {
  }

  predicate PartsChanged(n: Report) {
    (n.hardware.Some? && BoundHardware(n.hardware.value, n.collectedAt).1) || BoundCpu(n.cpu) != n.cpu
  }

  predicate ListsChanged(codec: Codec, n: Report) {
    || |Deduplicated(codec, n.capabilities)| != |n.capabilities|
    || |Deduplicated(codec, n.capabilities)| > CLIENT_REPORT_MAX_CAPABILITIES
    || |n.networks| > CLIENT_REPORT_MAX_NETWORKS || |n.disks| > CLIENT_REPORT_MAX_DISKS
    || |n.temperatures| > CLIENT_REPORT_MAX_TEMPERATURES || |n.gpus| > CLIENT_REPORT_MAX_GPUS
  }

  lemma StructureChangedExactly(codec: Codec, n: Report)
    ensures StructureChanged(codec, n) <==> PartsChanged(n) || ListsChanged(codec, n)
  {
  }

  lemma IsBounded(codec: Codec, r: Report, now: Time, clampFuture: bool, structured: Report, changed: bool, u: Report)
    requires structured == Structured(codec, Normalized(r, now, clampFuture))
    requires changed <==> || Normalized(r, now, clampFuture) != r || StructureChanged(codec, Normalized(r, now, clampFuture))
                          || Size(codec, structured) > CLIENT_REPORT_MAX_BODY_BYTES
    requires u == if changed && !Marked(r.capabilities) then Mark(codec, structured) else structured
    ensures changed == Changed(codec, r, now, clampFuture) && u == Unfitted(codec, r, now, clampFuture)
    ensures u.networks == structured.networks && u.disks == structured.disks
    ensures u.temperatures == structured.temperatures && u.gpus == structured.gpus
  {
  }

  class ClientReport {
    var schemaVersion: nat
    var reportId: string
    var collectedAt: Time
    var host: Host
    var intervalSeconds: F64
    var uptimeSeconds: nat
    var cpu: Cpu
    var memory: Memory
    var hardware: Option<Hardware>
    var networks: seq<Network>
    var disks: seq<Volume>
    var temperatures: seq<Temperature>
    var gpus: seq<Gpu>
    var capabilities: seq<Capability>
    var spoolPendingBatches: nat
    var collectorErrors: nat

    function Value(): Report
      reads this
    {
      Report(schemaVersion, reportId, collectedAt, host, intervalSeconds, uptimeSeconds, cpu, memory, hardware,
             networks, disks, temperatures, gpus, capabilities, spoolPendingBatches, collectorErrors)
    }

    constructor (r: Report)
      ensures Value() == r
    {
      schemaVersion, reportId, collectedAt, host := r.schemaVersion, r.reportId, r.collectedAt, r.host;
      intervalSeconds, uptimeSeconds, cpu, memory := r.intervalSeconds, r.uptimeSeconds, r.cpu, r.memory;
      hardware, networks, disks, temperatures := r.hardware, r.networks, r.disks, r.temperatures;
      gpus, capabilities, spoolPendingBatches := r.gpus, r.capabilities, r.spoolPendingBatches;
      collectorErrors := r.collectorErrors;
    }

    method NormalizeHost() returns (changed: bool)
      modifies this`host
      ensures Value() == old(Value()).(host := NormHost(old(host)))
      ensures changed <==> Value() != old(Value())
    {
      var os, c1 := BoundRequiredText(host.os, CLIENT_REPORT_MAX_HOST_OS_BYTES, "unknown");
      var osVersion, c2 := BoundOptionalText(host.osVersion, CLIENT_REPORT_MAX_HOST_VERSION_BYTES);
      var kernel, c3 := BoundOptionalText(host.kernelVersion, CLIENT_REPORT_MAX_HOST_VERSION_BYTES);
      var arch, c4 := BoundRequiredText(host.arch, CLIENT_REPORT_MAX_HOST_ARCH_BYTES, "unknown");
      var version, c5 := BoundRequiredText(host.clientVersion, CLIENT_REPORT_MAX_CLIENT_VERSION_BYTES, "unknown");
      host := Host(host.id, os, osVersion, kernel, arch, version);
      changed := c1 || c2 || c3 || c4 || c5;
    }

    method NormalizeMemory() returns (changed: bool)
      modifies this`memory
      ensures Value() == old(Value()).(memory := NormMemory(old(memory)))
      ensures changed <==> Value() != old(Value())
    {
      changed := false;
      if memory.usedBytes > memory.totalBytes {
        memory, changed := memory.(usedBytes := memory.totalBytes), true;
      }
      if memory.availableBytes > memory.totalBytes {
        memory, changed := memory.(availableBytes := memory.totalBytes), true;
      }
      if memory.swapUsedBytes > memory.swapTotalBytes {
        memory, changed := memory.(swapUsedBytes := memory.swapTotalBytes), true;
      }
    }

    method NormalizeIntervalAndTime(now: Time, clampFuture: bool) returns (changed: bool)
      modifies this`intervalSeconds, this`collectedAt
      ensures Value() == old(Value()).(intervalSeconds := NormInterval(old(intervalSeconds)),
                                       collectedAt := NormTime(old(collectedAt), now, clampFuture))
      ensures changed <==> Value() != old(Value())
    {
      var bounded := if intervalSeconds.Fin?
        then Fin(Clamp(intervalSeconds.value, CLIENT_REPORT_INTERVAL_SECONDS.0, CLIENT_REPORT_INTERVAL_SECONDS.1))
        else Fin(CLIENT_REPORT_INTERVAL_SECONDS.0);
      changed := bounded != intervalSeconds;
      intervalSeconds := bounded;
      if clampFuture && collectedAt - now > FUTURE_TOLERANCE {
        collectedAt, changed := now, true;
      }
    }

    method NormalizeUsage() returns (changed: bool)
      modifies this`cpu
      ensures Value() == old(Value()).(cpu := old(cpu).(usagePercent := Percent(old(cpu).usagePercent)))
      ensures changed <==> Value() != old(Value())
    {
      var usage := Percent(cpu.usagePercent);
      changed := usage != cpu.usagePercent;
      cpu := cpu.(usagePercent := usage);
    }

    method NormalizeScalars(now: Time, clampFuture: bool) returns (changed: bool)
      modifies this`intervalSeconds, this`collectedAt, this`host, this`cpu, this`memory
      ensures ScalarsNormalized(Value(), old(Value()), now, clampFuture)
      ensures changed <==> Value() != old(Value())
    {
      ghost var r := Value();
      var timingChanged := NormalizeIntervalAndTime(now, clampFuture);
      ghost var timed := Value();
      var hostChanged := NormalizeHost();
      ghost var hosted := Value();
      var usageChanged := NormalizeUsage();
      ghost var used := Value();
      var memoryChanged := NormalizeMemory();
      changed := timingChanged || hostChanged || usageChanged || memoryChanged;
      ScalarsInSteps(r, timed, hosted, used, Value(), now, clampFuture);
    }

    method NormalizeCapabilities() returns (changed: bool)
      modifies this`capabilities
      ensures capabilities == Map(old(capabilities), NormCapability)
      ensures changed <==> capabilities != old(capabilities)
    {
      capabilities, changed := BoundEach(capabilities, NormCapability);
    }

    method NormalizeTraffic() returns (changed: bool)
      modifies this`networks, this`disks
      ensures networks == Map(old(networks), NormNetwork)
      ensures disks == Map(old(disks), NormVolume)
      ensures changed <==> networks != old(networks) || disks != old(disks)
    {
      var c1, c2;
      networks, c1 := BoundEach(networks, NormNetwork);
      disks, c2 := BoundEach(disks, NormVolume);
      changed := c1 || c2;
    }

    method NormalizeDevices() returns (changed: bool)
      modifies this`temperatures, this`gpus
      ensures temperatures == Map(old(temperatures), NormTemperature)
      ensures gpus == Map(old(gpus), NormGpu)
      ensures changed <==> temperatures != old(temperatures) || gpus != old(gpus)
    {
      var c1, c2;
      temperatures, c1 := BoundEach(temperatures, NormTemperature);
      gpus, c2 := BoundEach(gpus, NormGpu);
      changed := c1 || c2;
    }

    method NormalizeLists() returns (changed: bool)
      modifies this`capabilities, this`networks, this`disks, this`temperatures, this`gpus
      ensures ListsNormalized(Value(), old(Value()))
      ensures changed <==> Value() != old(Value())
    {
      ghost var r := Value();
      var capabilitiesChanged := NormalizeCapabilities();
      var trafficChanged := NormalizeTraffic();
      var devicesChanged := NormalizeDevices();
      changed := capabilitiesChanged || trafficChanged || devicesChanged;
      ListsDiffer(Value(), r);
    }

    method NormalizeScalarsAndText(now: Time, clampFuture: bool) returns (changed: bool)
      modifies this
      ensures Value() == Normalized(old(Value()), now, clampFuture)
      ensures changed <==> Value() != old(Value())
    {
      ghost var r := Value();
      var scalarsChanged := NormalizeScalars(now, clampFuture);
      ghost var mid := Value();
      var listsChanged := NormalizeLists();
      changed := scalarsChanged || listsChanged;
      IsNormalized(Value(), mid, r, now, clampFuture);
    }

    method BoundCores() returns (changed: bool)
      modifies this`cpu
      ensures cpu == BoundCpu(old(cpu))
      ensures changed <==> cpu != old(cpu)
    {
      changed := false;
      var cores := cpu.perCorePercent;
      if cores == [] {
        cores, changed := [cpu.usagePercent], true;
      }
      var clamped, cut;
      cores, clamped := BoundEach(cores, Percent);
      cores, cut := TruncateList(cores, CLIENT_REPORT_MAX_CPU_CORES);
      changed := changed || clamped || cut;
      cpu := cpu.(perCorePercent := cores);
      if cpu.logicalCount != |cores| {
        cpu, changed := cpu.(logicalCount := |cores|), true;
      }
      if cpu.physicalCount.Some? && (cpu.physicalCount.value == 0 || cpu.physicalCount.value > |cores|) {
        cpu, changed := cpu.(physicalCount := None), true;
      }
    }

    method ShrinkCollections(m: Minima, ratio: real)
      requires ratio >= 0.0
      modifies this
      ensures Value() == Shrunk(old(Value()), m, ratio)
    {
      capabilities := capabilities[..Target(|capabilities|, m.capability, ratio)];
      networks := networks[..Target(|networks|, m.network, ratio)];
      disks := disks[..Target(|disks|, m.disk, ratio)];
      temperatures := temperatures[..Target(|temperatures|, m.temperature, ratio)];
      gpus := gpus[..Target(|gpus|, m.gpu, ratio)];
    }

    method RemoveLastOptional(capabilityMinimum: nat) returns (removed: bool)
      modifies this
      ensures removed <==> WithoutLastOptional(old(Value()), capabilityMinimum).Some?
      ensures !removed <==> Exhausted(old(Value()), capabilityMinimum)
      ensures removed ==> LostLast(Value(), old(Value()), capabilityMinimum)
      ensures Value() == if removed then WithoutLastOptional(old(Value()), capabilityMinimum).value else old(Value())
    {
      removed := true;
      if temperatures != [] {
        temperatures := AllButLast(temperatures);
      } else if disks != [] {
        disks := AllButLast(disks);
      } else if networks != [] {
        networks := AllButLast(networks);
      } else if gpus != [] {
        gpus := AllButLast(gpus);
      } else if |capabilities| > capabilityMinimum {
        capabilities := AllButLast(capabilities);
      } else {
        removed := false;
      }
    }

    /** Shrink by ratio until the report fits or every list is at its minimum. */
    method ShrinkToFit(codec: Codec, m: Minima)
      modifies this
      ensures Value() == ShrinkRounds(codec, old(Value()), m)
    {
      while Size(codec, Value()) > CLIENT_REPORT_MAX_BODY_BYTES
        invariant ShrinkRounds(codec, Value(), m) == ShrinkRounds(codec, old(Value()), m)
        decreases Removable(Value(), m)
      {
        ghost var before := Value();
        if Removable(Value(), m) == 0 {
          break;
        }
        RatioBounds(Size(codec, Value()));
        ShrinkCollections(m, Ratio(Size(codec, Value())));
        ShrunkCuts(before, m, Ratio(Size(codec, before)));
      }
    }

    /** Give up one element after another until the report fits or nothing optional is left. */
    method RemoveToFit(codec: Codec, capabilityMinimum: nat)
      modifies this
      ensures Value() == RemoveRounds(codec, old(Value()), capabilityMinimum)
    {
      while Size(codec, Value()) > CLIENT_REPORT_MAX_BODY_BYTES
        invariant RemoveRounds(codec, Value(), capabilityMinimum) == RemoveRounds(codec, old(Value()), capabilityMinimum)
        decreases ListTotal(Value())
      {
        var removed := RemoveLastOptional(capabilityMinimum);
        if !removed {
          break;
        }
      }
    }

    method FitBody(codec: Codec, network: nat, disk: nat, temperature: nat, gpu: nat)
      modifies this
      ensures Value() == Fit(codec, old(Value()), network, disk, temperature, gpu)
    {
      if Size(codec, Value()) > CLIENT_REPORT_MAX_BODY_BYTES {
        hardware := None;
      }
      var capabilityMinimum := if capabilities != [] && IsMarker(capabilities[0]) then 1 else 0;
      ShrinkToFit(codec, Minima(capabilityMinimum, network, disk, temperature, gpu));
      RemoveToFit(codec, capabilityMinimum);
    }

    /** Order and deduplicate the capabilities and cut them to their limit. */
    method BoundCapabilities(codec: Codec) returns (changed: bool)
      modifies this`capabilities
      ensures capabilities == Truncate(Deduplicated(codec, old(capabilities)), CLIENT_REPORT_MAX_CAPABILITIES)
      ensures changed <==> || |Deduplicated(codec, old(capabilities))| != |old(capabilities)|
                           || |Deduplicated(codec, old(capabilities))| > CLIENT_REPORT_MAX_CAPABILITIES
    {
      var count := |capabilities|;
      capabilities := Sort(capabilities, CapabilityOrder(codec));
      capabilities := DedupAdjacent(capabilities, NameAndSource);
      changed := |capabilities| != count;
      var cut;
      capabilities, cut := TruncateList(capabilities, CLIENT_REPORT_MAX_CAPABILITIES);
      changed := changed || cut;
    }

    /** Prioritise the four metric lists, cut each to its limit, and count the anchors still there. */
    method PrioritizeLists(codec: Codec) returns (changed: bool, network: nat, disk: nat, temperature: nat, gpu: nat)
      requires Lawful(codec)
      modifies this`networks, this`disks, this`temperatures, this`gpus
      ensures networks == Truncate(Prioritized(old(networks), ByKey(codec.network), NetworkMetrics()), CLIENT_REPORT_MAX_NETWORKS)
      ensures disks == Truncate(Prioritized(old(disks), ByKey(codec.disk), DiskMetrics()), CLIENT_REPORT_MAX_DISKS)
      ensures temperatures == Truncate(Prioritized(old(temperatures), ByKey(codec.temperature), TemperatureMetrics()),
                                       CLIENT_REPORT_MAX_TEMPERATURES)
      ensures gpus == Truncate(Prioritized(old(gpus), ByKey(codec.gpu), GpuMetrics()), CLIENT_REPORT_MAX_GPUS)
      ensures changed <==> || |old(networks)| > CLIENT_REPORT_MAX_NETWORKS || |old(disks)| > CLIENT_REPORT_MAX_DISKS
                           || |old(temperatures)| > CLIENT_REPORT_MAX_TEMPERATURES || |old(gpus)| > CLIENT_REPORT_MAX_GPUS
      ensures network == AtMost(AnchorCount(old(networks), ByKey(codec.network), NetworkMetrics()), |networks|)
      ensures disk == AtMost(AnchorCount(old(disks), ByKey(codec.disk), DiskMetrics()), |disks|)
      ensures temperature ==
                AtMost(AnchorCount(old(temperatures), ByKey(codec.temperature), TemperatureMetrics()), |temperatures|)
      ensures gpu == AtMost(AnchorCount(old(gpus), ByKey(codec.gpu), GpuMetrics()), |gpus|)
    {
      var c1, c2, c3, c4;
      networks, c1, network := PrioritizeAndTruncate(networks, codec.network, NetworkMetrics(), CLIENT_REPORT_MAX_NETWORKS);
      disks, c2, disk := PrioritizeAndTruncate(disks, codec.disk, DiskMetrics(), CLIENT_REPORT_MAX_DISKS);
      temperatures, c3, temperature :=
        PrioritizeAndTruncate(temperatures, codec.temperature, TemperatureMetrics(), CLIENT_REPORT_MAX_TEMPERATURES);
      gpus, c4, gpu := PrioritizeAndTruncate(gpus, codec.gpu, GpuMetrics(), CLIENT_REPORT_MAX_GPUS);
      changed := c1 || c2 || c3 || c4;
    }

    method BoundHardwareOfReport() returns (changed: bool)
      modifies this`hardware
      ensures hardware == if old(hardware).Some? then Some(BoundHardware(old(hardware).value, collectedAt).0) else None
      ensures changed <==> old(hardware).Some? && BoundHardware(old(hardware).value, collectedAt).1
    {
      changed := false;
      if hardware.Some? {
        var bounded;
        bounded, changed := BoundInventory(hardware.value, collectedAt);
        hardware := Some(bounded);
      }
    }

    method PushMarker(codec: Codec)
      modifies this`capabilities, this`collectorErrors
      ensures Value() == Mark(codec, old(Value()))
    {
      capabilities := capabilities + [MARKER];
      collectorErrors := if collectorErrors < U64_MAX then collectorErrors + 1 else collectorErrors;
      capabilities := Sort(capabilities, CapabilityOrder(codec));
      var kept, _ := TruncateList(capabilities, CLIENT_REPORT_MAX_CAPABILITIES);
      capabilities := kept;
    }

    method BoundParts() returns (changed: bool)
      modifies this`hardware, this`cpu
      ensures PartsBounded(Value(), old(Value()))
      ensures changed <==> PartsChanged(old(Value()))
    {
      var hardwareChanged := BoundHardwareOfReport();
      var coresChanged := BoundCores();
      changed := hardwareChanged || coresChanged;
    }

    method BoundLists(codec: Codec) returns (changed: bool, network: nat, disk: nat, temperature: nat, gpu: nat)
      requires Lawful(codec)
      modifies this`capabilities, this`networks, this`disks, this`temperatures, this`gpus
      ensures ListsBounded(codec, Value(), old(Value()))
      ensures changed <==> ListsChanged(codec, old(Value()))
      ensures network == AtMost(AnchorCount(old(networks), ByKey(codec.network), NetworkMetrics()), |networks|)
      ensures disk == AtMost(AnchorCount(old(disks), ByKey(codec.disk), DiskMetrics()), |disks|)
      ensures temperature ==
                AtMost(AnchorCount(old(temperatures), ByKey(codec.temperature), TemperatureMetrics()), |temperatures|)
      ensures gpu == AtMost(AnchorCount(old(gpus), ByKey(codec.gpu), GpuMetrics()), |gpus|)
    {
      var capabilitiesChanged := BoundCapabilities(codec);
      var listsChanged;
      listsChanged, network, disk, temperature, gpu := PrioritizeLists(codec);
      changed := capabilitiesChanged || listsChanged;
    }

    /** The structural rules, and the anchor counts the byte limit must respect. */
    method Restructure(codec: Codec) returns (changed: bool, network: nat, disk: nat, temperature: nat, gpu: nat)
      requires Lawful(codec)
      modifies this
      ensures Value() == Structured(codec, old(Value()))
      ensures changed <==> StructureChanged(codec, old(Value()))
      ensures network == AtMost(AnchorCount(old(networks), ByKey(codec.network), NetworkMetrics()), |networks|)
      ensures disk == AtMost(AnchorCount(old(disks), ByKey(codec.disk), DiskMetrics()), |disks|)
      ensures temperature ==
                AtMost(AnchorCount(old(temperatures), ByKey(codec.temperature), TemperatureMetrics()), |temperatures|)
      ensures gpu == AtMost(AnchorCount(old(gpus), ByKey(codec.gpu), GpuMetrics()), |gpus|)
    {
      ghost var n := Value();
      var partsChanged := BoundParts();
      var listsChanged;
      listsChanged, network, disk, temperature, gpu := BoundLists(codec);
      changed := partsChanged || listsChanged;
      IsStructured(codec, Value(), n);
      StructureChangedExactly(codec, n);
    }

    /** Everything up to the fitting: normal, in order and marked if that lost anything; and what fitting must keep. */
    method Prepare(codec: Codec, now: Time, clampFuture: bool)
      returns (changed: bool, network: nat, disk: nat, temperature: nat, gpu: nat)
      requires Lawful(codec)
      modifies this
      ensures Value() == Unfitted(codec, old(Value()), now, clampFuture)
      ensures changed == Changed(codec, old(Value()), now, clampFuture)
      ensures FitCanonical(codec, Value(), Normalized(old(Value()), now, clampFuture)) ==
                Fit(codec, Value(), network, disk, temperature, gpu)
    {
      ghost var r := Value();
      var alreadyMarked := exists i | 0 <= i < |capabilities| :: IsMarker(capabilities[i]);
      changed := NormalizeScalarsAndText(now, clampFuture);
      var restructured;
      restructured, network, disk, temperature, gpu := Restructure(codec);
      changed := changed || restructured;
      ghost var structured := Value();
      if Size(codec, Value()) > CLIENT_REPORT_MAX_BODY_BYTES {
        changed := true;
      }
      if changed && !alreadyMarked {
        PushMarker(codec);
      }
      IsBounded(codec, r, now, clampFuture, structured, changed, Value());
    }

    /** Make the report deterministic and acceptable to the server; whether anything was changed or discarded. */
    method BoundReport(codec: Codec, now: Time, clampFuture: bool) returns (changed: bool)
      requires Lawful(codec)
      modifies this
      ensures (Value(), changed) == Bounded(codec, old(Value()), now, clampFuture)
      ensures ReportFrom(codec, Value(), old(Value()), now, clampFuture,
                         Fits(codec, Unfitted(codec, old(Value()), now, clampFuture)), changed)
    {
      BoundedValues(codec, Value(), now, clampFuture);
      var network, disk, temperature, gpu;
      changed, network, disk, temperature, gpu := Prepare(codec, now, clampFuture);
      FitBody(codec, network, disk, temperature, gpu);
    }
  }

  method PrioritizeAndTruncate<T(!new, ==)>(values: seq<T>, key: T -> seq<Symbol>, metrics: seq<Metric<T>>, maximum: nat)
    returns (kept: seq<T>, changed: bool, anchors: nat)
    requires Injective(key)
    ensures kept == Truncate(Prioritized(values, ByKey(key), metrics), maximum)
    ensures changed <==> |values| > maximum
    ensures anchors == AtMost(AnchorCount(values, ByKey(key), metrics), |kept|)
  {
    kept, anchors := PrioritizeByMetrics(values, key, metrics);
    assert |kept| == |values| by {
      ByKeyOrders(key);
      PrioritizedFacts(values, ByKey(key), metrics);
    }
    kept, changed := TruncateList(kept, maximum);
    anchors := if anchors > |kept| then |kept| else anchors;
  }

  /** The bounded copy and the exact bytes to send, or why there are none. */
  method EncodeReportBody(codec: Codec, report: Report, now: Time, clampFuture: bool)
    returns (encoded: Result<(Report, seq<Symbol>), EncodeError>)
    requires Lawful(codec)
    ensures encoded == Encode(codec, report, now, clampFuture)
    ensures encoded == Failure(UnsupportedSchema) <==> report.schemaVersion != CLIENT_REPORT_SCHEMA_VERSION
    ensures encoded.Success? ==>
              encoded.value.1 == codec.report(encoded.value.0) && |encoded.value.1| <= CLIENT_REPORT_MAX_BODY_BYTES
    ensures encoded.Success? ==>
              exists lossy :: ReportFrom(codec, encoded.value.0, report, now, clampFuture,
                                         Fits(codec, Unfitted(codec, report, now, clampFuture)), lossy)
  {
    if report.schemaVersion != CLIENT_REPORT_SCHEMA_VERSION {
      return Failure(UnsupportedSchema);
    }
    var bounded := new ClientReport(report);
    var _ := bounded.BoundReport(codec, now, clampFuture);
    var body := codec.report(bounded.Value());
    if |body| > CLIENT_REPORT_MAX_BODY_BYTES {
      return Failure(TooLarge);
    }
    return Success((bounded.Value(), body));
  }
}
