/**
 A lawful serialiser exists, so nothing proved for every lawful serialiser is proved of none: reports are read as
 trees of numbers and lists, and trees are written with a tag and a length in front.
 */
module ReportWitness {
  import opened Wrappers
  import opened Sorting
  import opened ReportText
  import opened ReportModel
  import opened ReportHardware
  import opened ReportContract

  datatype Tree = Number(value: real) | List(items: seq<Tree>)

  function Flat(t: Tree): seq<Symbol> {
    match t
    case Number(value) => [0.0, value]
    case List(items) => [1.0, |items| as real] + FlatAll(items)
  }

  function FlatAll(ts: seq<Tree>): seq<Symbol> {
    if ts == [] then [] else Flat(ts[0]) + FlatAll(ts[1..])
  }

  /** No written tree is the beginning of another. */
  lemma {:induction false} FlatUnique(a: Tree, b: Tree, x: seq<Symbol>, y: seq<Symbol>)
    requires Flat(a) + x == Flat(b) + y
    ensures a == b && x == y
  {
    var s := Flat(a) + x;
    assert s[0] == Flat(a)[0] == Flat(b)[0] && s[1] == Flat(a)[1] == Flat(b)[1];
    match a
    case Number(value) =>
      assert (Flat(a) + x)[2..] == x && (Flat(b) + y)[2..] == y;
    case List(items) =>
      assert (Flat(a) + x)[2..] == FlatAll(items) + x;
      assert (Flat(b) + y)[2..] == FlatAll(b.items) + y;
      FlatAllUnique(items, b.items, x, y);
  }

  lemma {:induction false} FlatAllUnique(a: seq<Tree>, b: seq<Tree>, x: seq<Symbol>, y: seq<Symbol>)
    requires |a| == |b| && FlatAll(a) + x == FlatAll(b) + y
    ensures a == b && x == y
  {
    if a == [] {
      assert FlatAll(a) + x == x && FlatAll(b) + y == y;
    } else {
      assert FlatAll(a) + x == Flat(a[0]) + (FlatAll(a[1..]) + x);
      assert FlatAll(b) + y == Flat(b[0]) + (FlatAll(b[1..]) + y);
      FlatUnique(a[0], b[0], FlatAll(a[1..]) + x, FlatAll(b[1..]) + y);
      FlatAllUnique(a[1..], b[1..], x, y);
      assert a == [a[0]] + a[1..] && b == [b[0]] + b[1..];
    }
  }

  // ----- Trees of values -----

  function OfNat(n: nat): Tree { Number(n as real) }
  function OfInt(n: int): Tree { Number(n as real) }
  function OfBool(b: bool): Tree { Number(if b then 1.0 else 0.0) }
  function OfChar(c: char): Tree { Number(c as int as real) }
  function OfText(s: string): Tree { List(Map(s, OfChar)) }

  function OfOption<T>(o: Option<T>, f: T -> Tree): Tree {
    if o.Some? then List([f(o.value)]) else List([])
  }

  function OfSeq<T>(xs: seq<T>, f: T -> Tree): Tree {
    List(Map(xs, f))
  }

  function OfF64(v: F64): Tree {
    match v
    case Fin(value) => Number(value)
    case NaN => List([])
    case PosInf => List([Number(0.0)])
    case NegInf => List([Number(1.0)])
  }

  lemma TextInjective()
    ensures Injective(OfText)
  {
    forall a, b | OfText(a) == OfText(b) ensures a == b {
      assert Map(a, OfChar) == Map(b, OfChar);
      assert |a| == |b|;
      forall i | 0 <= i < |a| ensures a[i] == b[i] {
        assert Map(a, OfChar)[i] == Map(b, OfChar)[i];
      }
    }
  }

  lemma OptionInjective<T(!new)>(f: T -> Tree)
    requires Injective(f)
    ensures forall a: Option<T>, b: Option<T> :: OfOption(a, f) == OfOption(b, f) ==> a == b
  {
    forall a: Option<T>, b: Option<T> | OfOption(a, f) == OfOption(b, f) ensures a == b {
      var x, y := OfOption(a, f).items, OfOption(b, f).items;
      assert |x| == |y|;
      if a.Some? {
        assert x[0] == y[0];
      }
    }
  }

  lemma SeqInjective<T(!new)>(f: T -> Tree)
    requires Injective(f)
    ensures forall a: seq<T>, b: seq<T> :: OfSeq(a, f) == OfSeq(b, f) ==> a == b
  {
    forall a: seq<T>, b: seq<T> | OfSeq(a, f) == OfSeq(b, f) ensures a == b {
      assert |Map(a, f)| == |Map(b, f)|;
      forall i | 0 <= i < |a| ensures a[i] == b[i] {
        assert Map(a, f)[i] == Map(b, f)[i];
      }
    }
  }

  /** The fields of equal records are equal. */
  lemma Fields(x: seq<Tree>, y: seq<Tree>)
    requires List(x) == List(y)
    ensures |x| == |y| && forall i | 0 <= i < |x| :: x[i] == y[i]
  {
  }

  function OptText(s: Option<string>): Tree { OfOption(s, OfText) }
  function OptF64(v: Option<F64>): Tree { OfOption(v, OfF64) }
  function OptNat(n: Option<nat>): Tree { OfOption(n, OfNat) }

  lemma Basics()
    ensures Injective(OfText) && Injective(OfNat) && Injective(OfF64) && Injective(OfBool) && Injective(OfInt)
    ensures Injective(OptText) && Injective(OptF64) && Injective(OptNat)
  {
    TextInjective();
    OptionInjective(OfText);
    OptionInjective(OfF64);
    OptionInjective(OfNat);
  }

  function OfErrorKind(e: ErrorKind): Tree {
    match e
    case InvalidData => List([])
    case NotPresent => List([Number(0.0)])
    case Transient => List([Number(1.0)])
    case OtherKind(code) => OfNat(code)
  }

  function OfCapability(c: Capability): Tree {
    List([OfText(c.name), OfBool(c.available), OfText(c.source), OfOption(c.errorKind, OfErrorKind), OptText(c.message)])
  }

  lemma CapabilityInjective()
    ensures Injective(OfCapability)
  {
    Basics();
    OptionInjective(OfErrorKind);
    forall a, b | OfCapability(a) == OfCapability(b) ensures a == b {
      Fields(OfCapability(a).items, OfCapability(b).items);
    }
  }

  function OfNetwork(n: Network): Tree {
    List([OfText(n.name), OfNat(n.receivedBytesTotal), OfNat(n.transmittedBytesTotal), OfF64(n.receivedBytesPerSecond),
          OfF64(n.transmittedBytesPerSecond), OfNat(n.packetsReceivedTotal), OfNat(n.packetsTransmittedTotal),
          OfNat(n.receiveErrorsTotal), OfNat(n.transmitErrorsTotal)])
  }

  lemma NetworkInjective()
    ensures Injective(OfNetwork)
  {
    Basics();
    forall a, b | OfNetwork(a) == OfNetwork(b) ensures a == b {
      Fields(OfNetwork(a).items, OfNetwork(b).items);
    }
  }

  function OfVolume(d: Volume): Tree {
    List([OfText(d.name), OfText(d.mountPoint), OfText(d.fileSystem), OfNat(d.totalBytes), OfNat(d.availableBytes),
          OfNat(d.readBytesTotal), OfNat(d.writtenBytesTotal), OfF64(d.readBytesPerSecond),
          OfF64(d.writtenBytesPerSecond), OfBool(d.isReadOnly)])
  }

  lemma VolumeInjective()
    ensures Injective(OfVolume)
  {
    Basics();
    forall a, b | OfVolume(a) == OfVolume(b) ensures a == b {
      Fields(OfVolume(a).items, OfVolume(b).items);
    }
  }

  function OfTemperature(t: Temperature): Tree {
    List([OfText(t.id), OfText(t.caption), OptF64(t.celsius), OptF64(t.maxCelsius), OptF64(t.criticalCelsius),
          OfText(t.source)])
  }

  lemma TemperatureInjective()
    ensures Injective(OfTemperature)
  {
    Basics();
    forall a, b | OfTemperature(a) == OfTemperature(b) ensures a == b {
      Fields(OfTemperature(a).items, OfTemperature(b).items);
    }
  }

  function OfGpu(g: Gpu): Tree {
    List([OfText(g.id), OfText(g.vendor), OfText(g.name), OptF64(g.utilizationPercent), OptNat(g.memoryTotalBytes),
          OptNat(g.memoryUsedBytes), OptF64(g.temperatureCelsius), OptF64(g.powerWatts), OptF64(g.coreClockMhz),
          OptF64(g.memoryClockMhz), OptF64(g.pcieRxBytesPerSecond), OptF64(g.pcieTxBytesPerSecond), OfText(g.source)])
  }

  lemma GpuInjective()
    ensures Injective(OfGpu)
  {
    Basics();
    forall a, b | OfGpu(a) == OfGpu(b) ensures a == b {
      Fields(OfGpu(a).items, OfGpu(b).items);
    }
  }

  // ----- The inventory -----

  function OfModule(m: MemoryModule): Tree {
    List([OfText(m.id), OfText(m.source), OfSeq(m.details, OptText), OptNat(m.capacityBytes), OptF64(m.speedMtS),
          OptF64(m.configuredSpeedMtS)])
  }

  lemma ModuleInjective()
    ensures Injective(OfModule)
  {
    Basics();
    SeqInjective(OptText);
    forall a, b | OfModule(a) == OfModule(b) ensures a == b {
      Fields(OfModule(a).items, OfModule(b).items);
    }
  }

  function OfDevice(d: Device): Tree {
    List([OfText(d.id), OfNat(d.kind), OfText(d.name), OfText(d.source), OfSeq(d.details, OptText), OptF64(d.speedMbps)])
  }

  lemma DeviceInjective()
    ensures Injective(OfDevice)
  {
    Basics();
    SeqInjective(OptText);
    forall a, b | OfDevice(a) == OfDevice(b) ensures a == b {
      Fields(OfDevice(a).items, OfDevice(b).items);
    }
  }

  function OfLoads(loads: seq<F64>): Tree { OfSeq(loads, OfF64) }

  function OfCpuHardware(c: CpuHardware): Tree {
    List([OptText(c.model), OptText(c.vendor), OptF64(c.frequencyMhz), OptF64(c.maxFrequencyMhz),
          OfSeq(c.perCoreFrequencyMhz, OptF64), OfOption(c.loadAverage, OfLoads)])
  }

  lemma CpuHardwareInjective()
    ensures Injective(OfCpuHardware)
  {
    Basics();
    SeqInjective(OptF64);
    SeqInjective(OfF64);
    OptionInjective(OfLoads);
    forall a, b | OfCpuHardware(a) == OfCpuHardware(b) ensures a == b {
      Fields(OfCpuHardware(a).items, OfCpuHardware(b).items);
    }
  }

  function OfNetworkHardware(n: NetworkHardware): Tree {
    List([OfText(n.name), OptText(n.macAddress), OptText(n.operationalState), OptF64(n.linkSpeedMbps),
          OfSeq(n.ipAddresses, OfText)])
  }

  lemma NetworkHardwareInjective()
    ensures Injective(OfNetworkHardware)
  {
    Basics();
    SeqInjective(OfText);
    forall a, b | OfNetworkHardware(a) == OfNetworkHardware(b) ensures a == b {
      Fields(OfNetworkHardware(a).items, OfNetworkHardware(b).items);
    }
  }

  function OfAdapter(n: Adapter): Tree {
    List([OfText(n.id), OfText(n.name), OptText(n.interfaceName), OptText(n.macAddress), OptF64(n.linkSpeedMbps),
          OfText(n.source)])
  }

  lemma AdapterInjective()
    ensures Injective(OfAdapter)
  {
    Basics();
    forall a, b | OfAdapter(a) == OfAdapter(b) ensures a == b {
      Fields(OfAdapter(a).items, OfAdapter(b).items);
    }
  }

  function OfSensorKind(k: SensorKind): Tree {
    match k
    case VoltageVolts => List([])
    case CurrentAmps => List([Number(0.0)])
    case OtherSensor(code) => OfNat(code)
  }

  function OfSensor(s: Sensor): Tree {
    List([OfText(s.id), OfText(s.caption), OfSensorKind(s.kind), OfF64(s.value), OfText(s.source)])
  }

  lemma SensorInjective()
    ensures Injective(OfSensor)
  {
    Basics();
    forall a, b | OfSensor(a) == OfSensor(b) ensures a == b {
      Fields(OfSensor(a).items, OfSensor(b).items);
    }
  }

  function OfDiskHealth(d: DiskHealth): Tree {
    List([OfInt(d.collectedAt), OfText(d.device), OfText(d.source), OptText(d.model), OptText(d.serialNumber),
          OptText(d.protocol), OptF64(d.temperatureCelsius), OptF64(d.percentageUsed), OptF64(d.availableSparePercent)])
  }

  lemma DiskHealthInjective()
    ensures Injective(OfDiskHealth)
  {
    Basics();
    forall a, b | OfDiskHealth(a) == OfDiskHealth(b) ensures a == b {
      Fields(OfDiskHealth(a).items, OfDiskHealth(b).items);
    }
  }

  function OfInventory(h: Hardware): Tree {
    List([OfSeq(h.memoryModules, OfModule), OfSeq(h.devices, OfDevice), OfSeq(h.networks, OfNetworkHardware),
          OfSeq(h.physicalNetworks, OfAdapter), OfSeq(h.sensors, OfSensor), OfSeq(h.diskHealth, OfDiskHealth)])
  }

  function OfHardware(h: Hardware): Tree {
    List([OfInt(h.collectedAt), OfOption(h.inventoryCollectedAt, OfInt), OfCpuHardware(h.cpu), OfInventory(h)])
  }

  lemma InventoryLists(a: Hardware, b: Hardware)
    requires OfInventory(a) == OfInventory(b)
    ensures a.memoryModules == b.memoryModules && a.devices == b.devices && a.networks == b.networks
    ensures a.physicalNetworks == b.physicalNetworks && a.sensors == b.sensors && a.diskHealth == b.diskHealth
  {
    Fields(OfInventory(a).items, OfInventory(b).items);
    assert forall i | 0 <= i < 6 :: OfInventory(a).items[i] == OfInventory(b).items[i];
    ModuleInjective();
    DeviceInjective();
    NetworkHardwareInjective();
    AdapterInjective();
    SensorInjective();
    DiskHealthInjective();
    SeqInjective(OfModule);
    SeqInjective(OfDevice);
    SeqInjective(OfNetworkHardware);
    SeqInjective(OfAdapter);
    SeqInjective(OfSensor);
    SeqInjective(OfDiskHealth);
  }

  lemma HardwareInjective()
    ensures Injective(OfHardware)
  {
    Basics();
    OptionInjective(OfInt);
    CpuHardwareInjective();
    forall a, b | OfHardware(a) == OfHardware(b) ensures a == b {
      Fields(OfHardware(a).items, OfHardware(b).items);
      InventoryLists(a, b);
    }
  }

  // ----- The report -----

  function OfHost(h: Host): Tree {
    List([OfText(h.id), OfText(h.os), OptText(h.osVersion), OptText(h.kernelVersion), OfText(h.arch),
          OfText(h.clientVersion)])
  }

  function OfCpu(c: Cpu): Tree {
    List([OfF64(c.usagePercent), OfNat(c.logicalCount), OptNat(c.physicalCount), OfSeq(c.perCorePercent, OfF64)])
  }

  function OfMemory(m: Memory): Tree {
    List([OfNat(m.totalBytes), OfNat(m.usedBytes), OfNat(m.availableBytes), OfNat(m.swapTotalBytes), OfNat(m.swapUsedBytes)])
  }

  lemma SystemInjective()
    ensures Injective(OfHost) && Injective(OfCpu) && Injective(OfMemory)
  {
    Basics();
    SeqInjective(OfF64);
    forall a, b | OfHost(a) == OfHost(b) ensures a == b { Fields(OfHost(a).items, OfHost(b).items); }
    forall a, b | OfCpu(a) == OfCpu(b) ensures a == b { Fields(OfCpu(a).items, OfCpu(b).items); }
    forall a, b | OfMemory(a) == OfMemory(b) ensures a == b { Fields(OfMemory(a).items, OfMemory(b).items); }
  }

  function OfLists(r: Report): Tree {
    List([OfSeq(r.networks, OfNetwork), OfSeq(r.disks, OfVolume), OfSeq(r.temperatures, OfTemperature),
          OfSeq(r.gpus, OfGpu), OfSeq(r.capabilities, OfCapability)])
  }

  lemma ReportLists(a: Report, b: Report)
    requires OfLists(a) == OfLists(b)
    ensures a.networks == b.networks && a.disks == b.disks && a.temperatures == b.temperatures
    ensures a.gpus == b.gpus && a.capabilities == b.capabilities
  {
    Fields(OfLists(a).items, OfLists(b).items);
    assert forall i | 0 <= i < 5 :: OfLists(a).items[i] == OfLists(b).items[i];
    NetworkInjective();
    VolumeInjective();
    TemperatureInjective();
    GpuInjective();
    CapabilityInjective();
    SeqInjective(OfNetwork);
    SeqInjective(OfVolume);
    SeqInjective(OfTemperature);
    SeqInjective(OfGpu);
    SeqInjective(OfCapability);
  }

  function OfReport(r: Report): Tree {
    List([OfNat(r.schemaVersion), OfText(r.reportId), OfInt(r.collectedAt), OfHost(r.host), OfF64(r.intervalSeconds),
          OfNat(r.uptimeSeconds), OfCpu(r.cpu), OfMemory(r.memory), OfOption(r.hardware, OfHardware), OfLists(r),
          OfNat(r.spoolPendingBatches), OfNat(r.collectorErrors)])
  }

  lemma ReportInjective()
    ensures Injective(OfReport)
  {
    Basics();
    SystemInjective();
    HardwareInjective();
    OptionInjective(OfHardware);
    forall a, b | OfReport(a) == OfReport(b) ensures a == b {
      Fields(OfReport(a).items, OfReport(b).items);
      ReportLists(a, b);
    }
  }

  // ----- The serialiser -----

  function Written<T>(tree: T -> Tree): T -> seq<Symbol> {
    x => Flat(tree(x))
  }

  lemma WrittenInjective<T(!new)>(tree: T -> Tree)
    requires Injective(tree)
    ensures Injective(Written(tree))
  {
    var write := Written(tree);
    forall a, b | write(a) == write(b) ensures a == b {
      assert Flat(tree(a)) + [] == Flat(tree(b)) + [];
      FlatUnique(tree(a), tree(b), [], []);
    }
  }

  /** Reading a document back: the report it was written from, if there is one. */
  ghost function Read(write: Report -> seq<Symbol>, document: seq<Symbol>): Option<Report> {
    if exists r :: write(r) == document then
      var r :| write(r) == document;
      Some(r)
    else None
  }

  lemma LawfulCodecExists() returns (codec: Codec)
    ensures Lawful(codec)
  {
    NetworkInjective();
    VolumeInjective();
    TemperatureInjective();
    GpuInjective();
    CapabilityInjective();
    ReportInjective();
    WrittenInjective(OfNetwork);
    WrittenInjective(OfVolume);
    WrittenInjective(OfTemperature);
    WrittenInjective(OfGpu);
    WrittenInjective(OfCapability);
    WrittenInjective(OfReport);
    var write := Written(OfReport);
    codec := Codec(Written(OfCapability), Written(OfNetwork), Written(OfVolume), Written(OfTemperature), Written(OfGpu),
                   write, d => Read(write, d),
                   d => if Read(write, d).Some? then Some(Read(write, d).value.schemaVersion) else None);
    forall r ensures codec.parse(codec.report(r)) == Some(r) {
      assert write(r) == codec.report(r);
    }
  }
}
