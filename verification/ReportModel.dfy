/** The report documents and the limits of the shared wire contract. */
module ReportModel {
  import opened Wrappers
  import opened ReportText

  type Positive = n: nat | n > 0 witness 1

  // The limits live in the shared protocol crate; any values with these bounds will do.
  const CLIENT_REPORT_SCHEMA_VERSION: nat
  const CLIENT_REPORT_MAX_BODY_BYTES: nat
  const CLIENT_REPORT_MAX_HOST_OS_BYTES: Positive
  const CLIENT_REPORT_MAX_HOST_VERSION_BYTES: Positive
  const CLIENT_REPORT_MAX_HOST_ARCH_BYTES: Positive
  const CLIENT_REPORT_MAX_CLIENT_VERSION_BYTES: Positive
  const CLIENT_REPORT_MAX_CAPABILITY_NAME_BYTES: MarkerNameLimit
  const CLIENT_REPORT_MAX_CAPABILITY_SOURCE_BYTES: MarkerSourceLimit
  const CLIENT_REPORT_MAX_CAPABILITY_MESSAGE_BYTES: MarkerMessageLimit
  const CLIENT_REPORT_MAX_NETWORK_NAME_BYTES: Positive
  const CLIENT_REPORT_MAX_DISK_NAME_BYTES: Positive
  const CLIENT_REPORT_MAX_MOUNT_POINT_BYTES: Positive
  const CLIENT_REPORT_MAX_FILE_SYSTEM_BYTES: Positive
  const CLIENT_REPORT_MAX_TEMPERATURE_ID_BYTES: Positive
  const CLIENT_REPORT_MAX_TEMPERATURE_LABEL_BYTES: Positive
  const CLIENT_REPORT_MAX_TEMPERATURE_SOURCE_BYTES: Positive
  const CLIENT_REPORT_MAX_GPU_ID_BYTES: Positive
  const CLIENT_REPORT_MAX_GPU_VENDOR_BYTES: Positive
  const CLIENT_REPORT_MAX_GPU_NAME_BYTES: Positive
  const CLIENT_REPORT_MAX_GPU_SOURCE_BYTES: Positive
  const CLIENT_REPORT_MAX_CPU_CORES: Positive
  const CLIENT_REPORT_MAX_CAPABILITIES: Positive
  const CLIENT_REPORT_MAX_NETWORKS: AtLeastTwo
  const CLIENT_REPORT_MAX_DISKS: AtLeastTwo
  const CLIENT_REPORT_MAX_TEMPERATURES: Positive
  const CLIENT_REPORT_MAX_GPUS: AtLeastTwo
  const CLIENT_REPORT_INTERVAL_SECONDS: Interval
  const MAX_HARDWARE_TEXT: Positive
  const MAX_MEMORY_MODULES: Positive
  const MAX_HARDWARE_DEVICES: Positive
  const MAX_HARDWARE_NETWORKS: Positive
  const MAX_HARDWARE_SENSORS: Positive
  const MAX_HARDWARE_DISKS: Positive
  const MAX_IP_ADDRESSES: nat := 64

  /** A list with two summary metrics can keep both maxima. */
  type AtLeastTwo = n: nat | n >= 2 witness 2
  type Interval = i: (real, real) | i.0 <= i.1 witness (1.0, 1.0)

  const TRUNCATED_CAPABILITY := "client.report.truncated"
  const TRUNCATED_SOURCE := "xsoc"
  const TRUNCATED_MESSAGE := "one or more collected values" + " were bounded to the current" + " report contract"

  // The truncation marker itself obeys the text limits.
  type MarkerNameLimit = n: nat | n >= |TRUNCATED_CAPABILITY| witness 23
  type MarkerSourceLimit = n: nat | n >= |TRUNCATED_SOURCE| witness 4
  type MarkerMessageLimit = n: nat | n >= |TRUNCATED_MESSAGE| witness 72

  /** Timestamps in microseconds. */
  type Time = int
  const FUTURE_TOLERANCE: int := 300_000_000

  /** Whether a text is an IP address and a prefix length in range, for the address parser of the platform. */
  const IsCidr: string -> bool

  datatype ErrorKind = InvalidData | NotPresent | Transient | OtherKind(code: nat)

  datatype Capability = Capability(name: string, available: bool, source: string, errorKind: Option<ErrorKind>,
                                   message: Option<string>)

  datatype Host = Host(id: string, os: string, osVersion: Option<string>, kernelVersion: Option<string>, arch: string,
                       clientVersion: string)

  datatype Cpu = Cpu(usagePercent: F64, logicalCount: nat, physicalCount: Option<nat>, perCorePercent: seq<F64>)

  datatype Memory = Memory(totalBytes: nat, usedBytes: nat, availableBytes: nat, swapTotalBytes: nat,
                           swapUsedBytes: nat)

  datatype Network = Network(name: string, receivedBytesTotal: nat, transmittedBytesTotal: nat,
                             receivedBytesPerSecond: F64, transmittedBytesPerSecond: F64,
                             packetsReceivedTotal: nat, packetsTransmittedTotal: nat,
                             receiveErrorsTotal: nat, transmitErrorsTotal: nat)

  datatype Volume = Volume(name: string, mountPoint: string, fileSystem: string, totalBytes: nat, availableBytes: nat,
                           readBytesTotal: nat, writtenBytesTotal: nat,
                           readBytesPerSecond: F64, writtenBytesPerSecond: F64, isReadOnly: bool)

  datatype Temperature = Temperature(id: string, caption: string, celsius: Option<F64>, maxCelsius: Option<F64>,
                                     criticalCelsius: Option<F64>, source: string)

  datatype Gpu = Gpu(id: string, vendor: string, name: string, utilizationPercent: Option<F64>,
                     memoryTotalBytes: Option<nat>, memoryUsedBytes: Option<nat>, temperatureCelsius: Option<F64>,
                     powerWatts: Option<F64>, coreClockMhz: Option<F64>, memoryClockMhz: Option<F64>,
                     pcieRxBytesPerSecond: Option<F64>, pcieTxBytesPerSecond: Option<F64>, source: string)

  /** `details`: locator, model, vendor, memory type, module version, form factor, reported speed. */
  datatype MemoryModule = MemoryModule(id: string, source: string, details: seq<Option<string>>,
                                       capacityBytes: Option<nat>, speedMtS: Option<F64>,
                                       configuredSpeedMtS: Option<F64>)

  /** `details`: model, vendor, vendor id, product id, revision, version, bus, driver, connection. */
  datatype Device = Device(id: string, kind: nat, name: string, source: string, details: seq<Option<string>>,
                           speedMbps: Option<F64>)

  datatype CpuHardware = CpuHardware(model: Option<string>, vendor: Option<string>, frequencyMhz: Option<F64>,
                                     maxFrequencyMhz: Option<F64>, perCoreFrequencyMhz: seq<Option<F64>>,
                                     loadAverage: Option<seq<F64>>)

  datatype NetworkHardware = NetworkHardware(name: string, macAddress: Option<string>,
                                             operationalState: Option<string>, linkSpeedMbps: Option<F64>,
                                             ipAddresses: seq<string>)

  datatype Adapter = Adapter(id: string, name: string, interfaceName: Option<string>, macAddress: Option<string>,
                             linkSpeedMbps: Option<F64>, source: string)

  datatype SensorKind = VoltageVolts | CurrentAmps | OtherSensor(code: nat)

  datatype Sensor = Sensor(id: string, caption: string, kind: SensorKind, value: F64, source: string)

  datatype DiskHealth = DiskHealth(collectedAt: Time, device: string, source: string, model: Option<string>,
                                   serialNumber: Option<string>, protocol: Option<string>,
                                   temperatureCelsius: Option<F64>, percentageUsed: Option<F64>,
                                   availableSparePercent: Option<F64>)

  datatype Hardware = Hardware(collectedAt: Time, inventoryCollectedAt: Option<Time>, cpu: CpuHardware,
                               networks: seq<NetworkHardware>, physicalNetworks: seq<Adapter>, sensors: seq<Sensor>,
                               diskHealth: seq<DiskHealth>, memoryModules: seq<MemoryModule>, devices: seq<Device>)

  datatype Report = Report(schemaVersion: nat, reportId: string, collectedAt: Time, host: Host, intervalSeconds: F64,
                           uptimeSeconds: nat, cpu: Cpu, memory: Memory, hardware: Option<Hardware>,
                           networks: seq<Network>, disks: seq<Volume>, temperatures: seq<Temperature>,
                           gpus: seq<Gpu>, capabilities: seq<Capability>,
                           spoolPendingBatches: nat, collectorErrors: nat)
}
