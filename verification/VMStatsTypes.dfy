/** The values the VMStats pipeline passes around: VMIs, pods, and the statistics
    of one VMI as the virt-handler reports them. A Go field pair `XSet`/`X` is one
    `Option`; a field the collectors never read is not modelled. */
module VMStatsTypes {
  import opened Collections

  datatype VMI = VMI(namespace: string, name: string, node: string, labels: map<string, string>)

  datatype Pod = Pod(labels: map<string, string>, nodeName: string, phase: string, podIP: string)

  datatype Vcpu = Vcpu(state: int, time: Option<nat>, wait: Option<nat>, delay: Option<nat>)

  datatype Net = Net(
    name: Option<string>, alias: Option<string>,
    rxBytes: Option<nat>, txBytes: Option<nat>, rxPkts: Option<nat>, txPkts: Option<nat>,
    rxErrs: Option<nat>, txErrs: Option<nat>, rxDrop: Option<nat>, txDrop: Option<nat>)

  /** `alias` has no set flag in the source: the empty string means none. */
  datatype Block = Block(
    name: Option<string>, alias: string,
    rdReqs: Option<nat>, wrReqs: Option<nat>, rdBytes: Option<nat>, wrBytes: Option<nat>,
    rdTimes: Option<nat>, wrTimes: Option<nat>, flReqs: Option<nat>, flTimes: Option<nat>)

  datatype GuestDisk = GuestDisk(name: string, mountpoint: string, total: nat, used: nat)

  datatype GuestInterface = GuestInterface(name: string, mac: string, addresses: seq<string>)

  datatype OsInfo = OsInfo(name: string, version: string, id: string, kernelRelease: string, machine: string)

  datatype Timezone = Timezone(zone: string, offset: int)

  /** The metrics a VMI has at most one plain sample of. */
  datatype PlainMetric =
    | CpuUsage | CpuUserUsage | CpuSystemUsage | GuestLoad1m | GuestLoad5m | GuestLoad15m
    | MemoryResident | MemoryAvailable | MemoryUnused | MemoryCached | MemorySwapIn | MemorySwapOut
    | MemoryMajorFaults | MemoryMinorFaults | MemoryBalloon | MemoryUsable | MemoryDomain
    | DirtyRate

  /** `numbers` holds the plain readings whose set flag is true, already converted
      to the unit of the metric; the guest fields hold the decoded guest-agent answers,
      `None` when the agent gave none or it did not decode. */
  datatype VMStats = VMStats(
    numbers: map<PlainMetric, real>,
    vcpu: seq<Vcpu>,
    net: seq<Net>,
    block: seq<Block>,
    guestOs: Option<OsInfo>,
    guestHostname: Option<string>,
    guestTimezone: Option<Timezone>,
    guestUsers: Option<nat>,
    guestDisks: seq<GuestDisk>,
    guestInterfaces: seq<GuestInterface>)

  /** One value of the map a virt-handler answers with. */
  datatype VMStatsResult = VMStatsResult(stats: Option<VMStats>, error: string)

  datatype CachedStats = CachedStats(vmi: VMI, stats: VMStats)

  type Cache = map<string, CachedStats>
}
