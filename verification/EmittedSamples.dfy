/** What a scrape emits, spelled out sample by sample: which metrics, of which devices, with which values and
    labels, on the statistics alone. */
module EmittedSamples {
  import opened Collections
  import opened VMStatsTypes
  import opened Collectors

  /** A sample of the interface: one of its set fields, under its alias if that is set and under its name if not. */
  ghost predicate OfInterface(r: Report, n: Net, x: Sample) {
    && n.name.Some?
    && x.labels == MergedLabels(r, map["interface" := if n.alias.Some? then n.alias.value else n.name.value])
    && match x.metric
       case NetReceiveBytes => n.rxBytes.Some? && x.value == n.rxBytes.value as real
       case NetTransmitBytes => n.txBytes.Some? && x.value == n.txBytes.value as real
       case NetReceivePackets => n.rxPkts.Some? && x.value == n.rxPkts.value as real
       case NetTransmitPackets => n.txPkts.Some? && x.value == n.txPkts.value as real
       case NetReceiveErrors => n.rxErrs.Some? && x.value == n.rxErrs.value as real
       case NetTransmitErrors => n.txErrs.Some? && x.value == n.txErrs.value as real
       case NetReceiveDropped => n.rxDrop.Some? && x.value == n.rxDrop.value as real
       case NetTransmitDropped => n.txDrop.Some? && x.value == n.txDrop.value as real
       case _ => false
  }

  /** A sample of the drive: one of its set fields, under its alias unless that is empty; times in seconds. */
  ghost predicate OfDrive(r: Report, b: Block, x: Sample) {
    && b.name.Some?
    && x.labels == MergedLabels(r, map["drive" := if b.alias != "" then b.alias else b.name.value])
    && match x.metric
       case IopsRead => b.rdReqs.Some? && x.value == b.rdReqs.value as real
       case IopsWrite => b.wrReqs.Some? && x.value == b.wrReqs.value as real
       case ReadTrafficBytes => b.rdBytes.Some? && x.value == b.rdBytes.value as real
       case WriteTrafficBytes => b.wrBytes.Some? && x.value == b.wrBytes.value as real
       case ReadTimesSeconds => b.rdTimes.Some? && x.value == b.rdTimes.value as real / 1_000_000_000.0
       case WriteTimesSeconds => b.wrTimes.Some? && x.value == b.wrTimes.value as real / 1_000_000_000.0
       case FlushRequests => b.flReqs.Some? && x.value == b.flReqs.value as real
       case FlushTimesSeconds => b.flTimes.Some? && x.value == b.flTimes.value as real / 1_000_000_000.0
       case _ => false
  }

  /** A sample of the vCPU with the index: its id in decimal, the time with the state's text. */
  ghost predicate OfVcpu(r: Report, index: nat, v: Vcpu, x: Sample) {
    match x.metric
    case VcpuSeconds =>
      && v.time.Some? && x.value == v.time.value as real / 1_000_000_000.0
      && x.labels == MergedLabels(r, map["id" := Decimal(index),
           "state" := if v.state == 0 then "offline" else if v.state == 1 then "running"
                      else if v.state == 2 then "blocked" else "unknown"])
    case VcpuWaitSeconds =>
      && v.wait.Some? && x.value == v.wait.value as real / 1_000_000_000.0
      && x.labels == MergedLabels(r, map["id" := Decimal(index)])
    case VcpuDelaySeconds =>
      && v.delay.Some? && x.value == v.delay.value as real / 1_000_000_000.0
      && x.labels == MergedLabels(r, map["id" := Decimal(index)])
    case _ => false
  }

  ghost predicate OfGuestDisk(r: Report, d: GuestDisk, x: Sample) {
    && x.labels == MergedLabels(r, map["disk_name" := d.name, "mountpoint" := d.mountpoint])
    && match x.metric
       case DiskTotalBytes => x.value == d.total as real
       case DiskUsedBytes => x.value == d.used as real
       case _ => false
  }

  ghost predicate OfGuestInterface(r: Report, f: GuestInterface, x: Sample) {
    && x.metric == InterfaceInfo && x.value == 1.0
    && x.labels == MergedLabels(r, map["interface_name" := f.name, "mac" := f.mac,
         "ip_address" := if f.addresses == [] then "" else f.addresses[0]])
  }

  /** A plain reading, without labels of its own. */
  ghost predicate OfPlain(r: Report, x: Sample) {
    && x.metric.Plain? && x.metric.metric in r.stats.numbers
    && x.value == r.stats.numbers[x.metric.metric] && x.labels == MergedLabels(r, map[])
  }

  ghost predicate OfGuest(r: Report, x: Sample) {
    match x.metric
    case OsInfoMetric =>
      && r.stats.guestOs.Some? && x.value == 1.0
      && var os := r.stats.guestOs.value;
      x.labels == MergedLabels(r, map["os_name" := os.name, "os_version" := os.version, "os_id" := os.id,
        "kernel_release" := os.kernelRelease, "machine" := os.machine])
    case HostnameMetric =>
      && r.stats.guestHostname.Some? && x.value == 1.0
      && x.labels == MergedLabels(r, map["hostname" := r.stats.guestHostname.value])
    case TimezoneMetric =>
      && r.stats.guestTimezone.Some? && x.value == 1.0
      && x.labels == MergedLabels(r, map["timezone" := r.stats.guestTimezone.value.zone,
           "offset" := DecimalInt(r.stats.guestTimezone.value.offset)])
    case UserCount =>
      r.stats.guestUsers.Some? && x.value == r.stats.guestUsers.value as real && x.labels == MergedLabels(r, map[])
    case _ => false
  }

  ghost predicate NetworkSample(r: Report, x: Sample) {
    exists i :: 0 <= i < |r.stats.net| && OfInterface(r, r.stats.net[i], x)
  }

  ghost predicate BlockSample(r: Report, x: Sample) {
    exists i :: 0 <= i < |r.stats.block| && OfDrive(r, r.stats.block[i], x)
  }

  ghost predicate VcpuSample(r: Report, x: Sample) {
    exists i :: 0 <= i < |r.stats.vcpu| && OfVcpu(r, i, r.stats.vcpu[i], x)
  }

  ghost predicate GuestDiskSample(r: Report, x: Sample) {
    exists i :: 0 <= i < |r.stats.guestDisks| && OfGuestDisk(r, r.stats.guestDisks[i], x)
  }

  ghost predicate GuestInterfaceSample(r: Report, x: Sample) {
    exists i :: 0 <= i < |r.stats.guestInterfaces| && OfGuestInterface(r, r.stats.guestInterfaces[i], x)
  }

  ghost predicate EntrySample(r: Report, x: Sample) {
    || OfPlain(r, x) || VcpuSample(r, x) || NetworkSample(r, x) || BlockSample(r, x)
    || OfGuest(r, x) || GuestDiskSample(r, x) || GuestInterfaceSample(r, x)
  }

  // --- Rows ---

  /** Of the reading of its metric a sample is in the row, or not at all. */
  lemma RowAt(r: Report, readings: seq<Reading>, i: nat, x: Sample)
    requires DistinctMetrics(readings) && i < |readings| && x.metric == readings[i].metric
    ensures x in Row(r, readings) <==>
      readings[i].value == Some(x.value) && x.labels == MergedLabels(r, readings[i].extra)
  {
    InRow(r, readings, x);
    if x in Row(r, readings) {
      var j :| 0 <= j < |readings| && x in Emit(r, readings[j]);
      assert j == i;
    }
    assert x in Emit(r, readings[i]) <==>
      readings[i].value == Some(x.value) && x.labels == MergedLabels(r, readings[i].extra);
  }

  lemma RowWithout(r: Report, readings: seq<Reading>, x: Sample)
    requires forall i :: 0 <= i < |readings| ==> readings[i].metric != x.metric
    ensures x !in Row(r, readings)
  {
    InRow(r, readings, x);
  }

  lemma InRows(r: Report, table: seq<seq<Reading>>, x: Sample)
    ensures x in TableSamples(r, table) <==> exists i :: 0 <= i < |table| && x in Row(r, table[i])
  {
    var rows := seq(|table|, i requires 0 <= i < |table| => Row(r, table[i]));
    InFlatten(rows, x);
    if i :| 0 <= i < |table| && x in Row(r, table[i]) {
      assert x in rows[i];
    }
    if i :| 0 <= i < |rows| && x in rows[i] {
      assert x in Row(r, table[i]);
    }
  }

  lemma NetBytes(r: Report, n: Net, x: Sample)
    requires n.name.Some? && x.metric in {NetReceiveBytes, NetTransmitBytes}
    ensures x in Row(r, NetReadings(n)) <==> OfInterface(r, n, x)
  {
    NetsShape(n);
    match x.metric
    case NetReceiveBytes => RowAt(r, NetReadings(n), 0, x);
    case NetTransmitBytes => RowAt(r, NetReadings(n), 1, x);
  }

  lemma NetPackets(r: Report, n: Net, x: Sample)
    requires n.name.Some? && x.metric in {NetReceivePackets, NetTransmitPackets}
    ensures x in Row(r, NetReadings(n)) <==> OfInterface(r, n, x)
  {
    NetsShape(n);
    match x.metric
    case NetReceivePackets => RowAt(r, NetReadings(n), 2, x);
    case NetTransmitPackets => RowAt(r, NetReadings(n), 3, x);
  }

  lemma NetErrors(r: Report, n: Net, x: Sample)
    requires n.name.Some? && x.metric in {NetReceiveErrors, NetTransmitErrors}
    ensures x in Row(r, NetReadings(n)) <==> OfInterface(r, n, x)
  {
    NetsShape(n);
    match x.metric
    case NetReceiveErrors => RowAt(r, NetReadings(n), 4, x);
    case NetTransmitErrors => RowAt(r, NetReadings(n), 5, x);
  }

  lemma NetDropped(r: Report, n: Net, x: Sample)
    requires n.name.Some? && x.metric in {NetReceiveDropped, NetTransmitDropped}
    ensures x in Row(r, NetReadings(n)) <==> OfInterface(r, n, x)
  {
    NetsShape(n);
    match x.metric
    case NetReceiveDropped => RowAt(r, NetReadings(n), 6, x);
    case NetTransmitDropped => RowAt(r, NetReadings(n), 7, x);
  }

  lemma NetRow(r: Report, n: Net, x: Sample)
    ensures x in Row(r, NetReadings(n)) <==> OfInterface(r, n, x)
  {
    if n.name.Some? {
      if x.metric in {NetReceiveBytes, NetTransmitBytes} { NetBytes(r, n, x); }
      else if x.metric in {NetReceivePackets, NetTransmitPackets} { NetPackets(r, n, x); }
      else if x.metric in {NetReceiveErrors, NetTransmitErrors} { NetErrors(r, n, x); }
      else if x.metric in {NetReceiveDropped, NetTransmitDropped} { NetDropped(r, n, x); }
      else { RowWithout(r, NetReadings(n), x); }
    }
  }

  lemma DriveRequests(r: Report, b: Block, x: Sample)
    requires b.name.Some? && x.metric in {IopsRead, IopsWrite}
    ensures x in Row(r, BlockReadings(b)) <==> OfDrive(r, b, x)
  {
    DrivesShape(b);
    match x.metric
    case IopsRead => RowAt(r, BlockReadings(b), 0, x);
    case IopsWrite => RowAt(r, BlockReadings(b), 1, x);
  }

  lemma DriveTraffic(r: Report, b: Block, x: Sample)
    requires b.name.Some? && x.metric in {ReadTrafficBytes, WriteTrafficBytes}
    ensures x in Row(r, BlockReadings(b)) <==> OfDrive(r, b, x)
  {
    DrivesShape(b);
    match x.metric
    case ReadTrafficBytes => RowAt(r, BlockReadings(b), 2, x);
    case WriteTrafficBytes => RowAt(r, BlockReadings(b), 3, x);
  }

  lemma DriveTimes(r: Report, b: Block, x: Sample)
    requires b.name.Some? && x.metric in {ReadTimesSeconds, WriteTimesSeconds}
    ensures x in Row(r, BlockReadings(b)) <==> OfDrive(r, b, x)
  {
    DrivesShape(b);
    match x.metric
    case ReadTimesSeconds => RowAt(r, BlockReadings(b), 4, x);
    case WriteTimesSeconds => RowAt(r, BlockReadings(b), 5, x);
  }

  lemma DriveFlushes(r: Report, b: Block, x: Sample)
    requires b.name.Some? && x.metric in {FlushRequests, FlushTimesSeconds}
    ensures x in Row(r, BlockReadings(b)) <==> OfDrive(r, b, x)
  {
    DrivesShape(b);
    match x.metric
    case FlushRequests => RowAt(r, BlockReadings(b), 6, x);
    case FlushTimesSeconds => RowAt(r, BlockReadings(b), 7, x);
  }

  lemma DriveRow(r: Report, b: Block, x: Sample)
    ensures x in Row(r, BlockReadings(b)) <==> OfDrive(r, b, x)
  {
    if b.name.Some? {
      if x.metric in {IopsRead, IopsWrite} { DriveRequests(r, b, x); }
      else if x.metric in {ReadTrafficBytes, WriteTrafficBytes} { DriveTraffic(r, b, x); }
      else if x.metric in {ReadTimesSeconds, WriteTimesSeconds} { DriveTimes(r, b, x); }
      else if x.metric in {FlushRequests, FlushTimesSeconds} { DriveFlushes(r, b, x); }
      else { RowWithout(r, BlockReadings(b), x); }
    }
  }

  lemma VcpuTime(r: Report, index: nat, v: Vcpu, x: Sample)
    requires x.metric == VcpuSeconds && DistinctMetrics(VcpuReadings(index, v))
    ensures x in Row(r, VcpuReadings(index, v)) <==> OfVcpu(r, index, v, x)
  {
    var d := VcpuReadings(index, v);
    RowAt(r, d, 0, x);
    assert d[0].extra == map["id" := Decimal(index), "state" := VcpuState(v.state)];
  }

  lemma VcpuWait(r: Report, index: nat, v: Vcpu, x: Sample)
    requires x.metric == VcpuWaitSeconds && DistinctMetrics(VcpuReadings(index, v))
    ensures x in Row(r, VcpuReadings(index, v)) <==> OfVcpu(r, index, v, x)
  {
    RowAt(r, VcpuReadings(index, v), 1, x);
  }

  lemma VcpuDelay(r: Report, index: nat, v: Vcpu, x: Sample)
    requires x.metric == VcpuDelaySeconds && DistinctMetrics(VcpuReadings(index, v))
    ensures x in Row(r, VcpuReadings(index, v)) <==> OfVcpu(r, index, v, x)
  {
    RowAt(r, VcpuReadings(index, v), 2, x);
  }

  lemma VcpuRow(r: Report, index: nat, v: Vcpu, x: Sample)
    ensures x in Row(r, VcpuReadings(index, v)) <==> OfVcpu(r, index, v, x)
  {
    VcpuIds(index, v);
    match x.metric
    case VcpuSeconds => VcpuTime(r, index, v, x);
    case VcpuWaitSeconds => VcpuWait(r, index, v, x);
    case VcpuDelaySeconds => VcpuDelay(r, index, v, x);
    case _ => RowWithout(r, VcpuReadings(index, v), x);
  }

  lemma DiskRow(r: Report, d: GuestDisk, x: Sample)
    ensures x in Row(r, DiskReadings(d)) <==> OfGuestDisk(r, d, x)
  {
    match x.metric
    case DiskTotalBytes => RowAt(r, DiskReadings(d), 0, x);
    case DiskUsedBytes => RowAt(r, DiskReadings(d), 1, x);
    case _ => RowWithout(r, DiskReadings(d), x);
  }

  lemma InterfaceRow(r: Report, f: GuestInterface, x: Sample)
    ensures x in Row(r, InterfaceReadings(f)) <==> OfGuestInterface(r, f, x)
  {
    if x.metric == InterfaceInfo {
      RowAt(r, InterfaceReadings(f), 0, x);
    } else {
      RowWithout(r, InterfaceReadings(f), x);
    }
  }

  lemma PlainRow(r: Report, metrics: seq<PlainMetric>, x: Sample)
    requires forall i, j :: 0 <= i < j < |metrics| ==> metrics[i] != metrics[j]
    ensures x in Row(r, PlainReadings(r.stats, metrics)) <==>
      x.metric.Plain? && x.metric.metric in metrics && OfPlain(r, x)
  {
    var d := PlainReadings(r.stats, metrics);
    if x.metric.Plain? && x.metric.metric in metrics {
      var i :| 0 <= i < |metrics| && metrics[i] == x.metric.metric;
      RowAt(r, d, i, x);
    } else {
      RowWithout(r, d, x);
    }
  }

  lemma GuestSystem(r: Report, x: Sample)
    requires x.metric in {OsInfoMetric, HostnameMetric}
    ensures x in Row(r, GuestReadings(r.stats)) <==> OfGuest(r, x)
  {
    GuestMetricsDistinct(r.stats);
    match x.metric
    case OsInfoMetric => RowAt(r, GuestReadings(r.stats), 0, x);
    case HostnameMetric => RowAt(r, GuestReadings(r.stats), 1, x);
  }

  lemma GuestState(r: Report, x: Sample)
    requires x.metric in {TimezoneMetric, UserCount}
    ensures x in Row(r, GuestReadings(r.stats)) <==> OfGuest(r, x)
  {
    GuestMetricsDistinct(r.stats);
    match x.metric
    case TimezoneMetric => RowAt(r, GuestReadings(r.stats), 2, x);
    case UserCount => RowAt(r, GuestReadings(r.stats), 3, x);
  }

  lemma GuestRow(r: Report, x: Sample)
    ensures x in Row(r, GuestReadings(r.stats)) <==> OfGuest(r, x)
  {
    if x.metric in {OsInfoMetric, HostnameMetric} {
      GuestSystem(r, x);
    } else if x.metric in {TimezoneMetric, UserCount} {
      GuestState(r, x);
    } else {
      RowWithout(r, GuestReadings(r.stats), x);
    }
  }

  // --- Families ---

  lemma NetworkExact(r: Report)
    ensures forall x :: x in TableSamples(r, NetTable(r.stats)) <==> NetworkSample(r, x)
  {
    var t := NetTable(r.stats);
    forall x ensures x in TableSamples(r, t) <==> NetworkSample(r, x) {
      InRows(r, t, x);
      forall i | 0 <= i < |t| ensures x in Row(r, t[i]) <==> OfInterface(r, r.stats.net[i], x) {
        NetRow(r, r.stats.net[i], x);
      }
    }
  }

  lemma BlockExact(r: Report)
    ensures forall x :: x in TableSamples(r, BlockTable(r.stats)) <==> BlockSample(r, x)
  {
    var t := BlockTable(r.stats);
    forall x ensures x in TableSamples(r, t) <==> BlockSample(r, x) {
      InRows(r, t, x);
      forall i | 0 <= i < |t| ensures x in Row(r, t[i]) <==> OfDrive(r, r.stats.block[i], x) {
        DriveRow(r, r.stats.block[i], x);
      }
    }
  }

  lemma VcpuExact(r: Report)
    ensures forall x :: x in TableSamples(r, VcpuTable(r.stats)) <==> VcpuSample(r, x)
  {
    var t := VcpuTable(r.stats);
    forall x ensures x in TableSamples(r, t) <==> VcpuSample(r, x) {
      InRows(r, t, x);
      forall i | 0 <= i < |t| ensures x in Row(r, t[i]) <==> OfVcpu(r, i, r.stats.vcpu[i], x) {
        VcpuRow(r, i, r.stats.vcpu[i], x);
      }
    }
  }

  lemma GuestDiskExact(r: Report)
    ensures forall x :: x in TableSamples(r, DiskTable(r.stats)) <==> GuestDiskSample(r, x)
  {
    var t := DiskTable(r.stats);
    forall x ensures x in TableSamples(r, t) <==> GuestDiskSample(r, x) {
      InRows(r, t, x);
      forall i | 0 <= i < |t| ensures x in Row(r, t[i]) <==> OfGuestDisk(r, r.stats.guestDisks[i], x) {
        DiskRow(r, r.stats.guestDisks[i], x);
      }
    }
  }

  lemma GuestInterfaceExact(r: Report)
    ensures forall x :: x in TableSamples(r, InterfaceTable(r.stats)) <==> GuestInterfaceSample(r, x)
  {
    var t := InterfaceTable(r.stats);
    forall x ensures x in TableSamples(r, t) <==> GuestInterfaceSample(r, x) {
      InRows(r, t, x);
      forall i | 0 <= i < |t| ensures x in Row(r, t[i]) <==> OfGuestInterface(r, r.stats.guestInterfaces[i], x) {
        InterfaceRow(r, r.stats.guestInterfaces[i], x);
      }
    }
  }

  lemma EveryPlain(p: PlainMetric)
    ensures p in CPU_AND_MEMORY || p in [DirtyRate]
  {
    assert CPU_AND_MEMORY[0] == CpuUsage && CPU_AND_MEMORY[1] == CpuUserUsage && CPU_AND_MEMORY[2] == CpuSystemUsage;
    assert CPU_AND_MEMORY[3] == GuestLoad1m && CPU_AND_MEMORY[4] == GuestLoad5m && CPU_AND_MEMORY[5] == GuestLoad15m;
    assert CPU_AND_MEMORY[6] == MemoryResident && CPU_AND_MEMORY[7] == MemoryAvailable && CPU_AND_MEMORY[8] == MemoryUnused;
    assert CPU_AND_MEMORY[9] == MemoryCached && CPU_AND_MEMORY[10] == MemorySwapIn && CPU_AND_MEMORY[11] == MemorySwapOut;
    assert CPU_AND_MEMORY[12] == MemoryMajorFaults && CPU_AND_MEMORY[13] == MemoryMinorFaults;
    assert CPU_AND_MEMORY[14] == MemoryBalloon && CPU_AND_MEMORY[15] == MemoryUsable && CPU_AND_MEMORY[16] == MemoryDomain;
  }

  lemma PlainExact(r: Report, x: Sample)
    ensures x in Row(r, PlainReadings(r.stats, CPU_AND_MEMORY)) + Row(r, PlainReadings(r.stats, [DirtyRate])) <==> OfPlain(r, x)
  {
    PlainRow(r, CPU_AND_MEMORY, x);
    PlainRow(r, [DirtyRate], x);
    if x.metric.Plain? { EveryPlain(x.metric.metric); }
  }

  /** A sample is emitted for an entry exactly when it is one of these. */
  lemma EntryExact(r: Report, x: Sample)
    ensures x in EntrySamples(r) <==> EntrySample(r, x)
  {
    InFamilies(r, x);
    PlainExact(r, x);
    GuestRow(r, x);
    VcpuExact(r);
    NetworkExact(r);
    BlockExact(r);
    GuestDiskExact(r);
    GuestInterfaceExact(r);
  }

  lemma InFamilies(r: Report, x: Sample)
    ensures x in EntrySamples(r) <==>
      || x in Row(r, PlainReadings(r.stats, CPU_AND_MEMORY)) || x in TableSamples(r, VcpuTable(r.stats))
      || x in TableSamples(r, NetTable(r.stats)) || x in TableSamples(r, BlockTable(r.stats))
      || x in Row(r, PlainReadings(r.stats, [DirtyRate])) || x in Row(r, GuestReadings(r.stats))
      || x in TableSamples(r, DiskTable(r.stats)) || x in TableSamples(r, InterfaceTable(r.stats))
  {
    FamiliesInOrder(r);
  }

  lemma OneRowTable(r: Report, readings: seq<Reading>)
    ensures TableSamples(r, [readings]) == Row(r, readings)
  {
    var rows := seq(1, i requires 0 <= i < 1 => Row(r, [readings][i]));
    assert rows == [Row(r, readings)];
    assert Flatten(rows[1..]) == [];
  }

  lemma FamiliesInOrder(r: Report)
    ensures EntrySamples(r) ==
      Row(r, PlainReadings(r.stats, CPU_AND_MEMORY)) + TableSamples(r, VcpuTable(r.stats))
      + TableSamples(r, NetTable(r.stats)) + TableSamples(r, BlockTable(r.stats))
      + Row(r, PlainReadings(r.stats, [DirtyRate])) + Row(r, GuestReadings(r.stats))
      + TableSamples(r, DiskTable(r.stats)) + TableSamples(r, InterfaceTable(r.stats))
  {
    OneRowTable(r, PlainReadings(r.stats, CPU_AND_MEMORY));
    OneRowTable(r, PlainReadings(r.stats, [DirtyRate]));
    OneRowTable(r, GuestReadings(r.stats));
    var f := Families(r);
    assert f == [f[0], f[1], f[2], f[3]] + [f[4], f[5], f[6], f[7]];
    FlattenEight(f[0], f[1], f[2], f[3], f[4], f[5], f[6], f[7]);
  }

  lemma FlattenEight<T>(a: seq<T>, b: seq<T>, c: seq<T>, d: seq<T>, e: seq<T>, f: seq<T>, g: seq<T>, h: seq<T>)
    ensures Flatten([a, b, c, d] + [e, f, g, h]) == a + b + c + d + e + f + g + h
  {
    var none: seq<seq<T>> := [];
    FlattenAppend(none, a);
    FlattenAppend([a], b);
    FlattenAppend([a, b], c);
    FlattenAppend([a, b, c], d);
    FlattenAppend([a, b, c, d], e);
    FlattenAppend([a, b, c, d, e], f);
    FlattenAppend([a, b, c, d, e, f], g);
    FlattenAppend([a, b, c, d, e, f, g], h);
    assert none + [a] == [a] && [a] + [b] == [a, b] && [a, b] + [c] == [a, b, c] && [a, b, c] + [d] == [a, b, c, d];
    assert [a, b, c, d] + [e] == [a, b, c, d, e] && [a, b, c, d, e] + [f] == [a, b, c, d, e, f];
    assert [a, b, c, d, e, f] + [g] == [a, b, c, d, e, f, g];
    assert [a, b, c, d, e, f, g] + [h] == [a, b, c, d] + [e, f, g, h];
  }
}
