/** The names the VMStats metrics are exposed under, and that they tell the metrics apart. */
module MetricNames {
  import opened VMStatsTypes
  import opened Collectors

  const NAME_PREFIX := "kubevirt_vmi_"

  function PlainName(p: PlainMetric): string {
    match p
    case CpuUsage => "cpu_usage_seconds_total"
    case CpuUserUsage => "cpu_user_usage_seconds_total"
    case CpuSystemUsage => "cpu_system_usage_seconds_total"
    case GuestLoad1m => "guest_load_1m"
    case GuestLoad5m => "guest_load_5m"
    case GuestLoad15m => "guest_load_15m"
    case MemoryResident => "memory_resident_bytes"
    case MemoryAvailable => "memory_available_bytes"
    case MemoryUnused => "memory_unused_bytes"
    case MemoryCached => "memory_cached_bytes"
    case MemorySwapIn => "memory_swap_in_traffic_bytes"
    case MemorySwapOut => "memory_swap_out_traffic_bytes"
    case MemoryMajorFaults => "memory_pgmajfault_total"
    case MemoryMinorFaults => "memory_pgminfault_total"
    case MemoryBalloon => "memory_actual_balloon_bytes"
    case MemoryUsable => "memory_usable_bytes"
    case MemoryDomain => "memory_domain_bytes"
    case DirtyRate => "dirty_rate_bytes_per_second"
  }

  function ShortName(m: Metric): string {
    match m
    case Plain(p) => PlainName(p)
    case VcpuSeconds => "vcpu_seconds_total"
    case VcpuWaitSeconds => "vcpu_wait_seconds_total"
    case VcpuDelaySeconds => "vcpu_delay_seconds_total"
    case NetReceiveBytes => "network_receive_bytes_total"
    case NetTransmitBytes => "network_transmit_bytes_total"
    case NetReceivePackets => "network_receive_packets_total"
    case NetTransmitPackets => "network_transmit_packets_total"
    case NetReceiveErrors => "network_receive_errors_total"
    case NetTransmitErrors => "network_transmit_errors_total"
    case NetReceiveDropped => "network_receive_packets_dropped_total"
    case NetTransmitDropped => "network_transmit_packets_dropped_total"
    case IopsRead => "storage_iops_read_total"
    case IopsWrite => "storage_iops_write_total"
    case ReadTrafficBytes => "storage_read_traffic_bytes_total"
    case WriteTrafficBytes => "storage_write_traffic_bytes_total"
    case ReadTimesSeconds => "storage_read_times_seconds_total"
    case WriteTimesSeconds => "storage_write_times_seconds_total"
    case FlushRequests => "storage_flush_requests_total"
    case FlushTimesSeconds => "storage_flush_times_seconds_total"
    case OsInfoMetric => "guest_os_info"
    case HostnameMetric => "guest_hostname"
    case TimezoneMetric => "guest_timezone"
    case UserCount => "guest_user_count"
    case DiskTotalBytes => "guest_disk_total_bytes"
    case DiskUsedBytes => "guest_disk_used_bytes"
    case InterfaceInfo => "guest_interface_info"
  }

  function NameOf(m: Metric): string {
    NAME_PREFIX + ShortName(m)
  }

  /** The metric of a short name, told by the name's length and at most a few of its characters. */
  ghost function MetricNamed(n: string): Metric {
    match |n|
    case 13 =>
      if n[11] == '1' then Plain(GuestLoad1m)
      else if n[11] == '5' then Plain(GuestLoad5m)
      else OsInfoMetric
    case 14 => if n[6] == 'l' then Plain(GuestLoad15m) else if n[6] == 'h' then HostnameMetric else TimezoneMetric
    case 16 => UserCount
    case 18 => VcpuSeconds
    case 19 =>
      if n[8] == 'n' then Plain(MemoryUnused)
      else if n[8] == 'a' then Plain(MemoryCached)
      else if n[8] == 's' then Plain(MemoryUsable)
      else Plain(MemoryDomain)
    case 20 => InterfaceInfo
    case 21 => if n[0] == 'm' then Plain(MemoryResident) else DiskUsedBytes
    case 22 => if n[0] == 'm' then Plain(MemoryAvailable) else DiskTotalBytes
    case 23 =>
      if n[0] == 'c' then Plain(CpuUsage)
      else if n[0] == 'v' then VcpuWaitSeconds
      else if n[0] == 's' then IopsRead
      else if n[10] == 'a' then Plain(MemoryMajorFaults)
      else Plain(MemoryMinorFaults)
    case 24 => if n[0] == 'v' then VcpuDelaySeconds else IopsWrite
    case 27 =>
      if n[0] == 'm' then Plain(MemoryBalloon)
      else if n[0] == 'd' then Plain(DirtyRate)
      else NetReceiveBytes
    case 28 =>
      if n[8] == '_' then Plain(CpuUserUsage)
      else if n[8] == 'w' then Plain(MemorySwapIn)
      else if n[8] == 't' then NetTransmitBytes
      else if n[8] == 'r' then NetReceiveErrors
      else FlushRequests
    case 29 =>
      if n[8] == 'w' then Plain(MemorySwapOut)
      else if n[8] == 'r' then NetReceivePackets
      else NetTransmitErrors
    case 30 => if n[0] == 'c' then Plain(CpuSystemUsage) else NetTransmitPackets
    case 32 => if n[14] == 'r' then ReadTrafficBytes else ReadTimesSeconds
    case 33 =>
      if n[8] == 'f' then FlushTimesSeconds
      else if n[15] == 'r' then WriteTrafficBytes
      else WriteTimesSeconds
    case 37 => NetReceiveDropped
    case 38 => NetTransmitDropped
    case _ => UserCount
  }

  lemma PlainNamed(p: PlainMetric)
    ensures MetricNamed(PlainName(p)) == Plain(p)
  {
    if p in {CpuUsage, CpuUserUsage, CpuSystemUsage} { CpuNamed(p); }
    else if p in {GuestLoad1m, GuestLoad5m, GuestLoad15m} { LoadNamed(p); }
    else if p in {MemoryResident, MemoryAvailable, MemoryUnused, MemoryCached} { MemoryNamed(p); }
    else if p in {MemorySwapIn, MemorySwapOut, MemoryMajorFaults, MemoryMinorFaults} { PagingNamed(p); }
    else { UseNamed(p); }
  }

  lemma CpuNamed(p: PlainMetric)
    requires p in {CpuUsage, CpuUserUsage, CpuSystemUsage}
    ensures MetricNamed(PlainName(p)) == Plain(p)
  {
  }

  lemma LoadNamed(p: PlainMetric)
    requires p in {GuestLoad1m, GuestLoad5m, GuestLoad15m}
    ensures MetricNamed(PlainName(p)) == Plain(p)
  {
  }

  lemma MemoryNamed(p: PlainMetric)
    requires p in {MemoryResident, MemoryAvailable, MemoryUnused, MemoryCached}
    ensures MetricNamed(PlainName(p)) == Plain(p)
  {
  }

  lemma PagingNamed(p: PlainMetric)
    requires p in {MemorySwapIn, MemorySwapOut, MemoryMajorFaults, MemoryMinorFaults}
    ensures MetricNamed(PlainName(p)) == Plain(p)
  {
  }

  lemma UseNamed(p: PlainMetric)
    requires p in {MemoryBalloon, MemoryUsable, MemoryDomain, DirtyRate}
    ensures MetricNamed(PlainName(p)) == Plain(p)
  {
  }

  lemma VcpuNamed(m: Metric)
    requires m in {VcpuSeconds, VcpuWaitSeconds, VcpuDelaySeconds}
    ensures MetricNamed(ShortName(m)) == m
  {
  }

  lemma NetNamed(m: Metric)
    requires m in {NetReceiveBytes, NetTransmitBytes, NetReceivePackets, NetTransmitPackets}
    ensures MetricNamed(ShortName(m)) == m
  {
  }

  lemma NetFaultNamed(m: Metric)
    requires m in {NetReceiveErrors, NetTransmitErrors, NetReceiveDropped, NetTransmitDropped}
    ensures MetricNamed(ShortName(m)) == m
  {
  }

  lemma TrafficNamed(m: Metric)
    requires m in {IopsRead, IopsWrite, ReadTrafficBytes, WriteTrafficBytes}
    ensures MetricNamed(ShortName(m)) == m
  {
  }

  lemma TimesNamed(m: Metric)
    requires m in {ReadTimesSeconds, WriteTimesSeconds, FlushRequests, FlushTimesSeconds}
    ensures MetricNamed(ShortName(m)) == m
  {
  }

  lemma GuestNamed(m: Metric)
    requires FamilyOf(m) in {5, 6, 7}
    ensures MetricNamed(ShortName(m)) == m
  {
  }

  lemma Named(m: Metric)
    ensures MetricNamed(ShortName(m)) == m
  {
    if m.Plain? { PlainNamed(m.metric); }
    else if m in {VcpuSeconds, VcpuWaitSeconds, VcpuDelaySeconds} { VcpuNamed(m); }
    else if m in {NetReceiveBytes, NetTransmitBytes, NetReceivePackets, NetTransmitPackets} { NetNamed(m); }
    else if m in {NetReceiveErrors, NetTransmitErrors, NetReceiveDropped, NetTransmitDropped} { NetFaultNamed(m); }
    else if m in {IopsRead, IopsWrite, ReadTrafficBytes, WriteTrafficBytes} { TrafficNamed(m); }
    else if m in {ReadTimesSeconds, WriteTimesSeconds, FlushRequests, FlushTimesSeconds} { TimesNamed(m); }
    else { GuestNamed(m); }
  }

  /** Different metrics have different names. */
  lemma NameTellsMetric(m: Metric, m': Metric)
    requires NameOf(m) == NameOf(m')
    ensures m == m'
  {
    assert ShortName(m) == NameOf(m)[|NAME_PREFIX|..] && ShortName(m') == NameOf(m')[|NAME_PREFIX|..];
    Named(m);
    Named(m');
  }

  /** So two samples are one series exactly when they come out under one name with the same labels. */
  lemma SeriesIsNamed(a: Sample, b: Sample)
    ensures SameSeries(a, b) <==> NameOf(a.metric) == NameOf(b.metric) && a.labels == b.labels
  {
    if NameOf(a.metric) == NameOf(b.metric) { NameTellsMetric(a.metric, b.metric); }
  }
}
