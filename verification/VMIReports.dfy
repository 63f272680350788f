/** The report of one VMI and the loops that append its samples, and the scrape callback
    over the shared cache. */
module VMIReports {
  import opened Collections
  import opened VMStatsTypes
  import opened StatsCaches
  import opened Labels
  import opened Polls
  import opened Collectors
  import opened EmittedSamples

  class VMIReport {
    const vmi: VMI
    const stats: VMStats
    var runtimeLabels: map<string, string>

    function View(): Report
      reads this
    {
      Report(vmi, stats, runtimeLabels)
    }

    constructor (vmi: VMI, stats: VMStats)
      ensures this.vmi == vmi && this.stats == stats
      ensures IsReport(View())
    {
      this.vmi := vmi;
      this.stats := stats;
      runtimeLabels := map[];
      new;
      BuildRuntimeLabels();
    }

    method BuildRuntimeLabels()
      modifies this
      ensures IsReport(View())
    {
      runtimeLabels := map[];
      var todo := vmi.labels.Keys;
      ghost var order: seq<string> := [];
      while todo != {}
        invariant todo <= vmi.labels.Keys
        invariant Distinct(order) && forall k :: k in order <==> k in vmi.labels && k !in todo
        invariant runtimeLabels == Relabel(vmi.labels, order, RuntimeName)
        decreases todo
      {
        var key :| key in todo;
        RelabelStep(vmi.labels, order, RuntimeName, key);
        assert key !in order;
        runtimeLabels := runtimeLabels[LABEL_PREFIX + LabelFormat(key) := vmi.labels[key]];
        order, todo := order + [key], todo - {key};
      }
      assert IsOrder(vmi.labels, order);
    }

    method NewCollectorResultWithLabels(metric: Metric, value: real, additional: map<string, string>) returns (s: Sample)
      ensures s == Sample(metric, MergedLabels(View(), additional), value)
    {
      var labels := map["node" := vmi.node, "namespace" := vmi.namespace, "name" := vmi.name];
      labels := Copy(labels, runtimeLabels);
      labels := Copy(labels, additional);
      s := Sample(metric, labels, value);
    }

    /** Appends the sample of the device's n-th reading when its set flag is true. */
    method Append(crs: seq<Sample>, reading: Reading, ghost before: seq<Sample>, ghost device: seq<Reading>, ghost n: nat)
      returns (r: seq<Sample>)
      requires n < |device| && device[n] == reading
      requires crs == before + Row(View(), device[..n])
      ensures r == before + Row(View(), device[..n + 1])
    {
      RowAppend(View(), device[..n], reading);
      assert device[..n] + [reading] == device[..n + 1];
      r := crs;
      if reading.value.Some? {
        var s := NewCollectorResultWithLabels(reading.metric, reading.value.value, reading.extra);
        r := r + [s];
      }
    }

    method AppendVcpu(crs: seq<Sample>, index: nat, vcpu: Vcpu) returns (r: seq<Sample>)
      ensures r == crs + Row(View(), VcpuReadings(index, vcpu))
    {
      var id := map["id" := Decimal(index)];
      r := crs;
      ghost var b, d := crs, VcpuReadings(index, vcpu);
      r := Append(r, ReadingOf(VcpuSeconds, id["state" := VcpuState(vcpu.state)], vcpu.time, Seconds), b, d, 0);
      r := Append(r, ReadingOf(VcpuWaitSeconds, id, vcpu.wait, Seconds), b, d, 1);
      r := Append(r, ReadingOf(VcpuDelaySeconds, id, vcpu.delay, Seconds), b, d, 2);
      assert d[..3] == d;
    }

    method CollectVCPUMetrics() returns (crs: seq<Sample>)
      ensures crs == TableSamples(View(), VcpuTable(stats))
      ensures forall x :: x in crs <==> VcpuSample(View(), x)
    {
      VcpuExact(View());
      crs := [];
      for index := 0 to |stats.vcpu|
        invariant crs == Flatten(RowsUpTo(View(), VcpuTable(stats), index))
      {
        crs := AppendVcpu(crs, index, stats.vcpu[index]);
        NextRow(View(), VcpuTable(stats), index);
      }
      AllRows(View(), VcpuTable(stats));
    }

    method AppendNet(crs: seq<Sample>, net: Net, iface: string) returns (r: seq<Sample>)
      requires net.name.Some? && iface == InterfaceName(net)
      ensures r == crs + Row(View(), NetReadings(net))
    {
      var l := map["interface" := iface];
      r := crs;
      ghost var b, d := crs, NetReadings(net);
      r := Append(r, ReadingOf(NetReceiveBytes, l, net.rxBytes, Number), b, d, 0);
      r := Append(r, ReadingOf(NetTransmitBytes, l, net.txBytes, Number), b, d, 1);
      r := Append(r, ReadingOf(NetReceivePackets, l, net.rxPkts, Number), b, d, 2);
      r := Append(r, ReadingOf(NetTransmitPackets, l, net.txPkts, Number), b, d, 3);
      r := Append(r, ReadingOf(NetReceiveErrors, l, net.rxErrs, Number), b, d, 4);
      r := Append(r, ReadingOf(NetTransmitErrors, l, net.txErrs, Number), b, d, 5);
      r := Append(r, ReadingOf(NetReceiveDropped, l, net.rxDrop, Number), b, d, 6);
      r := Append(r, ReadingOf(NetTransmitDropped, l, net.txDrop, Number), b, d, 7);
      assert d[..8] == d;
    }

    method CollectNetworkMetrics() returns (crs: seq<Sample>)
      ensures crs == TableSamples(View(), NetTable(stats))
      ensures forall x :: x in crs <==> NetworkSample(View(), x)
    {
      NetworkExact(View());
      crs := [];
      for i := 0 to |stats.net|
        invariant crs == Flatten(RowsUpTo(View(), NetTable(stats), i))
      {
        NextRow(View(), NetTable(stats), i);
        var net := stats.net[i];
        if net.name.None? {
          continue;
        }
        var iface := net.name.value;
        if net.alias.Some? {
          iface := net.alias.value;
        }
        crs := AppendNet(crs, net, iface);
      }
      AllRows(View(), NetTable(stats));
    }

    method AppendBlock(crs: seq<Sample>, block: Block, drive: string) returns (r: seq<Sample>)
      requires block.name.Some? && drive == DriveName(block)
      ensures r == crs + Row(View(), BlockReadings(block))
    {
      var l := map["drive" := drive];
      r := crs;
      ghost var b, d := crs, BlockReadings(block);
      r := Append(r, ReadingOf(IopsRead, l, block.rdReqs, Number), b, d, 0);
      r := Append(r, ReadingOf(IopsWrite, l, block.wrReqs, Number), b, d, 1);
      r := Append(r, ReadingOf(ReadTrafficBytes, l, block.rdBytes, Number), b, d, 2);
      r := Append(r, ReadingOf(WriteTrafficBytes, l, block.wrBytes, Number), b, d, 3);
      r := Append(r, ReadingOf(ReadTimesSeconds, l, block.rdTimes, Seconds), b, d, 4);
      r := Append(r, ReadingOf(WriteTimesSeconds, l, block.wrTimes, Seconds), b, d, 5);
      r := Append(r, ReadingOf(FlushRequests, l, block.flReqs, Number), b, d, 6);
      r := Append(r, ReadingOf(FlushTimesSeconds, l, block.flTimes, Seconds), b, d, 7);
      assert d[..8] == d;
    }

    method CollectBlockMetrics() returns (crs: seq<Sample>)
      ensures crs == TableSamples(View(), BlockTable(stats))
      ensures forall x :: x in crs <==> BlockSample(View(), x)
    {
      BlockExact(View());
      crs := [];
      for i := 0 to |stats.block|
        invariant crs == Flatten(RowsUpTo(View(), BlockTable(stats), i))
      {
        NextRow(View(), BlockTable(stats), i);
        var block := stats.block[i];
        if block.name.None? {
          continue;
        }
        var drive := block.name.value;
        if block.alias != "" {
          drive := block.alias;
        }
        crs := AppendBlock(crs, block, drive);
      }
      AllRows(View(), BlockTable(stats));
    }

    method CollectGuestDiskStats() returns (crs: seq<Sample>)
      ensures crs == TableSamples(View(), DiskTable(stats))
      ensures forall x :: x in crs <==> GuestDiskSample(View(), x)
    {
      GuestDiskExact(View());
      crs := [];
      for i := 0 to |stats.guestDisks|
        invariant crs == Flatten(RowsUpTo(View(), DiskTable(stats), i))
      {
        NextRow(View(), DiskTable(stats), i);
        var d := stats.guestDisks[i];
        var l := map["disk_name" := d.name, "mountpoint" := d.mountpoint];
        ghost var b, t := crs, DiskReadings(d);
        crs := Append(crs, Reading(DiskTotalBytes, l, Some(d.total as real)), b, t, 0);
        crs := Append(crs, Reading(DiskUsedBytes, l, Some(d.used as real)), b, t, 1);
        assert t[..2] == t;
      }
      AllRows(View(), DiskTable(stats));
    }

    method CollectGuestInterfaces() returns (crs: seq<Sample>)
      ensures crs == TableSamples(View(), InterfaceTable(stats))
      ensures forall x :: x in crs <==> GuestInterfaceSample(View(), x)
    {
      GuestInterfaceExact(View());
      crs := [];
      for i := 0 to |stats.guestInterfaces|
        invariant crs == Flatten(RowsUpTo(View(), InterfaceTable(stats), i))
      {
        NextRow(View(), InterfaceTable(stats), i);
        var iface := stats.guestInterfaces[i];
        var ipAddr := "";
        if |iface.addresses| > 0 {
          ipAddr := iface.addresses[0];
        }
        var l := map["interface_name" := iface.name, "mac" := iface.mac, "ip_address" := ipAddr];
        ghost var t := InterfaceReadings(iface);
        crs := Append(crs, Reading(InterfaceInfo, l, Some(1.0)), crs, t, 0);
        assert t[..1] == t;
      }
      AllRows(View(), InterfaceTable(stats));
    }

    /** All samples of the entry, family after family. */
    method Collect() returns (crs: seq<Sample>)
      ensures crs == EntrySamples(View())
      ensures forall x :: x in crs <==> EntrySample(View(), x)
    {
      forall x ensures x in EntrySamples(View()) <==> EntrySample(View(), x) {
        EntryExact(View(), x);
      }
      var vcpu := CollectVCPUMetrics();
      var net := CollectNetworkMetrics();
      var block := CollectBlockMetrics();
      var disks := CollectGuestDiskStats();
      var ifaces := CollectGuestInterfaces();
      crs := Row(View(), PlainReadings(stats, CPU_AND_MEMORY)) + vcpu + net + block
           + Row(View(), PlainReadings(stats, [DirtyRate])) + Row(View(), GuestReadings(stats)) + disks + ifaces;
      FamiliesInOrder(View());
    }
  }

  method Copy(dst: map<string, string>, src: map<string, string>) returns (r: map<string, string>)
    ensures r == dst + src
  {
    r := dst;
    var todo := src.Keys;
    while todo != {}
      invariant todo <= src.Keys
      invariant r == dst + map k | k in src && k !in todo :: src[k]
      decreases todo
    {
      var k :| k in todo;
      r, todo := r[k := src[k]], todo - {k};
    }
  }

  ghost function RowsUpTo(r: Report, table: seq<seq<Reading>>, n: nat): seq<seq<Sample>>
    requires n <= |table|
  {
    seq(n, i requires 0 <= i < n => Row(r, table[i]))
  }

  lemma NextRow(r: Report, table: seq<seq<Reading>>, n: nat)
    requires n < |table|
    ensures Flatten(RowsUpTo(r, table, n + 1)) == Flatten(RowsUpTo(r, table, n)) + Row(r, table[n])
  {
    assert RowsUpTo(r, table, n + 1) == RowsUpTo(r, table, n) + [Row(r, table[n])];
    FlattenAppend(RowsUpTo(r, table, n), Row(r, table[n]));
  }

  lemma AllRows(r: Report, table: seq<seq<Reading>>)
    ensures Flatten(RowsUpTo(r, table, |table|)) == TableSamples(r, table)
  {
    assert RowsUpTo(r, table, |table|) == seq(|table|, i requires 0 <= i < |table| => Row(r, table[i]));
  }

  lemma {:induction false} RowAppend(r: Report, readings: seq<Reading>, reading: Reading)
    ensures Row(r, readings + [reading]) == Row(r, readings) + Emit(r, reading)
  {
    if readings == [] {
      assert [] + [reading] == [reading];
    } else {
      assert (readings + [reading])[1..] == readings[1..] + [reading];
      RowAppend(r, readings[1..], reading);
    }
  }

  /** The scrape callback: it reports every cached entry, and on a cache whose entries sit under their own
      keys it emits no series twice exactly when no two devices of a VMI clash, whatever order the entries
      are listed in. */
  method CollectCallback(cache: StatsCache) returns (crs: seq<Sample>)
    ensures exists reports :: ScrapeOf(cache.items, reports) && crs == Scrape(reports)
    ensures KeyedByVMI(cache.items) ==> (NoDuplicates(crs) <==> NoneClashIn(cache.items))
  {
    var entries := cache.List();
    ghost var keys :| ListedBy(cache.items, entries, keys);
    ghost var reports: seq<Report> := [];
    crs := [];
    for i := 0 to |entries|
      invariant ReportsOf(entries[..i], reports) && crs == Scrape(reports)
    {
      var report := new VMIReport(entries[i].vmi, entries[i].stats);
      var samples := report.Collect();
      ScrapeAppend(reports, report.View());
      ReportsGrow(entries, i, reports, report.View());
      crs, reports := crs + samples, reports + [report.View()];
    }
    assert entries[..|entries|] == entries;
    ListedOnce(cache.items, entries, keys, reports);
  }

  /** A report for each entry, in order. */
  ghost predicate ReportsOf(entries: seq<CachedStats>, reports: seq<Report>) {
    |reports| == |entries| && forall i :: 0 <= i < |reports| ==>
      IsReport(reports[i]) && reports[i].vmi == entries[i].vmi && reports[i].stats == entries[i].stats
  }

  lemma ReportsGrow(entries: seq<CachedStats>, i: nat, reports: seq<Report>, r: Report)
    requires i < |entries| && ReportsOf(entries[..i], reports)
    requires IsReport(r) && r.vmi == entries[i].vmi && r.stats == entries[i].stats
    ensures ReportsOf(entries[..i + 1], reports + [r])
  {
    assert forall j :: 0 <= j < i ==> entries[..i][j] == entries[..i + 1][j];
  }

  /** One report for every cached entry, and no others. */
  ghost predicate ScrapeOf(items: Cache, reports: seq<Report>) {
    |reports| == |items| && (forall k :: k in items ==> Reported(reports, items[k]))
    && forall i :: 0 <= i < |reports| ==> IsReport(reports[i])
  }

  ghost predicate KeyedByVMI(items: Cache) {
    forall k :: k in items ==> items[k].vmi.namespace + "/" + items[k].vmi.name == k
  }

  /** No two devices of a cached VMI clash. */
  ghost predicate NoneClashIn(items: Cache) {
    forall k :: k in items ==> NoClash(items[k].stats)
  }

  /** What listing every entry once means for the scrape. */
  lemma ListedOnce(items: Cache, entries: seq<CachedStats>, keys: seq<string>, reports: seq<Report>)
    requires ListedBy(items, entries, keys) && ReportsOf(entries, reports)
    ensures ScrapeOf(items, reports)
    ensures KeyedByVMI(items) ==> (NoDuplicates(Scrape(reports)) <==> NoneClashIn(items))
  {
    forall k | k in items ensures Reported(reports, items[k]) {
      var i :| 0 <= i < |keys| && keys[i] == k;
      assert reports[i].vmi == items[k].vmi && reports[i].stats == items[k].stats;
    }
    if KeyedByVMI(items) {
      ListedApart(items, entries, keys, reports);
    }
  }

  lemma ListedApart(items: Cache, entries: seq<CachedStats>, keys: seq<string>, reports: seq<Report>)
    requires ListedBy(items, entries, keys) && ReportsOf(entries, reports) && KeyedByVMI(items)
    ensures NoDuplicates(Scrape(reports)) <==> NoneClashIn(items)
  {
    forall i | 0 <= i < |reports| ensures Key(reports[i].vmi) == keys[i] && reports[i].stats == items[keys[i]].stats {
      assert keys[i] in items;
    }
    ScrapeHasNoDuplicates(reports);
    if forall i :: 0 <= i < |reports| ==> NoClash(reports[i].stats) {
      forall k | k in items ensures NoClash(items[k].stats) {
        var i :| 0 <= i < |keys| && keys[i] == k;
        assert NoClash(reports[i].stats);
      }
    }
  }

  ghost predicate Reported(reports: seq<Report>, e: CachedStats) {
    exists i :: 0 <= i < |reports| && reports[i].vmi == e.vmi && reports[i].stats == e.stats
  }

  lemma ScrapeAppend(reports: seq<Report>, r: Report)
    ensures Scrape(reports + [r]) == Scrape(reports) + EntrySamples(r)
  {
    var all := reports + [r];
    var xss := seq(|reports|, i requires 0 <= i < |reports| => EntrySamples(reports[i]));
    assert seq(|all|, i requires 0 <= i < |all| => EntrySamples(all[i])) == xss + [EntrySamples(r)];
    FlattenAppend(xss, EntrySamples(r));
  }
}
