/** One scrape: the samples the VMStats collectors emit for each cached entry, and why no
    two samples of a scrape are the same time series. */
module Collectors {
  import opened Collections
  import opened VMStatsTypes
  import opened Polls
  import opened Labels

  datatype Metric =
    | Plain(metric: PlainMetric)
    | VcpuSeconds | VcpuWaitSeconds | VcpuDelaySeconds
    | NetReceiveBytes | NetTransmitBytes | NetReceivePackets | NetTransmitPackets
    | NetReceiveErrors | NetTransmitErrors | NetReceiveDropped | NetTransmitDropped
    | IopsRead | IopsWrite | ReadTrafficBytes | WriteTrafficBytes
    | ReadTimesSeconds | WriteTimesSeconds | FlushRequests | FlushTimesSeconds
    | OsInfoMetric | HostnameMetric | TimezoneMetric | UserCount
    | DiskTotalBytes | DiskUsedBytes
    | InterfaceInfo

  datatype Sample = Sample(metric: Metric, labels: map<string, string>, value: real)

  /** A VMI's report: the entry and the labels copied from the VMI's own labels. */
  datatype Report = Report(vmi: VMI, stats: VMStats, runtimeLabels: map<string, string>)

  function RuntimeName(key: string): string {
    LABEL_PREFIX + LabelFormat(key)
  }

  /** The labels of a sample: node, namespace and name, overwritten by the runtime labels,
      overwritten by the sample's own. */
  function MergedLabels(r: Report, extra: map<string, string>): map<string, string> {
    map["node" := r.vmi.node, "namespace" := r.vmi.namespace, "name" := r.vmi.name] + r.runtimeLabels + extra
  }

  /** The runtime labels are those some order of the VMI's labels produces. */
  ghost predicate IsReport(r: Report) {
    exists order :: IsOrder(r.vmi.labels, order) && r.runtimeLabels == Relabel(r.vmi.labels, order, RuntimeName)
  }

  /** The labels copied from the VMI's own, spelled out: the prefix and the formatted name, with the value of such a label. */
  lemma RuntimeLabelsExact(r: Report, name: string)
    requires IsReport(r)
    ensures name in r.runtimeLabels <==> exists k :: k in r.vmi.labels && name == "kubernetes_vmi_label_" + LabelFormat(k)
    ensures name in r.runtimeLabels ==>
      exists k :: k in r.vmi.labels && name == "kubernetes_vmi_label_" + LabelFormat(k) && r.runtimeLabels[name] == r.vmi.labels[k]
  {
    var order :| IsOrder(r.vmi.labels, order) && r.runtimeLabels == Relabel(r.vmi.labels, order, RuntimeName);
    RelabelExact(r.vmi.labels, order, RuntimeName, name);
    if name in r.runtimeLabels {
      var i :| 0 <= i < |order| && IsLastNamed(order, RuntimeName, i, name) && r.runtimeLabels[name] == r.vmi.labels[order[i]];
      assert order[i] in r.vmi.labels;
    }
    forall k | k in r.vmi.labels && name == RuntimeName(k) ensures name in r.runtimeLabels {
      assert k in order;
    }
  }

  ghost predicate KeepsBase(extra: map<string, string>) {
    "node" !in extra && "namespace" !in extra && "name" !in extra
  }

  lemma PrefixedIsNotBase(s: string)
    ensures LABEL_PREFIX + s !in {"node", "namespace", "name"}
  {
    assert (LABEL_PREFIX + s)[0] == 'k';
  }

  /** No runtime or additional label overwrites the labels that tell VMIs apart, and a sample's own labels win. */
  lemma BaseLabelsKept(r: Report, extra: map<string, string>)
    requires IsReport(r) && KeepsBase(extra)
    ensures var labels := MergedLabels(r, extra);
      && labels["node"] == r.vmi.node && labels["namespace"] == r.vmi.namespace && labels["name"] == r.vmi.name
      && (forall k :: k in extra ==> labels[k] == extra[k])
      && (forall k :: k in r.runtimeLabels && k !in extra ==> labels[k] == r.runtimeLabels[k])
  {
    var order :| IsOrder(r.vmi.labels, order) && r.runtimeLabels == Relabel(r.vmi.labels, order, RuntimeName);
    forall i | 0 <= i < |order| ensures RuntimeName(order[i]) !in {"node", "namespace", "name"} {
      PrefixedIsNotBase(LabelFormat(order[i]));
    }
    forall k | k in {"node", "namespace", "name"} ensures k !in r.runtimeLabels {
      RelabelExact(r.vmi.labels, order, RuntimeName, k);
    }
  }

  // --- Emission ---

  function Seconds(ns: nat): real {
    ns as real / 1_000_000_000.0
  }

  function Number(n: nat): real {
    n as real
  }

  function Digit(d: nat): (c: char)
    requires d < 10
    ensures '0' <= c <= '9' && c as int == '0' as int + d
  {
    '0' + d as char
  }

  /** `%d` of a non-negative number. */
  function Decimal(n: nat): string {
    if n < 10 then [Digit(n)] else Decimal(n / 10) + [Digit(n % 10)]
  }

  /** The number a string of decimal digits denotes. */
  ghost function ValueOf(digits: string): int {
    if digits == "" then 0 else 10 * ValueOf(digits[..|digits| - 1]) + (digits[|digits| - 1] as int - '0' as int)
  }

  /** The decimal digits of a number denote it, with no leading zero; so they tell numbers apart. */
  lemma {:induction false} DecimalReads(n: nat)
    ensures ValueOf(Decimal(n)) == n && (forall c :: c in Decimal(n) ==> '0' <= c <= '9')
    ensures Decimal(n) != "" && (n > 0 ==> Decimal(n)[0] != '0')
  {
    var d := Decimal(n);
    if n < 10 {
      assert d[..0] == "";
    } else {
      DecimalReads(n / 10);
      assert d[..|d| - 1] == Decimal(n / 10);
    }
  }

  function DecimalInt(n: int): string {
    if n < 0 then "-" + Decimal(-n) else Decimal(n)
  }

  /** A metric, the sample's own labels, and the value when its set flag is true. */
  datatype Reading = Reading(metric: Metric, extra: map<string, string>, value: Option<real>)

  function ReadingOf(metric: Metric, extra: map<string, string>, value: Option<nat>, unit: nat -> real): Reading {
    Reading(metric, extra, if value.Some? then Some(unit(value.value)) else None)
  }

  function Emit(r: Report, reading: Reading): seq<Sample> {
    if reading.value.None? then []
    else [Sample(reading.metric, MergedLabels(r, reading.extra), reading.value.value)]
  }

  function Row(r: Report, readings: seq<Reading>): seq<Sample> {
    if readings == [] then [] else Emit(r, readings[0]) + Row(r, readings[1..])
  }

  function VcpuState(state: int): string {
    if state == 0 then "offline" else if state == 2 then "blocked" else if state == 1 then "running" else "unknown"
  }

  function VcpuReadings(index: nat, v: Vcpu): seq<Reading> {
    var id := map["id" := Decimal(index)];
    [ReadingOf(VcpuSeconds, id["state" := VcpuState(v.state)], v.time, Seconds),
     ReadingOf(VcpuWaitSeconds, id, v.wait, Seconds),
     ReadingOf(VcpuDelaySeconds, id, v.delay, Seconds)]
  }

  /** The alias when it is set, set to the empty string included. */
  function InterfaceName(n: Net): string
    requires n.name.Some?
  {
    if n.alias.Some? then n.alias.value else n.name.value
  }

  function NetReadings(n: Net): seq<Reading> {
    if n.name.None? then []
    else
      var extra := map["interface" := InterfaceName(n)];
      [ReadingOf(NetReceiveBytes, extra, n.rxBytes, Number), ReadingOf(NetTransmitBytes, extra, n.txBytes, Number),
       ReadingOf(NetReceivePackets, extra, n.rxPkts, Number), ReadingOf(NetTransmitPackets, extra, n.txPkts, Number),
       ReadingOf(NetReceiveErrors, extra, n.rxErrs, Number), ReadingOf(NetTransmitErrors, extra, n.txErrs, Number),
       ReadingOf(NetReceiveDropped, extra, n.rxDrop, Number), ReadingOf(NetTransmitDropped, extra, n.txDrop, Number)]
  }

  /** The alias unless it is empty. */
  function DriveName(b: Block): string
    requires b.name.Some?
  {
    if b.alias != "" then b.alias else b.name.value
  }

  function BlockReadings(b: Block): seq<Reading> {
    if b.name.None? then []
    else
      var extra := map["drive" := DriveName(b)];
      [ReadingOf(IopsRead, extra, b.rdReqs, Number), ReadingOf(IopsWrite, extra, b.wrReqs, Number),
       ReadingOf(ReadTrafficBytes, extra, b.rdBytes, Number), ReadingOf(WriteTrafficBytes, extra, b.wrBytes, Number),
       ReadingOf(ReadTimesSeconds, extra, b.rdTimes, Seconds), ReadingOf(WriteTimesSeconds, extra, b.wrTimes, Seconds),
       ReadingOf(FlushRequests, extra, b.flReqs, Number), ReadingOf(FlushTimesSeconds, extra, b.flTimes, Seconds)]
  }

  function DiskReadings(d: GuestDisk): seq<Reading> {
    var extra := map["disk_name" := d.name, "mountpoint" := d.mountpoint];
    [Reading(DiskTotalBytes, extra, Some(d.total as real)), Reading(DiskUsedBytes, extra, Some(d.used as real))]
  }

  function FirstAddress(f: GuestInterface): string {
    if |f.addresses| > 0 then f.addresses[0] else ""
  }

  function InterfaceReadings(f: GuestInterface): seq<Reading> {
    [Reading(InterfaceInfo, map["interface_name" := f.name, "mac" := f.mac, "ip_address" := FirstAddress(f)], Some(1.0))]
  }

  const CPU_AND_MEMORY: seq<PlainMetric> :=
    [CpuUsage, CpuUserUsage, CpuSystemUsage, GuestLoad1m, GuestLoad5m, GuestLoad15m,
     MemoryResident, MemoryAvailable, MemoryUnused, MemoryCached, MemorySwapIn, MemorySwapOut,
     MemoryMajorFaults, MemoryMinorFaults, MemoryBalloon, MemoryUsable, MemoryDomain]

  function PlainReadings(stats: VMStats, metrics: seq<PlainMetric>): seq<Reading> {
    seq(|metrics|, i requires 0 <= i < |metrics| => Reading(Plain(metrics[i]), map[], Get(stats.numbers, metrics[i])))
  }

  function GuestReadings(stats: VMStats): seq<Reading> {
    [Reading(OsInfoMetric,
             if stats.guestOs.None? then map[]
             else
               var os := stats.guestOs.value;
               map["os_name" := os.name, "os_version" := os.version, "os_id" := os.id,
                   "kernel_release" := os.kernelRelease, "machine" := os.machine],
             if stats.guestOs.Some? then Some(1.0) else None),
     Reading(HostnameMetric,
             if stats.guestHostname.None? then map[] else map["hostname" := stats.guestHostname.value],
             if stats.guestHostname.Some? then Some(1.0) else None),
     Reading(TimezoneMetric,
             if stats.guestTimezone.None? then map[]
             else map["timezone" := stats.guestTimezone.value.zone, "offset" := DecimalInt(stats.guestTimezone.value.offset)],
             if stats.guestTimezone.Some? then Some(1.0) else None),
     ReadingOf(UserCount, map[], stats.guestUsers, Number)]
  }

  /** The readings of an entry: one table per family of metrics, one list per device, in the
      order the callback appends them. */
  function VcpuTable(s: VMStats): seq<seq<Reading>> {
    seq(|s.vcpu|, i requires 0 <= i < |s.vcpu| => VcpuReadings(i, s.vcpu[i]))
  }

  function NetTable(s: VMStats): seq<seq<Reading>> {
    seq(|s.net|, i requires 0 <= i < |s.net| => NetReadings(s.net[i]))
  }

  function BlockTable(s: VMStats): seq<seq<Reading>> {
    seq(|s.block|, i requires 0 <= i < |s.block| => BlockReadings(s.block[i]))
  }

  function DiskTable(s: VMStats): seq<seq<Reading>> {
    seq(|s.guestDisks|, i requires 0 <= i < |s.guestDisks| => DiskReadings(s.guestDisks[i]))
  }

  function InterfaceTable(s: VMStats): seq<seq<Reading>> {
    seq(|s.guestInterfaces|, i requires 0 <= i < |s.guestInterfaces| => InterfaceReadings(s.guestInterfaces[i]))
  }

  function Tables(s: VMStats): seq<seq<seq<Reading>>> {
    [[PlainReadings(s, CPU_AND_MEMORY)], VcpuTable(s), NetTable(s), BlockTable(s),
     [PlainReadings(s, [DirtyRate])], [GuestReadings(s)], DiskTable(s), InterfaceTable(s)]
  }

  function TableSamples(r: Report, table: seq<seq<Reading>>): seq<Sample> {
    Flatten(seq(|table|, i requires 0 <= i < |table| => Row(r, table[i])))
  }

  function Families(r: Report): seq<seq<Sample>> {
    var tables := Tables(r.stats);
    seq(|tables|, i requires 0 <= i < |tables| => TableSamples(r, tables[i]))
  }

  function EntrySamples(r: Report): seq<Sample> {
    Flatten(Families(r))
  }

  function Scrape(reports: seq<Report>): seq<Sample> {
    Flatten(seq(|reports|, i requires 0 <= i < |reports| => EntrySamples(reports[i])))
  }

  // --- No duplicate series ---

  ghost predicate SameSeries(a: Sample, b: Sample) {
    a.metric == b.metric && a.labels == b.labels
  }

  ghost predicate NoDuplicates(s: seq<Sample>) {
    forall i, j :: 0 <= i < j < |s| ==> !SameSeries(s[i], s[j])
  }

  ghost predicate Apart(a: seq<Sample>, b: seq<Sample>) {
    forall x, y :: x in a && y in b ==> !SameSeries(x, y)
  }

  lemma AppendNoDuplicates(a: seq<Sample>, b: seq<Sample>)
    requires NoDuplicates(a) && NoDuplicates(b) && Apart(a, b)
    ensures NoDuplicates(a + b)
  {
    forall i, j | 0 <= i < j < |a + b| ensures !SameSeries((a + b)[i], (a + b)[j]) {
      if i < |a| <= j { assert a[i] in a && b[j - |a|] in b; }
    }
  }

  /** Two samples of one series in different lists stay two samples of the flattened list. */
  lemma {:induction false} CollisionSurvives(xss: seq<seq<Sample>>, i: nat, j: nat, x: Sample, y: Sample)
    requires i < j < |xss| && x in xss[i] && y in xss[j] && SameSeries(x, y)
    ensures !NoDuplicates(Flatten(xss))
  {
    if i == 0 {
      InFlatten(xss[1..], y);
      assert y in xss[1..][j - 1];
      PairCollides(xss[0], Flatten(xss[1..]), x, y);
    } else {
      CollisionSurvives(xss[1..], i - 1, j - 1, x, y);
      PartCollides(xss[0], Flatten(xss[1..]), []);
      assert xss[0] + Flatten(xss[1..]) + [] == Flatten(xss);
    }
  }

  lemma PairCollides(a: seq<Sample>, b: seq<Sample>, x: Sample, y: Sample)
    requires x in a && y in b && SameSeries(x, y)
    ensures !NoDuplicates(a + b)
  {
    var i :| 0 <= i < |a| && a[i] == x;
    var j :| 0 <= j < |b| && b[j] == y;
    assert SameSeries((a + b)[i], (a + b)[|a| + j]);
  }

  lemma PartCollides(a: seq<Sample>, b: seq<Sample>, c: seq<Sample>)
    requires !NoDuplicates(b)
    ensures !NoDuplicates(a + b + c)
  {
    var i, j :| 0 <= i < j < |b| && SameSeries(b[i], b[j]);
    assert SameSeries((a + b + c)[|a| + i], (a + b + c)[|a| + j]);
  }

  lemma {:induction false} ListCollides(xss: seq<seq<Sample>>, i: nat)
    requires i < |xss| && !NoDuplicates(xss[i])
    ensures !NoDuplicates(Flatten(xss))
  {
    if i == 0 {
      PartCollides([], xss[0], Flatten(xss[1..]));
      assert [] + xss[0] + Flatten(xss[1..]) == Flatten(xss);
    } else {
      ListCollides(xss[1..], i - 1);
      PartCollides(xss[0], Flatten(xss[1..]), []);
      assert xss[0] + Flatten(xss[1..]) + [] == Flatten(xss);
    }
  }

  /** A flattened list holds no series twice exactly when no list does and no two lists share one. */
  lemma FlattenNoDuplicates(xss: seq<seq<Sample>>)
    ensures NoDuplicates(Flatten(xss)) <==>
      && (forall i :: 0 <= i < |xss| ==> NoDuplicates(xss[i]))
      && (forall i, j :: 0 <= i < j < |xss| ==> Apart(xss[i], xss[j]))
  {
    if i :| 0 <= i < |xss| && !NoDuplicates(xss[i]) {
      ListCollides(xss, i);
    } else if i, j :| 0 <= i < j < |xss| && !Apart(xss[i], xss[j]) {
      var x, y :| x in xss[i] && y in xss[j] && SameSeries(x, y);
      CollisionSurvives(xss, i, j, x, y);
    } else {
      AllApart(xss);
    }
  }

  lemma {:induction false} AllApart(xss: seq<seq<Sample>>)
    requires forall i :: 0 <= i < |xss| ==> NoDuplicates(xss[i])
    requires forall i, j :: 0 <= i < j < |xss| ==> Apart(xss[i], xss[j])
    ensures NoDuplicates(Flatten(xss))
  {
    if xss != [] {
      AllApart(xss[1..]);
      forall x, y | x in xss[0] && y in Flatten(xss[1..]) ensures !SameSeries(x, y) {
        InFlatten(xss[1..], y);
        var i :| 0 <= i < |xss[1..]| && y in xss[1..][i];
        assert Apart(xss[0], xss[i + 1]);
      }
      AppendNoDuplicates(xss[0], Flatten(xss[1..]));
    }
  }

  /** A sample of a row comes from one of its readings, and every reading's sample is in the row. */
  lemma {:induction false} InRow(r: Report, readings: seq<Reading>, x: Sample)
    ensures x in Row(r, readings) <==> exists i :: 0 <= i < |readings| && x in Emit(r, readings[i])
  {
    if readings != [] {
      InRow(r, readings[1..], x);
      forall i | 0 < i < |readings| ensures readings[i] == readings[1..][i - 1] {
      }
    }
  }

  lemma {:induction false} RowNoDuplicates(r: Report, readings: seq<Reading>)
    requires DistinctMetrics(readings)
    ensures NoDuplicates(Row(r, readings))
  {
    if readings != [] {
      RowNoDuplicates(r, readings[1..]);
      forall x, y | x in Emit(r, readings[0]) && y in Row(r, readings[1..]) ensures !SameSeries(x, y) {
        InRow(r, readings[1..], y);
        var i :| 0 <= i < |readings[1..]| && y in Emit(r, readings[1..][i]);
        assert readings[i + 1] == readings[1..][i];
      }
      AppendNoDuplicates(Emit(r, readings[0]), Row(r, readings[1..]));
    }
  }

  ghost predicate DistinctMetrics(readings: seq<Reading>) {
    forall i, j :: 0 <= i < j < |readings| ==> readings[i].metric != readings[j].metric
  }

  /** Readings of one metric have own labels of the same names. */
  ghost predicate Uniform(a: seq<Reading>, b: seq<Reading>) {
    forall i, j :: 0 <= i < |a| && 0 <= j < |b| && a[i].metric == b[j].metric ==> a[i].extra.Keys == b[j].extra.Keys
  }

  /** Both devices report one metric under the same own labels. */
  ghost predicate Clash(a: seq<Reading>, b: seq<Reading>) {
    exists i, j :: 0 <= i < |a| && 0 <= j < |b| && BothReport(a[i], b[j])
  }

  ghost predicate BothReport(x: Reading, y: Reading) {
    x.value.Some? && y.value.Some? && x.metric == y.metric && x.extra == y.extra
  }

  lemma LabelsDiffer(r: Report, e: map<string, string>, e': map<string, string>)
    requires e.Keys == e'.Keys && MergedLabels(r, e) == MergedLabels(r, e')
    ensures e == e'
  {
    forall k | k in e ensures e[k] == e'[k] {
      assert MergedLabels(r, e)[k] == e[k] && MergedLabels(r, e')[k] == e'[k];
    }
  }

  lemma EmitsApart(r: Report, x: Reading, y: Reading)
    requires x.metric == y.metric ==> x.extra.Keys == y.extra.Keys
    ensures Apart(Emit(r, x), Emit(r, y)) <==> !BothReport(x, y)
  {
    if x.value.Some? && y.value.Some? {
      assert Emit(r, x)[0] in Emit(r, x) && Emit(r, y)[0] in Emit(r, y);
      if SameSeries(Emit(r, x)[0], Emit(r, y)[0]) { LabelsDiffer(r, x.extra, y.extra); }
    }
  }

  /** Two devices share a series exactly when they clash. */
  lemma RowsApart(r: Report, a: seq<Reading>, b: seq<Reading>)
    requires Uniform(a, b)
    ensures Apart(Row(r, a), Row(r, b)) <==> !Clash(a, b)
  {
    if Clash(a, b) {
      var i, j :| 0 <= i < |a| && 0 <= j < |b| && BothReport(a[i], b[j]);
      EmitsApart(r, a[i], b[j]);
      var x, y :| x in Emit(r, a[i]) && y in Emit(r, b[j]) && SameSeries(x, y);
      InRow(r, a, x);
      InRow(r, b, y);
    } else {
      forall x, y | x in Row(r, a) && y in Row(r, b) ensures !SameSeries(x, y) {
        InRow(r, a, x);
        InRow(r, b, y);
        var i :| 0 <= i < |a| && x in Emit(r, a[i]);
        var j :| 0 <= j < |b| && y in Emit(r, b[j]);
        EmitsApart(r, a[i], b[j]);
      }
    }
  }

  ghost predicate WellFormedTable(table: seq<seq<Reading>>) {
    && (forall i :: 0 <= i < |table| ==> DistinctMetrics(table[i]))
    && (forall i, j :: 0 <= i < j < |table| ==> Uniform(table[i], table[j]))
  }

  ghost predicate NoneClash(table: seq<seq<Reading>>) {
    forall i, j :: 0 <= i < j < |table| ==> !Clash(table[i], table[j])
  }

  /** The samples of a table are different series exactly when no two of its devices clash. */
  lemma TableNoDuplicates(r: Report, table: seq<seq<Reading>>)
    requires WellFormedTable(table)
    ensures NoDuplicates(TableSamples(r, table)) <==> NoneClash(table)
  {
    var rows := seq(|table|, i requires 0 <= i < |table| => Row(r, table[i]));
    forall i | 0 <= i < |table| ensures NoDuplicates(rows[i]) {
      RowNoDuplicates(r, table[i]);
    }
    forall i, j | 0 <= i < j < |table| ensures Apart(rows[i], rows[j]) <==> !Clash(table[i], table[j]) {
      RowsApart(r, table[i], table[j]);
    }
    FlattenNoDuplicates(rows);
  }

  /** vCPUs never clash: their ids differ. */
  lemma VcpusToldApart(r: Report)
    ensures NoDuplicates(TableSamples(r, VcpuTable(r.stats)))
  {
    var t, v := VcpuTable(r.stats), r.stats.vcpu;
    forall i | 0 <= i < |t| ensures DistinctMetrics(t[i]) {
      VcpuIds(i, v[i]);
    }
    forall i, j | 0 <= i < j < |t| ensures Uniform(t[i], t[j]) && !Clash(t[i], t[j]) {
      DecimalReads(i);
      DecimalReads(j);
      VcpuIds(i, v[i]);
      VcpuIds(j, v[j]);
      VcpusAlign(i, v[i], j, v[j]);
    }
    TableNoDuplicates(r, t);
  }

  lemma VcpusAlign(i: nat, v: Vcpu, j: nat, w: Vcpu)
    ensures Uniform(VcpuReadings(i, v), VcpuReadings(j, w))
  {
  }

  lemma VcpuIds(index: nat, v: Vcpu)
    ensures DistinctMetrics(VcpuReadings(index, v))
    ensures var d := VcpuReadings(index, v);
      forall i :: 0 <= i < |d| ==> "id" in d[i].extra && d[i].extra["id"] == Decimal(index)
  {
  }

  // Which devices of a VMI clash, from the statistics alone.

  predicate BothSet(a: Option<nat>, b: Option<nat>) {
    a.Some? && b.Some?
  }

  /** Some metric has its set flag true in both. */
  predicate NetsOverlap(a: Net, b: Net) {
    || BothSet(a.rxBytes, b.rxBytes) || BothSet(a.txBytes, b.txBytes) || BothSet(a.rxPkts, b.rxPkts) || BothSet(a.txPkts, b.txPkts)
    || BothSet(a.rxErrs, b.rxErrs) || BothSet(a.txErrs, b.txErrs) || BothSet(a.rxDrop, b.rxDrop) || BothSet(a.txDrop, b.txDrop)
  }

  predicate DrivesOverlap(a: Block, b: Block) {
    || BothSet(a.rdReqs, b.rdReqs) || BothSet(a.wrReqs, b.wrReqs) || BothSet(a.rdBytes, b.rdBytes) || BothSet(a.wrBytes, b.wrBytes)
    || BothSet(a.rdTimes, b.rdTimes) || BothSet(a.wrTimes, b.wrTimes) || BothSet(a.flReqs, b.flReqs) || BothSet(a.flTimes, b.flTimes)
  }

  /** Both interfaces are named, come out under one name, and report one metric. */
  predicate NetsClash(a: Net, b: Net) {
    a.name.Some? && b.name.Some? && InterfaceName(a) == InterfaceName(b) && NetsOverlap(a, b)
  }

  predicate DrivesClash(a: Block, b: Block) {
    a.name.Some? && b.name.Some? && DriveName(a) == DriveName(b) && DrivesOverlap(a, b)
  }

  predicate DisksClash(d: GuestDisk, e: GuestDisk) {
    d.name == e.name && d.mountpoint == e.mountpoint
  }

  predicate GuestInterfacesClash(f: GuestInterface, g: GuestInterface) {
    f.name == g.name && f.mac == g.mac && FirstAddress(f) == FirstAddress(g)
  }

  ghost predicate NoNetsClash(s: VMStats) {
    forall i, j :: 0 <= i < j < |s.net| ==> !NetsClash(s.net[i], s.net[j])
  }

  ghost predicate NoDrivesClash(s: VMStats) {
    forall i, j :: 0 <= i < j < |s.block| ==> !DrivesClash(s.block[i], s.block[j])
  }

  ghost predicate NoDisksClash(s: VMStats) {
    forall i, j :: 0 <= i < j < |s.guestDisks| ==> !DisksClash(s.guestDisks[i], s.guestDisks[j])
  }

  ghost predicate NoGuestInterfacesClash(s: VMStats) {
    forall i, j :: 0 <= i < j < |s.guestInterfaces| ==> !GuestInterfacesClash(s.guestInterfaces[i], s.guestInterfaces[j])
  }

  ghost predicate NoClash(s: VMStats) {
    NoNetsClash(s) && NoDrivesClash(s) && NoDisksClash(s) && NoGuestInterfacesClash(s)
  }

  /** Every reading of the row carries just this own label. */
  ghost predicate Carries(readings: seq<Reading>, name: string, value: string) {
    forall i :: 0 <= i < |readings| ==> readings[i].extra == map[name := value]
  }

  ghost predicate SameMetrics(x: seq<Reading>, y: seq<Reading>) {
    |x| == |y| && forall i :: 0 <= i < |x| ==> x[i].metric == y[i].metric
  }

  ghost predicate BothValued(x: Reading, y: Reading) {
    x.value.Some? && y.value.Some?
  }

  /** Two rows of the same metrics in the same order clash position by position. */
  lemma SameIndexClash(x: seq<Reading>, y: seq<Reading>)
    requires DistinctMetrics(x) && SameMetrics(x, y)
    ensures Clash(x, y) <==> exists i :: 0 <= i < |x| && BothReport(x[i], y[i])
  {
  }

  lemma NamedClash(x: seq<Reading>, y: seq<Reading>, name: string, vx: string, vy: string)
    requires DistinctMetrics(x) && SameMetrics(x, y) && Carries(x, name, vx) && Carries(y, name, vy)
    ensures Uniform(x, y)
    ensures Clash(x, y) <==> vx == vy && AnyValued(x, y)
  {
    SameIndexClash(x, y);
    assert map[name := vx][name] == vx && map[name := vy][name] == vy;
    if i :| vx == vy && 0 <= i < |x| && BothValued(x[i], y[i]) {
      assert BothReport(x[i], y[i]);
    }
  }

  ghost predicate AnyValued(x: seq<Reading>, y: seq<Reading>)
    requires |x| == |y|
  {
    exists i :: 0 <= i < |x| && BothValued(x[i], y[i])
  }

  lemma EightValued(x: seq<Reading>, y: seq<Reading>)
    requires |x| == |y| == 8
    ensures AnyValued(x, y) <==>
      || BothValued(x[0], y[0]) || BothValued(x[1], y[1]) || BothValued(x[2], y[2]) || BothValued(x[3], y[3])
      || BothValued(x[4], y[4]) || BothValued(x[5], y[5]) || BothValued(x[6], y[6]) || BothValued(x[7], y[7])
  {
  }

  lemma NetsShape(a: Net)
    requires a.name.Some?
    ensures DistinctMetrics(NetReadings(a)) && Carries(NetReadings(a), "interface", InterfaceName(a))
  {
  }

  lemma NetsAlign(a: Net, b: Net)
    requires a.name.Some? && b.name.Some?
    ensures SameMetrics(NetReadings(a), NetReadings(b))
  {
  }

  lemma NetsNamed(a: Net, b: Net)
    requires a.name.Some? && b.name.Some?
    ensures var x, y := NetReadings(a), NetReadings(b);
      Uniform(x, y) && (Clash(x, y) <==> InterfaceName(a) == InterfaceName(b) && AnyValued(x, y))
  {
    NetsShape(a);
    NetsShape(b);
    NetsAlign(a, b);
    NamedClash(NetReadings(a), NetReadings(b), "interface", InterfaceName(a), InterfaceName(b));
  }

  lemma NetsValued(a: Net, b: Net)
    requires a.name.Some? && b.name.Some?
    ensures AnyValued(NetReadings(a), NetReadings(b)) <==> NetsOverlap(a, b)
  {
    EightValued(NetReadings(a), NetReadings(b));
  }

  lemma NetsClashIff(a: Net, b: Net)
    ensures Uniform(NetReadings(a), NetReadings(b))
    ensures Clash(NetReadings(a), NetReadings(b)) <==> NetsClash(a, b)
  {
    if a.name.Some? && b.name.Some? {
      NetsNamed(a, b);
      NetsValued(a, b);
    }
  }

  lemma DrivesShape(a: Block)
    requires a.name.Some?
    ensures DistinctMetrics(BlockReadings(a)) && Carries(BlockReadings(a), "drive", DriveName(a))
  {
  }

  lemma DrivesAlign(a: Block, b: Block)
    requires a.name.Some? && b.name.Some?
    ensures SameMetrics(BlockReadings(a), BlockReadings(b))
  {
  }

  lemma DrivesNamed(a: Block, b: Block)
    requires a.name.Some? && b.name.Some?
    ensures var x, y := BlockReadings(a), BlockReadings(b);
      Uniform(x, y) && (Clash(x, y) <==> DriveName(a) == DriveName(b) && AnyValued(x, y))
  {
    DrivesShape(a);
    DrivesShape(b);
    DrivesAlign(a, b);
    NamedClash(BlockReadings(a), BlockReadings(b), "drive", DriveName(a), DriveName(b));
  }

  lemma DrivesValued(a: Block, b: Block)
    requires a.name.Some? && b.name.Some?
    ensures AnyValued(BlockReadings(a), BlockReadings(b)) <==> DrivesOverlap(a, b)
  {
    EightValued(BlockReadings(a), BlockReadings(b));
  }

  lemma DrivesClashIff(a: Block, b: Block)
    ensures Uniform(BlockReadings(a), BlockReadings(b))
    ensures Clash(BlockReadings(a), BlockReadings(b)) <==> DrivesClash(a, b)
  {
    if a.name.Some? && b.name.Some? {
      DrivesNamed(a, b);
      DrivesValued(a, b);
    }
  }

  lemma DisksClashIff(d: GuestDisk, e: GuestDisk)
    ensures Uniform(DiskReadings(d), DiskReadings(e))
    ensures Clash(DiskReadings(d), DiskReadings(e)) <==> DisksClash(d, e)
  {
    var x, y := DiskReadings(d), DiskReadings(e);
    SameIndexClash(x, y);
    assert x[0].extra == y[0].extra <==> DisksClash(d, e) by {
      assert x[0].extra["disk_name"] == d.name && y[0].extra["disk_name"] == e.name;
      assert x[0].extra["mountpoint"] == d.mountpoint && y[0].extra["mountpoint"] == e.mountpoint;
    }
    assert BothReport(x[0], y[0]) <==> DisksClash(d, e);
  }

  lemma GuestInterfacesClashIff(f: GuestInterface, g: GuestInterface)
    ensures Uniform(InterfaceReadings(f), InterfaceReadings(g))
    ensures Clash(InterfaceReadings(f), InterfaceReadings(g)) <==> GuestInterfacesClash(f, g)
  {
    var x, y := InterfaceReadings(f)[0].extra, InterfaceReadings(g)[0].extra;
    assert x["interface_name"] == f.name && x["mac"] == f.mac && x["ip_address"] == FirstAddress(f);
    assert y["interface_name"] == g.name && y["mac"] == g.mac && y["ip_address"] == FirstAddress(g);
    assert BothReport(InterfaceReadings(f)[0], InterfaceReadings(g)[0]) <==> GuestInterfacesClash(f, g);
  }

  lemma NetsToldApart(r: Report)
    ensures NoDuplicates(TableSamples(r, NetTable(r.stats))) <==> NoNetsClash(r.stats)
  {
    var t, n := NetTable(r.stats), r.stats.net;
    forall i | 0 <= i < |t| ensures DistinctMetrics(t[i]) {
      if n[i].name.Some? { NetsShape(n[i]); }
    }
    forall i, j | 0 <= i < j < |t| ensures Uniform(t[i], t[j]) && (Clash(t[i], t[j]) <==> NetsClash(n[i], n[j])) {
      NetsClashIff(n[i], n[j]);
    }
    TableNoDuplicates(r, t);
  }

  lemma BlocksToldApart(r: Report)
    ensures NoDuplicates(TableSamples(r, BlockTable(r.stats))) <==> NoDrivesClash(r.stats)
  {
    var t, d := BlockTable(r.stats), r.stats.block;
    forall i | 0 <= i < |t| ensures DistinctMetrics(t[i]) {
      if d[i].name.Some? { DrivesShape(d[i]); }
    }
    forall i, j | 0 <= i < j < |t| ensures Uniform(t[i], t[j]) && (Clash(t[i], t[j]) <==> DrivesClash(d[i], d[j])) {
      DrivesClashIff(d[i], d[j]);
    }
    TableNoDuplicates(r, t);
  }

  lemma DisksToldApart(r: Report)
    ensures NoDuplicates(TableSamples(r, DiskTable(r.stats))) <==> NoDisksClash(r.stats)
  {
    var t, d := DiskTable(r.stats), r.stats.guestDisks;
    forall i, j | 0 <= i < j < |t| ensures Uniform(t[i], t[j]) && (Clash(t[i], t[j]) <==> DisksClash(d[i], d[j])) {
      DisksClashIff(d[i], d[j]);
    }
    TableNoDuplicates(r, t);
  }

  lemma InterfacesToldApart(r: Report)
    ensures NoDuplicates(TableSamples(r, InterfaceTable(r.stats))) <==> NoGuestInterfacesClash(r.stats)
  {
    var t, f := InterfaceTable(r.stats), r.stats.guestInterfaces;
    forall i, j | 0 <= i < j < |t| ensures Uniform(t[i], t[j]) && (Clash(t[i], t[j]) <==> GuestInterfacesClash(f[i], f[j])) {
      GuestInterfacesClashIff(f[i], f[j]);
    }
    TableNoDuplicates(r, t);
  }

  lemma SingleTable(r: Report, readings: seq<Reading>)
    requires DistinctMetrics(readings)
    ensures NoDuplicates(TableSamples(r, [readings]))
  {
    TableNoDuplicates(r, [readings]);
  }

  lemma PlainMetricsDistinct(s: VMStats)
    ensures DistinctMetrics(PlainReadings(s, CPU_AND_MEMORY)) && DistinctMetrics(PlainReadings(s, [DirtyRate]))
  {
  }

  lemma GuestMetricsDistinct(s: VMStats)
    ensures DistinctMetrics(GuestReadings(s))
  {
  }

  /** When the family holds no series twice. */
  ghost predicate FamilyNoClash(s: VMStats, f: nat) {
    match f
    case 2 => NoNetsClash(s)
    case 3 => NoDrivesClash(s)
    case 6 => NoDisksClash(s)
    case 7 => NoGuestInterfacesClash(s)
    case _ => true
  }

  lemma FamilyNoDuplicates(r: Report, f: nat)
    requires f < |Families(r)|
    ensures NoDuplicates(Families(r)[f]) <==> FamilyNoClash(r.stats, f)
  {
    if f == 1 { VcpusToldApart(r); }
    else if f == 2 { NetsToldApart(r); }
    else if f == 3 { BlocksToldApart(r); }
    else if f == 6 { DisksToldApart(r); }
    else if f == 7 { InterfacesToldApart(r); }
    else if f == 5 { GuestMetricsDistinct(r.stats); SingleTable(r, GuestReadings(r.stats)); }
    else {
      PlainMetricsDistinct(r.stats);
      SingleTable(r, PlainReadings(r.stats, if f == 0 then CPU_AND_MEMORY else [DirtyRate]));
    }
  }

  /** Which table a metric belongs to. */
  ghost function FamilyOf(m: Metric): nat {
    match m
    case Plain(p) => if p.DirtyRate? then 4 else 0
    case VcpuSeconds => 1
    case VcpuWaitSeconds => 1
    case VcpuDelaySeconds => 1
    case OsInfoMetric => 5
    case HostnameMetric => 5
    case TimezoneMetric => 5
    case UserCount => 5
    case DiskTotalBytes => 6
    case DiskUsedBytes => 6
    case InterfaceInfo => 7
    case _ => if m in {IopsRead, IopsWrite, ReadTrafficBytes, WriteTrafficBytes,
                       ReadTimesSeconds, WriteTimesSeconds, FlushRequests, FlushTimesSeconds} then 3 else 2
  }

  /** Every reading of table f is of a metric of family f and keeps the base labels. */
  ghost predicate InFamily(readings: seq<Reading>, f: nat) {
    forall i :: 0 <= i < |readings| ==> FamilyOf(readings[i].metric) == f && KeepsBase(readings[i].extra)
  }

  lemma BlockAndNetFamilies(s: VMStats)
    ensures forall j :: 0 <= j < |NetTable(s)| ==> InFamily(NetTable(s)[j], 2)
    ensures forall j :: 0 <= j < |BlockTable(s)| ==> InFamily(BlockTable(s)[j], 3)
  {
    assert "interface"[0] != "namespace"[0];
  }

  lemma GuestFamilies(s: VMStats)
    ensures InFamily(GuestReadings(s), 5)
  {
  }

  lemma GuestListFamilies(s: VMStats)
    ensures forall j :: 0 <= j < |DiskTable(s)| ==> InFamily(DiskTable(s)[j], 6)
    ensures forall j :: 0 <= j < |InterfaceTable(s)| ==> InFamily(InterfaceTable(s)[j], 7)
  {
    assert "disk_name"[0] != "namespace"[0];
  }

  lemma FamiliesHold(s: VMStats, f: nat, j: nat)
    requires f < |Tables(s)| && j < |Tables(s)[f]|
    ensures InFamily(Tables(s)[f][j], f)
  {
    BlockAndNetFamilies(s);
    GuestFamilies(s);
    GuestListFamilies(s);
  }

  lemma InTable(r: Report, table: seq<seq<Reading>>, x: Sample) returns (j: nat, i: nat)
    requires x in TableSamples(r, table)
    ensures j < |table| && i < |table[j]| && x in Emit(r, table[j][i])
  {
    var rows := seq(|table|, n requires 0 <= n < |table| => Row(r, table[n]));
    InFlatten(rows, x);
    j :| 0 <= j < |rows| && x in rows[j];
    InRow(r, table[j], x);
    i :| 0 <= i < |table[j]| && x in Emit(r, table[j][i]);
  }

  lemma FamilySample(r: Report, f: nat, x: Sample)
    requires f < |Families(r)| && x in Families(r)[f]
    ensures FamilyOf(x.metric) == f
    ensures IsReport(r) ==> Identified(r, x)
  {
    var j, i := InTable(r, Tables(r.stats)[f], x);
    FamiliesHold(r.stats, f, j);
    if IsReport(r) { BaseLabelsKept(r, Tables(r.stats)[f][j][i].extra); }
  }

  /** The sample carries the VMI's node, namespace and name. */
  ghost predicate Identified(r: Report, x: Sample) {
    && "namespace" in x.labels && x.labels["namespace"] == r.vmi.namespace
    && "name" in x.labels && x.labels["name"] == r.vmi.name
    && "node" in x.labels && x.labels["node"] == r.vmi.node
  }

  /** Every sample of an entry carries the VMI's node, namespace and name, whatever labels the VMI has. */
  lemma EntryCarriesIdentity(r: Report, x: Sample)
    requires x in EntrySamples(r) && IsReport(r)
    ensures Identified(r, x)
  {
    InFlatten(Families(r), x);
    var f :| 0 <= f < |Families(r)| && x in Families(r)[f];
    FamilySample(r, f, x);
  }

  /** All samples of an entry are different series exactly when no two of its devices clash. */
  lemma EntryNoDuplicates(r: Report)
    ensures NoDuplicates(EntrySamples(r)) <==> NoClash(r.stats)
  {
    forall f | 0 <= f < |Families(r)| ensures NoDuplicates(Families(r)[f]) <==> FamilyNoClash(r.stats, f) {
      FamilyNoDuplicates(r, f);
    }
    forall f, g | 0 <= f < g < |Families(r)| ensures Apart(Families(r)[f], Families(r)[g]) {
      forall x, y | x in Families(r)[f] && y in Families(r)[g] ensures !SameSeries(x, y) {
        FamilySample(r, f, x);
        FamilySample(r, g, y);
      }
    }
    FlattenNoDuplicates(Families(r));
    FamiliesNoClash(r.stats);
  }

  lemma FamiliesNoClash(s: VMStats)
    ensures NoClash(s) <==> forall f :: 0 <= f < 8 ==> FamilyNoClash(s, f)
  {
    if forall f :: 0 <= f < 8 ==> FamilyNoClash(s, f) {
      assert FamilyNoClash(s, 2) && FamilyNoClash(s, 3) && FamilyNoClash(s, 6) && FamilyNoClash(s, 7);
    }
  }

  /** No two samples of one scrape are the same series, same metric and same labels, exactly when no two
      devices of one VMI clash. */
  lemma ScrapeHasNoDuplicates(reports: seq<Report>)
    requires forall i :: 0 <= i < |reports| ==> IsReport(reports[i])
    requires forall i, j :: 0 <= i < j < |reports| ==> Key(reports[i].vmi) != Key(reports[j].vmi)
    ensures NoDuplicates(Scrape(reports)) <==> forall i :: 0 <= i < |reports| ==> NoClash(reports[i].stats)
  {
    var xss := seq(|reports|, i requires 0 <= i < |reports| => EntrySamples(reports[i]));
    forall i | 0 <= i < |xss| ensures NoDuplicates(xss[i]) <==> NoClash(reports[i].stats) {
      EntryNoDuplicates(reports[i]);
    }
    forall i, j | 0 <= i < j < |xss| ensures Apart(xss[i], xss[j]) {
      forall x, y | x in xss[i] && y in xss[j] ensures !SameSeries(x, y) {
        EntryCarriesIdentity(reports[i], x);
        EntryCarriesIdentity(reports[j], y);
      }
    }
    FlattenNoDuplicates(xss);
  }

  /** Two clashing drives, as when one's alias is the other's name, make a series appear twice. */
  lemma ClashingDrivesCollide(r: Report, i: nat, j: nat)
    requires i < j < |r.stats.block| && DrivesClash(r.stats.block[i], r.stats.block[j])
    ensures !NoDuplicates(EntrySamples(r))
  {
    EntryNoDuplicates(r);
  }

  /** An input: the second drive's alias is the first one's name. */
  lemma AliasOfAnother(vmi: VMI, labels: map<string, string>)
    ensures var vda := Block(Some("vda"), "", Some(1), None, None, None, None, None, None, None);
      var vdb := Block(Some("vdb"), "vda", Some(2), None, None, None, None, None, None, None);
      !NoDuplicates(EntrySamples(Report(vmi, VMStats(map[], [], [], [vda, vdb], None, None, None, None, [], []), labels)))
  {
    var vda := Block(Some("vda"), "", Some(1), None, None, None, None, None, None, None);
    var vdb := Block(Some("vdb"), "vda", Some(2), None, None, None, None, None, None, None);
    var r := Report(vmi, VMStats(map[], [], [], [vda, vdb], None, None, None, None, [], []), labels);
    assert DriveName(vda) == "vda" == DriveName(vdb);
    ClashingDrivesCollide(r, 0, 1);
  }

  /** Per VMI: effective drive names, effective interface names, guest (disk, mount point) pairs and
      guest interface triples are distinct. */
  ghost predicate DistinctDevices(s: VMStats) {
    && (forall i, j :: 0 <= i < j < |s.block| && s.block[i].name.Some? && s.block[j].name.Some? ==>
          DriveName(s.block[i]) != DriveName(s.block[j]))
    && (forall i, j :: 0 <= i < j < |s.net| && s.net[i].name.Some? && s.net[j].name.Some? ==>
          InterfaceName(s.net[i]) != InterfaceName(s.net[j]))
    && NoDisksClash(s) && NoGuestInterfacesClash(s)
  }

  /** Distinct names are enough. */
  lemma DistinctDevicesSuffice(r: Report)
    requires DistinctDevices(r.stats)
    ensures NoDuplicates(EntrySamples(r))
  {
    EntryNoDuplicates(r);
  }
}
