/** The samples reported for virtual machines: exported labels and status timestamps. */
module VMStatuses {
  import opened Collections
  import opened Labels

  datatype Condition = Condition(ctype: string, time: int)

  /** `templateLabels` is `None` for a machine without a template. */
  datatype VM = VM(
    name: string, namespace: string, status: string, conditions: seq<Condition>,
    labels: map<string, string>, templateLabels: Option<map<string, string>>)

  datatype Metric =
    | StartingTimestamp | RunningTimestamp | MigratingTimestamp | NonRunningTimestamp | ErrorTimestamp
    | VMLabels

  datatype Sample = Sample(metric: Metric, labels: seq<string>, constLabels: map<string, string>, value: int)

  const STARTING: seq<string> := ["Provisioning", "Starting", "WaitingForVolumeBinding"]
  const RUNNING: seq<string> := ["Running"]
  const MIGRATING: seq<string> := ["Migrating"]
  const NON_RUNNING: seq<string> := ["Stopped", "Paused", "Stopping", "Terminating"]
  const ERROR: seq<string> :=
    ["CrashLoopBackOff", "Unknown", "ErrorUnschedulable", "ErrImagePull", "ImagePullBackOff", "ErrorPvcNotFound", "DataVolumeError"]

  function GetVMStatusGroup(status: string): string {
    if status in STARTING then "starting"
    else if status in RUNNING then "running"
    else if status in MIGRATING then "migrating"
    else if status in NON_RUNNING then "non_running"
    else if status in ERROR then "error"
    else "<unknown>"
  }

  function GetTimestampMetric(status: string): Metric {
    if status in STARTING then StartingTimestamp
    else if status in RUNNING then RunningTimestamp
    else if status in MIGRATING then MigratingTimestamp
    else if status in NON_RUNNING then NonRunningTimestamp
    else ErrorTimestamp
  }

  ghost function GroupOfMetric(m: Metric): string
    requires !m.VMLabels?
  {
    match m
    case StartingTimestamp => "starting"
    case RunningTimestamp => "running"
    case MigratingTimestamp => "migrating"
    case NonRunningTimestamp => "non_running"
    case ErrorTimestamp => "error"
  }

  /** The timestamp metric and the status group agree on every status the group function knows; every other
      status, a status of no list such as "WaitingForReceiver", is counted as an error by the metric alone. */
  lemma GroupAndMetricAgree(status: string)
    ensures GetVMStatusGroup(status) == GroupOfMetric(GetTimestampMetric(status))
        <==> status in STARTING + RUNNING + MIGRATING + NON_RUNNING + ERROR
    ensures status !in STARTING + RUNNING + MIGRATING + NON_RUNNING + ERROR ==>
      GetVMStatusGroup(status) == "<unknown>" && GetTimestampMetric(status) == ErrorTimestamp
  {
    assert "<unknown>"[0] != "error"[0];
  }

  lemma ReceiverIsUnknown()
    ensures GetVMStatusGroup("WaitingForReceiver") == "<unknown>"
  {
    assert |"WaitingForReceiver"| == 18 && "WaitingForReceiver"[0] == 'W';
    assert |"ErrorUnschedulable"| == 18 && "ErrorUnschedulable"[0] == 'E';
    assert |"CrashLoopBackOff"| == 16 && |"ImagePullBackOff"| == 16;
    assert |"WaitingForVolumeBinding"| == 23;
  }

  /** The group of every status, spelled out. */
  lemma GroupsSpelledOut(status: string)
    ensures GetVMStatusGroup(status) == "starting" <==>
      status == "Provisioning" || status == "Starting" || status == "WaitingForVolumeBinding"
    ensures GetVMStatusGroup(status) == "running" <==> status == "Running"
    ensures GetVMStatusGroup(status) == "migrating" <==> status == "Migrating"
    ensures GetVMStatusGroup(status) == "non_running" <==>
      status == "Stopped" || status == "Paused" || status == "Stopping" || status == "Terminating"
    ensures GetVMStatusGroup(status) == "error" <==>
      || status == "CrashLoopBackOff" || status == "Unknown" || status == "ErrorUnschedulable" || status == "ErrImagePull"
      || status == "ImagePullBackOff" || status == "ErrorPvcNotFound" || status == "DataVolumeError"
  {
    GroupNamesDiffer();
    ListsDisjoint(status);
  }

  /** And its timestamp metric. */
  lemma MetricsSpelledOut(status: string)
    ensures GetTimestampMetric(status) == StartingTimestamp <==>
      status == "Provisioning" || status == "Starting" || status == "WaitingForVolumeBinding"
    ensures GetTimestampMetric(status) == RunningTimestamp <==> status == "Running"
    ensures GetTimestampMetric(status) == MigratingTimestamp <==> status == "Migrating"
    ensures GetTimestampMetric(status) == NonRunningTimestamp <==>
      status == "Stopped" || status == "Paused" || status == "Stopping" || status == "Terminating"
    ensures GetTimestampMetric(status) != VMLabels
  {
    ListsDisjoint(status);
  }

  lemma GroupNamesDiffer()
    ensures "starting" != "running" && "starting" != "migrating" && "starting" != "non_running" && "starting" != "error"
    ensures "running" != "migrating" && "running" != "non_running" && "running" != "error"
    ensures "migrating" != "non_running" && "migrating" != "error" && "non_running" != "error"
    ensures "<unknown>" !in {"starting", "running", "migrating", "non_running", "error"}
  {
    assert "<unknown>"[0] == '<' && "migrating"[0] == 'm';
  }

  /** No status is on two of the lists. */
  lemma ListsDisjoint(status: string)
    ensures status in STARTING ==> status !in RUNNING + MIGRATING + NON_RUNNING + ERROR
    ensures status in RUNNING ==> status !in MIGRATING + NON_RUNNING + ERROR
    ensures status in MIGRATING ==> status !in NON_RUNNING + ERROR
    ensures status in NON_RUNNING ==> status !in ERROR
  {
    FirstMarks();
    LastMark();
  }

  /** A number for each list, told by length and first letters. */
  ghost function MarkOf(status: string): int {
    match |status|
    case 6 => 4
    case 7 => if status[0] == 'R' then 2 else if status[0] == 'S' then 4 else 5
    case 8 => if status[3] == 'r' then 1 else 4
    case 9 => 3
    case 11 => 4
    case 12 => if status[0] == 'P' then 1 else 5
    case 23 => 1
    case _ => 5
  }

  lemma FirstMarks()
    ensures forall s :: s in STARTING ==> MarkOf(s) == 1
    ensures forall s :: s in RUNNING ==> MarkOf(s) == 2
    ensures forall s :: s in MIGRATING ==> MarkOf(s) == 3
    ensures forall s :: s in NON_RUNNING ==> MarkOf(s) == 4
  {
  }

  lemma LastMark()
    ensures forall s :: s in ERROR ==> MarkOf(s) == 5
  {
  }

  /** The condition types whose transition times count. */
  predicate Eligible(c: Condition) {
    c.ctype == "Ready" || c.ctype == "Failure" || c.ctype == "Paused"
  }

  ghost function Latest(conditions: seq<Condition>): int {
    if conditions == [] then -1
    else
      var n := |conditions| - 1;
      var before := Latest(conditions[..n]);
      if Eligible(conditions[n]) && conditions[n].time > before then conditions[n].time else before
  }

  /** The greatest eligible transition time, or -1 when none exceeds -1. */
  lemma {:induction false} LatestIsGreatest(conditions: seq<Condition>)
    ensures Latest(conditions) >= -1
    ensures forall c :: c in conditions && (c.ctype == "Ready" || c.ctype == "Failure" || c.ctype == "Paused") ==>
      c.time <= Latest(conditions)
    ensures Latest(conditions) == -1 || exists c ::
      c in conditions && (c.ctype == "Ready" || c.ctype == "Failure" || c.ctype == "Paused") && c.time == Latest(conditions)
  {
    if conditions != [] {
      var n := |conditions| - 1;
      LatestIsGreatest(conditions[..n]);
      assert conditions == conditions[..n] + [conditions[n]];
    }
  }

  method GetLastConditionTransitionTime(vm: VM) returns (latest: int)
    ensures latest == Latest(vm.conditions)
  {
    latest := -1;
    for i := 0 to |vm.conditions|
      invariant latest == Latest(vm.conditions[..i])
    {
      assert vm.conditions[..i + 1][..i] == vm.conditions[..i];
      var c := vm.conditions[i];
      if c.ctype in ["Ready", "Failure", "Paused"] && c.time > latest {
        latest := c.time;
      }
    }
    assert vm.conditions[..|vm.conditions|] == vm.conditions;
  }

  const TIMESTAMP_METRICS: seq<Metric> :=
    [StartingTimestamp, RunningTimestamp, MigratingTimestamp, NonRunningTimestamp, ErrorTimestamp]

  ghost predicate IsTimestamp(m: Metric) {
    !m.VMLabels?
  }

  /** Five samples, one per timestamp metric, of which the one of the machine's status carries the greatest
      eligible transition time, or -1, and the others carry zero. */
  ghost predicate TimestampSamples(vm: VM, cr: seq<Sample>) {
    && |cr| == 5
    && (forall m :: IsTimestamp(m) ==> exists i :: 0 <= i < 5 && cr[i].metric == m)
    && (forall i :: 0 <= i < 5 ==>
          && IsTimestamp(cr[i].metric) && cr[i].labels == [vm.name, vm.namespace] && cr[i].constLabels == map[]
          && cr[i].value == (if cr[i].metric == GetTimestampMetric(vm.status) then Latest(vm.conditions) else 0))
  }

  method ReportVMTimestamps(vm: VM) returns (cr: seq<Sample>)
    ensures TimestampSamples(vm, cr)
    ensures |cr| == 5 && forall i :: 0 <= i < 5 ==>
      cr[i].labels == [vm.name, vm.namespace] && (cr[i].metric != GetTimestampMetric(vm.status) ==> cr[i].value == 0)
    ensures exists i :: 0 <= i < 5 && cr[i].metric == GetTimestampMetric(vm.status) && cr[i].value == Latest(vm.conditions)
  {
    var currentMetric := GetTimestampMetric(vm.status);
    var lastTransition := GetLastConditionTransitionTime(vm);
    cr := [];
    for i := 0 to |TIMESTAMP_METRICS|
      invariant |cr| == i
      invariant forall j :: 0 <= j < i ==> cr[j] == Sample(TIMESTAMP_METRICS[j], [vm.name, vm.namespace], map[],
        if TIMESTAMP_METRICS[j] == currentMetric then lastTransition else 0)
    {
      var metric := TIMESTAMP_METRICS[i];
      var value := 0;
      if metric == currentMetric {
        value := lastTransition;
      }
      cr := cr + [Sample(metric, [vm.name, vm.namespace], map[], value)];
    }
    MetricsSpelledOut(vm.status);
    assert IsTimestamp(currentMetric);
    forall m | IsTimestamp(m) ensures exists i :: 0 <= i < 5 && cr[i].metric == m {
      var i := match m
        case StartingTimestamp => 0
        case RunningTimestamp => 1
        case MigratingTimestamp => 2
        case NonRunningTimestamp => 3
        case _ => 4;
      assert cr[i].metric == m;
    }
  }

  // --- Labels ---

  function LabelName(key: string): string {
    "label_" + SanitizeLabelName(key)
  }

  /** The raw labels to export: the template's win over the machine's own. */
  function Merged(vm: VM): map<string, string> {
    if vm.templateLabels.Some? then vm.labels + vm.templateLabels.value else vm.labels
  }

  /** The merged labels under their new names, written in some order the map can be ranged over in. */
  ghost predicate ExportOf(vm: VM, constLabels: map<string, string>) {
    exists order :: IsOrder(Merged(vm), order) && constLabels == Relabel(Merged(vm), order, LabelName)
  }

  /** One sample with the exported labels; none for a machine without labels. */
  ghost predicate LabelSamples(vm: VM, cr: seq<Sample>) {
    if Merged(vm) == map[] then cr == []
    else |cr| == 1 && cr[0] == Sample(VMLabels, [vm.name, vm.namespace], cr[0].constLabels, 1) && ExportOf(vm, cr[0].constLabels)
  }

  method ReportVMLabels(vm: VM) returns (cr: seq<Sample>)
    ensures LabelSamples(vm, cr)
    ensures cr != [] ==> |cr| == 1 && cr[0].metric == VMLabels && cr[0].labels == [vm.name, vm.namespace] && cr[0].value == 1
    ensures cr == [] <==> vm.labels == map[] && (vm.templateLabels == None || vm.templateLabels == Some(map[]))
  {
    var mergedLabels := vm.labels;
    if vm.templateLabels.Some? {
      mergedLabels := mergedLabels + vm.templateLabels.value;
    }
    if |mergedLabels| == 0 {
      return [];
    }
    var constLabels: map<string, string> := map[];
    var todo := mergedLabels.Keys;
    ghost var order: seq<string> := [];
    while todo != {}
      invariant todo <= mergedLabels.Keys
      invariant Distinct(order) && forall k :: k in order <==> k in mergedLabels && k !in todo
      invariant constLabels == Relabel(mergedLabels, order, LabelName)
      decreases todo
    {
      var key :| key in todo;
      RelabelStep(mergedLabels, order, LabelName, key);
      assert key !in order;
      var sanitized := SanitizeLabelName(key);
      constLabels := constLabels["label_" + sanitized := mergedLabels[key]];
      order, todo := order + [key], todo - {key};
    }
    assert IsOrder(mergedLabels, order);
    NonEmpty(mergedLabels, order);
    if |constLabels| == 0 {
      return [];
    }
    return [Sample(VMLabels, [vm.name, vm.namespace], constLabels, 1)];
  }

  lemma NonEmpty(m: map<string, string>, order: seq<string>)
    requires IsOrder(m, order) && m != map[]
    ensures Relabel(m, order, LabelName) != map[]
  {
    var k :| k in m;
    assert k in order;
    assert LabelName(order[|order| - 1]) in Relabel(m, order, LabelName);
  }

  lemma ExportedNames(vm: VM, constLabels: map<string, string>, name: string)
    requires ExportOf(vm, constLabels)
    ensures name in constLabels <==> exists k :: k in Merged(vm) && LabelName(k) == name
    ensures name in constLabels ==> ValidLabelName(name)
    ensures name in constLabels ==>
      exists k :: k in Merged(vm) && LabelName(k) == name && constLabels[name] == Merged(vm)[k]
  {
    var m := Merged(vm);
    var order :| IsOrder(m, order) && constLabels == Relabel(m, order, LabelName);
    RelabelExact(m, order, LabelName, name);
    if name in constLabels {
      var i :| 0 <= i < |order| && IsLastNamed(order, LabelName, i, name) && constLabels[name] == m[order[i]];
      var k := order[i];
      assert k in m && LabelName(k) == name;
      ExportedNameValid(k);
    }
    forall k | k in m && LabelName(k) == name ensures name in constLabels {
      assert k in order;
    }
  }

  /** The exported labels are exactly those of the machine and its template under their new names: a name is exported
      when some raw key comes out as it, its value is that of such a key, the template's where both have the key,
      and the name is a valid label name. */
  lemma LabelExportExact(vm: VM, constLabels: map<string, string>, name: string)
    requires ExportOf(vm, constLabels)
    ensures name in constLabels <==> exists k ::
      && (k in vm.labels || (vm.templateLabels.Some? && k in vm.templateLabels.value))
      && name == "label_" + SanitizeLabelName(k)
    ensures name in constLabels ==> ValidLabelName(name)
    ensures name in constLabels ==> exists k ::
      && (k in vm.labels || (vm.templateLabels.Some? && k in vm.templateLabels.value))
      && name == "label_" + SanitizeLabelName(k)
      && constLabels[name] == (if vm.templateLabels.Some? && k in vm.templateLabels.value
                               then vm.templateLabels.value[k] else vm.labels[k])
  {
    ExportedNames(vm, constLabels, name);
    forall k ensures k in Merged(vm) <==> k in vm.labels || (vm.templateLabels.Some? && k in vm.templateLabels.value) {
    }
    if name in constLabels {
      var k :| k in Merged(vm) && LabelName(k) == name && constLabels[name] == Merged(vm)[k];
      MergedValue(vm, k);
    }
  }

  lemma MergedValue(vm: VM, k: string)
    requires k in Merged(vm)
    ensures k in vm.labels || (vm.templateLabels.Some? && k in vm.templateLabels.value)
    ensures Merged(vm)[k] == if vm.templateLabels.Some? && k in vm.templateLabels.value
                             then vm.templateLabels.value[k] else vm.labels[k]
  {
  }

  lemma ExportedNameValid(key: string)
    ensures ValidLabelName(LabelName(key))
  {
    var p, s := "label_", SanitizeLabelName(key);
    assert forall i :: 0 <= i < |p| ==> IsLabelChar(p[i]);
    assert forall i :: 0 <= i < |s| ==> (p + s)[|p| + i] == s[i];
  }

  /** The export is a function of the machine exactly when raw keys that come out alike carry equal values. */
  lemma ExportDeterministicIff(vm: VM)
    ensures Harmless(Merged(vm), LabelName) <==> forall a, b :: ExportOf(vm, a) && ExportOf(vm, b) ==> a == b
  {
    var m := Merged(vm);
    if Harmless(m, LabelName) {
      forall a, b | ExportOf(vm, a) && ExportOf(vm, b) ensures a == b {
        var o :| IsOrder(m, o) && a == Relabel(m, o, LabelName);
        var o' :| IsOrder(m, o') && b == Relabel(m, o', LabelName);
        SameForOrders(m, o, o', LabelName);
      }
    } else {
      DifferentExports(vm);
    }
  }

  lemma DifferentExports(vm: VM)
    requires !Harmless(Merged(vm), LabelName)
    ensures exists a, b :: ExportOf(vm, a) && ExportOf(vm, b) && a != b
  {
    var m := Merged(vm);
    OrderIndependentIff(m, LabelName);
    var o, o' :| IsOrder(m, o) && IsOrder(m, o') && Relabel(m, o, LabelName) != Relabel(m, o', LabelName);
    assert ExportOf(vm, Relabel(m, o, LabelName)) && ExportOf(vm, Relabel(m, o', LabelName));
  }

  /** An input: the labels a.b and a-b come out under one name, and whose value is exported is a matter of order. */
  lemma ExportVaries()
    ensures var vm := VM("vm", "ns", "Running", [], map["a.b" := "1", "a-b" := "2"], None);
      exists a, b :: ExportOf(vm, a) && ExportOf(vm, b) && a != b
  {
    var vm := VM("vm", "ns", "Running", [], map["a.b" := "1", "a-b" := "2"], None);
    var m := Merged(vm);
    assert "a.b"[1] != "a-b"[1];
    assert "a.b" in m && "a-b" in m && m["a.b"] == "1" && m["a-b"] == "2";
    assert ReplaceInvalid("a.b") == "a_b" == ReplaceInvalid("a-b");
    assert LabelName("a.b") == LabelName("a-b");
    assert "1"[0] != "2"[0];
    DifferentExports(vm);
  }

  /** Each machine's samples, labels first, in the order of the machines. */
  ghost predicate VMSamples(vm: VM, part: seq<Sample>) {
    exists n :: 0 <= n <= |part| && LabelSamples(vm, part[..n]) && TimestampSamples(vm, part[n..])
  }

  lemma VMPart(vm: VM, labels: seq<Sample>, timestamps: seq<Sample>)
    requires LabelSamples(vm, labels) && TimestampSamples(vm, timestamps)
    ensures VMSamples(vm, labels + timestamps)
  {
    var part := labels + timestamps;
    assert part[..|labels|] == labels && part[|labels|..] == timestamps;
  }

  method ReportVM(vm: VM) returns (part: seq<Sample>)
    ensures VMSamples(vm, part)
  {
    var labels := ReportVMLabels(vm);
    var timestamps := ReportVMTimestamps(vm);
    VMPart(vm, labels, timestamps);
    part := labels + timestamps;
  }

  /** The samples come in one part for each machine. */
  ghost predicate PartsOf(vms: seq<VM>, parts: seq<seq<Sample>>) {
    |parts| == |vms| && forall i :: 0 <= i < |vms| ==> VMSamples(vms[i], parts[i])
  }

  method ReportVMStats(vms: seq<VM>) returns (cr: seq<Sample>)
    ensures exists parts :: PartsOf(vms, parts) && cr == Flatten(parts)
  {
    cr := [];
    ghost var parts: seq<seq<Sample>> := [];
    for i := 0 to |vms|
      invariant PartsOf(vms[..i], parts) && cr == Flatten(parts)
    {
      var part := ReportVM(vms[i]);
      FlattenAppend(parts, part);
      PartsGrow(vms, i, parts, part);
      cr, parts := cr + part, parts + [part];
    }
    assert vms[..|vms|] == vms;
  }

  lemma PartsGrow(vms: seq<VM>, i: nat, parts: seq<seq<Sample>>, part: seq<Sample>)
    requires i < |vms| && PartsOf(vms[..i], parts) && VMSamples(vms[i], part)
    ensures PartsOf(vms[..i + 1], parts + [part])
  {
    forall j | 0 <= j < i + 1 ensures VMSamples(vms[..i + 1][j], (parts + [part])[j]) {
      if j < i { assert vms[..i][j] == vms[..i + 1][j]; }
    }
  }
}
