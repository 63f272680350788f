/** Migration statistics: four gauges, and one sample per finished migration. */
module Migrations {

  datatype Migration = Migration(name: string, namespace: string, vmi: string, phase: string)

  datatype Metric = Pending | Scheduling | Unset | Running | Succeeded | Failed

  datatype Sample = Sample(metric: Metric, labels: seq<string>, value: nat)

  /** What a phase counts for; `Ignored` are the phases the source has no case for. */
  datatype Class = Gauge(metric: Metric) | Finished(metric: Metric) | Ignored

  ghost function Classify(phase: string): Class {
    if phase == "Pending" then Gauge(Pending)
    else if phase == "Scheduling" then Gauge(Scheduling)
    else if phase == "" then Gauge(Unset)
    else if phase in ["Running", "Scheduled", "PreparingTarget", "TargetReady"] then Gauge(Running)
    else if phase == "Succeeded" then Finished(Succeeded)
    else if phase == "Failed" then Finished(Failed)
    else Ignored
  }

  ghost function Count(ms: seq<Migration>, c: Class): nat {
    if ms == [] then 0
    else
      var n := |ms| - 1;
      Count(ms[..n], c) + (if Classify(ms[n].phase) == c then 1 else 0)
  }

  /** The samples of the finished migrations, in input order. */
  ghost function FinishedSamples(ms: seq<Migration>): seq<Sample> {
    if ms == [] then []
    else
      var n := |ms| - 1;
      var c := Classify(ms[n].phase);
      FinishedSamples(ms[..n]) + (if c.Finished? then [Sample(c.metric, [ms[n].vmi, ms[n].name, ms[n].namespace], 1)] else [])
  }

  method ReportMigrationStats(vmims: seq<Migration>) returns (cr: seq<Sample>)
    ensures cr == FinishedSamples(vmims)
      + [Sample(Pending, [], Count(vmims, Gauge(Pending))), Sample(Scheduling, [], Count(vmims, Gauge(Scheduling))),
         Sample(Unset, [], Count(vmims, Gauge(Unset))), Sample(Running, [], Count(vmims, Gauge(Running)))]
    ensures |cr| >= 4 && cr[|cr| - 4..] ==
      [Sample(Pending, [], |set i | 0 <= i < |vmims| && vmims[i].phase == "Pending"|),
       Sample(Scheduling, [], |set i | 0 <= i < |vmims| && vmims[i].phase == "Scheduling"|),
       Sample(Unset, [], |set i | 0 <= i < |vmims| && vmims[i].phase == ""|),
       Sample(Running, [], |set i | 0 <= i < |vmims| && vmims[i].phase in {"Running", "Scheduled", "PreparingTarget", "TargetReady"}|)]
  {
    GaugesSpelledOut(vmims);
    cr := [];
    var pendingCount, schedulingCount, unsetCount, runningCount := 0, 0, 0, 0;
    for i := 0 to |vmims|
      invariant cr == FinishedSamples(vmims[..i])
      invariant pendingCount == Count(vmims[..i], Gauge(Pending)) && schedulingCount == Count(vmims[..i], Gauge(Scheduling))
      invariant unsetCount == Count(vmims[..i], Gauge(Unset)) && runningCount == Count(vmims[..i], Gauge(Running))
    {
      assert vmims[..i + 1][..i] == vmims[..i];
      var vmim := vmims[i];
      match vmim.phase {
        case "Pending" => pendingCount := pendingCount + 1;
        case "Scheduling" => schedulingCount := schedulingCount + 1;
        case "" => unsetCount := unsetCount + 1;
        case "Running" | "Scheduled" | "PreparingTarget" | "TargetReady" => runningCount := runningCount + 1;
        case "Succeeded" => cr := cr + [Sample(Succeeded, [vmim.vmi, vmim.name, vmim.namespace], 1)];
        case "Failed" => cr := cr + [Sample(Failed, [vmim.vmi, vmim.name, vmim.namespace], 1)];
        case _ =>
      }
    }
    assert vmims[..|vmims|] == vmims;
    cr := cr + [Sample(Pending, [], pendingCount), Sample(Scheduling, [], schedulingCount),
                Sample(Unset, [], unsetCount), Sample(Running, [], runningCount)];
  }

  /** Every migration is counted once: in a gauge, as a finished sample, or as one of an unrecognised phase. */
  lemma {:induction false} Conservation(ms: seq<Migration>)
    ensures Count(ms, Gauge(Pending)) + Count(ms, Gauge(Scheduling)) + Count(ms, Gauge(Unset)) + Count(ms, Gauge(Running))
      + |FinishedSamples(ms)| + Count(ms, Ignored) == |ms|
    ensures |FinishedSamples(ms)| == Count(ms, Finished(Succeeded)) + Count(ms, Finished(Failed))
  {
    if ms != [] {
      Conservation(ms[..|ms| - 1]);
    }
  }

  lemma {:induction false} CountSplit(a: seq<Migration>, b: seq<Migration>, c: Class)
    ensures Count(a + b, c) == Count(a, c) + Count(b, c)
  {
    if b == [] {
      assert a + b == a;
    } else {
      assert (a + b)[..|a + b| - 1] == a + b[..|b| - 1];
      CountSplit(a, b[..|b| - 1], c);
    }
  }

  lemma PickOut(ms: seq<Migration>, i: nat, c: Class)
    requires i < |ms|
    ensures Count(ms, c) == Count(ms[..i] + ms[i + 1..], c) + Count([ms[i]], c)
  {
    var a, one, b := ms[..i], [ms[i]], ms[i + 1..];
    assert ms == a + (one + b);
    CountSplit(a, one + b, c);
    CountSplit(one, b, c);
    CountSplit(a, b, c);
  }

  lemma PickedMultiset(ms: seq<Migration>, i: nat)
    requires i < |ms|
    ensures multiset(ms[..i] + ms[i + 1..]) == multiset(ms) - multiset{ms[i]}
  {
    assert ms == ms[..i] + ([ms[i]] + ms[i + 1..]);
  }

  /** The gauges do not depend on the order of the migrations. */
  lemma {:induction false} CountOfPermutation(ms: seq<Migration>, ms': seq<Migration>, c: Class)
    requires multiset(ms) == multiset(ms')
    ensures Count(ms, c) == Count(ms', c)
    decreases |ms|
  {
    if ms == [] {
      assert |multiset(ms')| == 0;
    } else {
      assert ms[0] in multiset(ms');
      var i :| 0 <= i < |ms'| && ms'[i] == ms[0];
      PickOut(ms, 0, c);
      PickOut(ms', i, c);
      PickedMultiset(ms, 0);
      PickedMultiset(ms', i);
      CountOfPermutation(ms[..0] + ms[1..], ms'[..i] + ms'[i + 1..], c);
    }
  }

  /** The finished samples keep the input order. */
  lemma {:induction false} FinishedInOrder(a: seq<Migration>, b: seq<Migration>)
    ensures FinishedSamples(a + b) == FinishedSamples(a) + FinishedSamples(b)
  {
    if b == [] {
      assert a + b == a;
    } else {
      assert (a + b)[..|a + b| - 1] == a + b[..|b| - 1];
      FinishedInOrder(a, b[..|b| - 1]);
    }
  }

  ghost function Places(flags: seq<bool>): set<int> {
    set i | 0 <= i < |flags| && flags[i]
  }

  lemma PlacesAppend(flags: seq<bool>, flag: bool)
    ensures |Places(flags + [flag])| == |Places(flags)| + if flag then 1 else 0
  {
    assert Places(flags + [flag]) == Places(flags) + if flag then {|flags|} else {};
  }

  ghost function Flags(ms: seq<Migration>, c: Class): seq<bool> {
    seq(|ms|, i requires 0 <= i < |ms| => Classify(ms[i].phase) == c)
  }

  /** A count is the number of places with a phase of the class. */
  lemma {:induction false} CountOfPlaces(ms: seq<Migration>, c: Class)
    ensures Count(ms, c) == |Places(Flags(ms, c))|
  {
    if ms != [] {
      var n := |ms| - 1;
      CountOfPlaces(ms[..n], c);
      PlacesAppend(Flags(ms[..n], c), Classify(ms[n].phase) == c);
      assert Flags(ms, c) == Flags(ms[..n], c) + [Classify(ms[n].phase) == c];
    }
  }

  /** The classes, spelled out. */
  lemma ClassesSpelledOut(phase: string)
    ensures Classify(phase) == Gauge(Pending) <==> phase == "Pending"
    ensures Classify(phase) == Gauge(Scheduling) <==> phase == "Scheduling"
    ensures Classify(phase) == Gauge(Unset) <==> phase == ""
    ensures Classify(phase) == Gauge(Running) <==> phase in {"Running", "Scheduled", "PreparingTarget", "TargetReady"}
    ensures Classify(phase) == Finished(Succeeded) <==> phase == "Succeeded"
    ensures Classify(phase) == Finished(Failed) <==> phase == "Failed"
    ensures Classify(phase).Finished? ==> Classify(phase) in {Finished(Succeeded), Finished(Failed)}
  {
    assert "Pending"[0] == 'P' && "Running"[0] == 'R' && "Scheduled"[1] == 'c' && "Succeeded"[1] == 'u';
  }

  lemma PlacesOfClass(ms: seq<Migration>, c: Class)
    ensures Count(ms, c) == |set i | 0 <= i < |ms| && Classify(ms[i].phase) == c|
  {
    CountOfPlaces(ms, c);
    assert Places(Flags(ms, c)) == set i | 0 <= i < |ms| && Classify(ms[i].phase) == c;
  }

  /** Each gauge is the number of places with its phase or phases. */
  lemma GaugesSpelledOut(ms: seq<Migration>)
    ensures Count(ms, Gauge(Pending)) == |set i | 0 <= i < |ms| && ms[i].phase == "Pending"|
    ensures Count(ms, Gauge(Scheduling)) == |set i | 0 <= i < |ms| && ms[i].phase == "Scheduling"|
    ensures Count(ms, Gauge(Unset)) == |set i | 0 <= i < |ms| && ms[i].phase == ""|
    ensures Count(ms, Gauge(Running)) ==
      |set i | 0 <= i < |ms| && ms[i].phase in {"Running", "Scheduled", "PreparingTarget", "TargetReady"}|
  {
    forall i | 0 <= i < |ms|
      ensures Classify(ms[i].phase) == Gauge(Pending) <==> ms[i].phase == "Pending"
      ensures Classify(ms[i].phase) == Gauge(Scheduling) <==> ms[i].phase == "Scheduling"
      ensures Classify(ms[i].phase) == Gauge(Unset) <==> ms[i].phase == ""
      ensures Classify(ms[i].phase) == Gauge(Running) <==> ms[i].phase in {"Running", "Scheduled", "PreparingTarget", "TargetReady"}
    {
      ClassesSpelledOut(ms[i].phase);
    }
    PlacesOfClass(ms, Gauge(Pending));
    PlacesOfClass(ms, Gauge(Scheduling));
    PlacesOfClass(ms, Gauge(Unset));
    PlacesOfClass(ms, Gauge(Running));
    assert (set i | 0 <= i < |ms| && Classify(ms[i].phase) == Gauge(Pending)) == set i | 0 <= i < |ms| && ms[i].phase == "Pending";
    assert (set i | 0 <= i < |ms| && Classify(ms[i].phase) == Gauge(Scheduling)) == set i | 0 <= i < |ms| && ms[i].phase == "Scheduling";
    assert (set i | 0 <= i < |ms| && Classify(ms[i].phase) == Gauge(Unset)) == set i | 0 <= i < |ms| && ms[i].phase == "";
    assert (set i | 0 <= i < |ms| && Classify(ms[i].phase) == Gauge(Running)) == set i | 0 <= i < |ms| && ms[i].phase in {"Running", "Scheduled", "PreparingTarget", "TargetReady"};
  }

  /** A finished migration yields one sample, of its outcome, with its VMI, name and namespace; no other yields any. */
  lemma FinishedSpelledOut(m: Migration)
    ensures FinishedSamples([m]) ==
      if m.phase == "Succeeded" then [Sample(Succeeded, [m.vmi, m.name, m.namespace], 1)]
      else if m.phase == "Failed" then [Sample(Failed, [m.vmi, m.name, m.namespace], 1)]
      else []
  {
    ClassesSpelledOut(m.phase);
    assert [m][..0] == [];
  }
}
