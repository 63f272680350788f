/** One reconcile with fresh reads, as the source's methods perform it on the cluster: any read or
    write may fail, and a failure ends the reconcile. `ControlLoop` covers stale reads. */
module Reconcilers {
  import opened Collections
  import opened Resources

  datatype ReadResult = Found(obj: Object) | NotFound | ReadError

  ghost predicate WellTyped(objects: map<ObjKey, Object>) {
    forall k :: k in objects ==> KindOf(objects[k]) == k.kind
  }

  /** The API server as one client sees it; `writes` counts the accepted writes, `faults` the calls that failed
      for a reason of the server's own. */
  class Cluster {
    var objects: map<ObjKey, Object>
    ghost var writes: nat
    ghost var faults: nat

    constructor (objects: map<ObjKey, Object>)
      ensures this.objects == objects && writes == 0 && faults == 0
    {
      this.objects := objects;
      writes, faults := 0, 0;
    }

    method Get(key: ObjKey) returns (r: ReadResult)
      modifies `faults
      ensures r.Found? ==> key in objects && r.obj == objects[key]
      ensures r.NotFound? ==> key !in objects
      ensures faults == old(faults) + if r.ReadError? then 1 else 0
    {
      var broken: bool := *;
      if broken {
        faults := faults + 1;
        return ReadError;
      }
      r := if key in objects then Found(objects[key]) else NotFound;
    }

    method Create(key: ObjKey, obj: Object) returns (ok: bool)
      modifies this
      ensures ok ==> key !in old(objects) && objects == old(objects)[key := obj] && writes == old(writes) + 1
      ensures !ok ==> objects == old(objects) && writes == old(writes)
      ensures faults >= old(faults) && (key !in old(objects) ==> (ok <==> faults == old(faults)))
    {
      var broken: bool := *;
      if broken {
        faults := faults + 1;
      }
      ok := !broken && key !in objects;
      if ok {
        objects, writes := objects[key := obj], writes + 1;
      }
    }

    method Update(key: ObjKey, obj: Object) returns (ok: bool)
      modifies this
      ensures ok ==> key in old(objects) && objects == old(objects)[key := obj] && writes == old(writes) + 1
      ensures !ok ==> objects == old(objects) && writes == old(writes)
      ensures faults >= old(faults) && (key in old(objects) ==> (ok <==> faults == old(faults)))
    {
      var broken: bool := *;
      if broken {
        faults := faults + 1;
      }
      ok := !broken && key in objects;
      if ok {
        objects, writes := objects[key := obj], writes + 1;
      }
    }
  }

  ghost predicate Fine(cfg: Config, kind: Kind, objects: map<ObjKey, Object>) {
    Owned(cfg, kind) in objects && InSync(cfg, objects[Owned(cfg, kind)])
  }

  /** The cluster after a successful sub-reconcile of the kind. */
  ghost function Healed(cfg: Config, kind: Kind, objects: map<ObjKey, Object>): map<ObjKey, Object> {
    var key := Owned(cfg, kind);
    if key !in objects then objects[key := Desired(cfg, kind)]
    else if InSync(cfg, objects[key]) then objects
    else objects[key := Overwrite(cfg, objects[key])]
  }

  ghost function Missing(cfg: Config, kind: Kind, objects: map<ObjKey, Object>): nat {
    if Fine(cfg, kind, objects) then 0 else 1
  }

  /** What a sub-reconcile does: all of its write or none, none when the object was fine, success means fine, and it
      fails only when a call of its own does. */
  twostate predicate Step(cfg: Config, kind: Kind, cluster: Cluster, ok: bool)
    reads cluster
  {
    && cluster.objects == (if ok then Healed(cfg, kind, old(cluster.objects)) else old(cluster.objects))
    && cluster.writes == old(cluster.writes) + (if ok then Missing(cfg, kind, old(cluster.objects)) else 0)
    && cluster.faults >= old(cluster.faults) && (ok <==> cluster.faults == old(cluster.faults))
  }

  /** The objects of `after` beside the owned ones are those of `before`; an object that existed keeps what the
      controller never writes, is as it was if it was in sync, and gets no foreign annotations. */
  ghost predicate Frame(cfg: Config, before: map<ObjKey, Object>, after: map<ObjKey, Object>) {
    && (forall k :: (forall kind :: k != Owned(cfg, kind)) ==> Collections.Get(after, k) == Collections.Get(before, k))
    && (forall k :: k in before ==> k in after && KindOf(after[k]) == KindOf(before[k]) && after[k].rest == before[k].rest)
    && (forall k :: k in before && InSync(cfg, before[k]) ==> after[k] == before[k])
    && (forall k :: k in before && Foreign(before[k]) == map[] ==> Foreign(after[k]) == map[])
  }

  /** An owned object that existed has kept its foreign annotations exactly when it was in sync or had none. */
  ghost predicate ForeignFate(cfg: Config, kind: Kind, before: map<ObjKey, Object>, after: map<ObjKey, Object>) {
    var key := Owned(cfg, kind);
    key in before ==>
      && key in after
      && (Foreign(after[key]) == Foreign(before[key]) <==> InSync(cfg, before[key]) || Foreign(before[key]) == map[])
  }

  lemma HealedForeign(cfg: Config, kind: Kind, objects: map<ObjKey, Object>)
    ensures ForeignFate(cfg, kind, objects, Healed(cfg, kind, objects))
  {
    if Owned(cfg, kind) in objects { OverwriteSyncs(cfg, objects[Owned(cfg, kind)]); }
  }

  /** The update loses annotations it does not manage: a Secret whose labels someone removed and that carries a
      team's annotation comes out without it. */
  lemma ForeignAnnotationLost(cfg: Config)
    ensures var o := SecretObject(map[], map["team" := "a", SERVICE_ACCOUNT_KEY := cfg.serviceAccount], map[]);
      var after := Healed(cfg, Secret, map[Owned(cfg, Secret) := o]);
      && Foreign(o) == map["team" := "a"]
      && Owned(cfg, Secret) in after && Foreign(after[Owned(cfg, Secret)]) == map[]
  {
    assert |SERVICE_ACCOUNT_KEY| != |"team"|;
    assert "app.kubernetes.io/name" in CommonLabels("metrics");
  }

  lemma HealedIsFine(cfg: Config, kind: Kind, objects: map<ObjKey, Object>)
    requires WellTyped(objects)
    ensures Fine(cfg, kind, Healed(cfg, kind, objects)) && WellTyped(Healed(cfg, kind, objects))
    ensures forall other :: Fine(cfg, other, objects) ==> Fine(cfg, other, Healed(cfg, kind, objects))
    ensures forall other :: other != kind ==> Missing(cfg, other, Healed(cfg, kind, objects)) == Missing(cfg, other, objects)
    ensures Frame(cfg, objects, Healed(cfg, kind, objects))
  {
    DesiredSyncs(cfg, kind);
    if Owned(cfg, kind) in objects { OverwriteSyncs(cfg, objects[Owned(cfg, kind)]); }
  }

  lemma HealedAsConfigured(cfg: Config, kind: Kind, objects: map<ObjKey, Object>)
    requires WellTyped(objects)
    ensures AsConfigured(cfg, kind, Healed(cfg, kind, objects))
  {
    HealedIsFine(cfg, kind, objects);
    InSyncIff(cfg, kind, Healed(cfg, kind, objects));
  }

  lemma StagesAsConfigured(cfg: Config, o0: map<ObjKey, Object>)
    requires WellTyped(o0)
    ensures var o3 := Healed(cfg, ServiceMonitor, Healed(cfg, Secret, Healed(cfg, Service, o0)));
      forall kind :: AsConfigured(cfg, kind, o3)
  {
    Stages(cfg, o0);
    var o3 := Healed(cfg, ServiceMonitor, Healed(cfg, Secret, Healed(cfg, Service, o0)));
    forall kind ensures AsConfigured(cfg, kind, o3) {
      assert Fine(cfg, kind, o3);
      InSyncIff(cfg, kind, o3);
    }
  }

  class MetricsResourcesReconciler {
    const config: Config
    const cluster: Cluster

    constructor (config: Config, cluster: Cluster)
      ensures this.config == config && this.cluster == cluster
    {
      this.config, this.cluster := config, cluster;
    }

    method ReconcileService() returns (ok: bool)
      requires WellTyped(cluster.objects)
      modifies cluster
      ensures Step(config, Service, cluster, ok)
      ensures ok ==> AsConfigured(config, Service, cluster.objects)
      ensures ok && Owned(config, Service) !in old(cluster.objects) ==> cluster.objects[Owned(config, Service)].rest == map[]
    {
      HealedAsConfigured(config, Service, cluster.objects);
      var desired := DesiredService(config);
      var key := Owned(config, Service);
      var got := cluster.Get(key);
      if got.NotFound? {
        ok := cluster.Create(key, desired);
        return;
      }
      if got.ReadError? {
        return false;
      }
      var existing := got.obj;
      assert KindOf(existing) == Service;
      if existing.ports != desired.ports || existing.selector != desired.selector || existing.labels != desired.labels {
        existing := existing.(ports := desired.ports, selector := desired.selector, labels := desired.labels);
        ok := cluster.Update(key, existing);
        return;
      }
      return true;
    }

    method ReconcileSecret() returns (ok: bool)
      requires WellTyped(cluster.objects)
      modifies cluster
      ensures Step(config, Secret, cluster, ok)
      ensures ok ==> AsConfigured(config, Secret, cluster.objects)
      ensures ok && Owned(config, Secret) !in old(cluster.objects) ==> cluster.objects[Owned(config, Secret)].rest == map["type" := "kubernetes.io/service-account-token"]
      ensures ok ==> ForeignFate(config, Secret, old(cluster.objects), cluster.objects)
    {
      HealedForeign(config, Secret, cluster.objects);
      HealedAsConfigured(config, Secret, cluster.objects);
      var desired := DesiredSecret(config);
      var key := Owned(config, Secret);
      var got := cluster.Get(key);
      if got.NotFound? {
        ok := cluster.Create(key, desired);
        return;
      }
      if got.ReadError? {
        return false;
      }
      var existing := got.obj;
      assert KindOf(existing) == Secret;
      if Annotation(existing.annotations, SERVICE_ACCOUNT_KEY) != config.serviceAccount || existing.labels != desired.labels {
        existing := existing.(labels := desired.labels, annotations := desired.annotations);
        ok := cluster.Update(key, existing);
        return;
      }
      return true;
    }

    method ReconcileServiceMonitor() returns (ok: bool)
      requires WellTyped(cluster.objects)
      modifies cluster
      ensures Step(config, ServiceMonitor, cluster, ok)
      ensures ok ==> AsConfigured(config, ServiceMonitor, cluster.objects)
      ensures ok && Owned(config, ServiceMonitor) !in old(cluster.objects) ==> cluster.objects[Owned(config, ServiceMonitor)].rest == map[]
    {
      HealedAsConfigured(config, ServiceMonitor, cluster.objects);
      var desired := DesiredMonitor(config);
      var key := Owned(config, ServiceMonitor);
      var got := cluster.Get(key);
      if got.NotFound? {
        ok := cluster.Create(key, desired);
        return;
      }
      if got.ReadError? {
        return false;
      }
      var existing := got.obj;
      assert KindOf(existing) == ServiceMonitor;
      if existing.spec != desired.spec || existing.labels != desired.labels {
        existing := existing.(spec := desired.spec, labels := desired.labels);
        ok := cluster.Update(key, existing);
        return;
      }
      return true;
    }

    /** The error names the sub-reconcile that failed; the later ones have not run. */
    method Reconcile() returns (err: Option<Kind>)
      requires WellTyped(cluster.objects)
      modifies cluster
      ensures Outcome(config, old(cluster.objects), cluster.objects, err)
      ensures err.None? ==> forall kind :: AsConfigured(config, kind, cluster.objects)
      ensures forall k ::
        || k == ObjKey(Service, config.namespace, "virt-observability-controller-metrics")
        || k == ObjKey(Secret, config.namespace, "virt-observability-controller-metrics-token")
        || k == ObjKey(ServiceMonitor, config.namespace, "virt-observability-controller")
        || Collections.Get(cluster.objects, k) == Collections.Get(old(cluster.objects), k)
      ensures forall k :: k in old(cluster.objects) ==> k in cluster.objects && cluster.objects[k].rest == old(cluster.objects)[k].rest
      ensures err.None? <==> cluster.faults == old(cluster.faults)
      ensures err.None? ==> cluster.writes == old(cluster.writes) + AllMissing(config, old(cluster.objects))
      ensures (forall kind :: Fine(config, kind, old(cluster.objects))) ==> cluster.writes == old(cluster.writes)
    {
      ghost var before := cluster.objects;
      Stages(config, before);
      StagesAsConfigured(config, before);
      var ok := ReconcileService();
      if !ok {
        return Some(Service);
      }
      ok := ReconcileSecret();
      if !ok {
        return Some(Secret);
      }
      ok := ReconcileServiceMonitor();
      if !ok {
        return Some(ServiceMonitor);
      }
      return None;
    }
  }

  ghost function AllMissing(cfg: Config, objects: map<ObjKey, Object>): nat {
    Missing(cfg, Service, objects) + Missing(cfg, Secret, objects) + Missing(cfg, ServiceMonitor, objects)
  }

  ghost predicate Before(a: Kind, b: Kind) {
    (a.Service? && !b.Service?) || (a.Secret? && b.ServiceMonitor?)
  }

  /** The objects of the sub-reconciles that succeeded are as desired, and one that existed has kept its foreign
      annotations exactly when it was in sync or had none; those of the others are as they were. Other objects and
      unmanaged fields are untouched, and what was fine is as it was. */
  ghost predicate Outcome(cfg: Config, before: map<ObjKey, Object>, after: map<ObjKey, Object>, err: Option<Kind>) {
    && WellTyped(after) && Frame(cfg, before, after)
    && forall kind ::
         if err.None? || Before(kind, err.value) then Fine(cfg, kind, after) && ForeignFate(cfg, kind, before, after)
         else Collections.Get(after, Owned(cfg, kind)) == Collections.Get(before, Owned(cfg, kind))
  }

  lemma FrameTwice(cfg: Config, a: map<ObjKey, Object>, b: map<ObjKey, Object>, c: map<ObjKey, Object>)
    requires Frame(cfg, a, b) && Frame(cfg, b, c)
    ensures Frame(cfg, a, c)
  {
  }

  ghost function Next(kind: Kind): Option<Kind> {
    match kind
    case Service => Some(Secret)
    case Secret => Some(ServiceMonitor)
    case ServiceMonitor => None
  }

  /** One more stage done. */
  lemma StageDone(cfg: Config, before: map<ObjKey, Object>, now: map<ObjKey, Object>, kind: Kind)
    requires Outcome(cfg, before, now, Some(kind))
    ensures Outcome(cfg, before, Healed(cfg, kind, now), Next(kind))
    ensures Missing(cfg, kind, now) == Missing(cfg, kind, before)
  {
    var after := Healed(cfg, kind, now);
    HealedIsFine(cfg, kind, now);
    HealedForeign(cfg, kind, now);
    FrameTwice(cfg, before, now, after);
    forall other | other != kind ensures Collections.Get(after, Owned(cfg, other)) == Collections.Get(now, Owned(cfg, other)) {
    }
    assert !Before(kind, kind);
    forall other | Next(kind).None? || Before(other, Next(kind).value) ensures ForeignFate(cfg, other, before, after) {
      SameFate(cfg, other, kind, before, now);
    }
  }

  lemma SameFate(cfg: Config, other: Kind, kind: Kind, before: map<ObjKey, Object>, now: map<ObjKey, Object>)
    requires other == kind ==> Collections.Get(now, Owned(cfg, kind)) == Collections.Get(before, Owned(cfg, kind))
    requires other != kind ==> ForeignFate(cfg, other, before, now)
    ensures ForeignFate(cfg, other, before, Healed(cfg, kind, now))
  {
    HealedForeign(cfg, kind, now);
    assert Owned(cfg, other) in now <==> Collections.Get(now, Owned(cfg, other)).Some?;
    assert Owned(cfg, other) in before <==> Collections.Get(before, Owned(cfg, other)).Some?;
  }

  /** Healing in the order of the source: each stage finds its object as it was. */
  lemma Stages(cfg: Config, o0: map<ObjKey, Object>)
    requires WellTyped(o0)
    ensures var o1 := Healed(cfg, Service, o0); var o2 := Healed(cfg, Secret, o1); var o3 := Healed(cfg, ServiceMonitor, o2);
      && Outcome(cfg, o0, o0, Some(Service)) && Outcome(cfg, o0, o1, Some(Secret))
      && Outcome(cfg, o0, o2, Some(ServiceMonitor)) && Outcome(cfg, o0, o3, None)
      && Missing(cfg, Secret, o1) == Missing(cfg, Secret, o0)
      && Missing(cfg, ServiceMonitor, o2) == Missing(cfg, ServiceMonitor, o0)
  {
    var o1 := Healed(cfg, Service, o0);
    var o2 := Healed(cfg, Secret, o1);
    StageDone(cfg, o0, o0, Service);
    StageDone(cfg, o0, o1, Secret);
    StageDone(cfg, o0, o2, ServiceMonitor);
  }
}
