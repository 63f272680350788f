/** The PrometheusRule reconciler: the rule object exists exactly when rules are registered. */
module PrometheusRules {
  import opened Collections

  /** `rest` is what the controller never writes. */
  datatype Rule = Rule(spec: string, labels: map<string, string>, annotations: map<string, string>, rest: map<string, string>)

  datatype Error = SetupFailed | BuildFailed | GetFailed | CreateFailed | UpdateFailed | DeleteFailed

  datatype ReadResult = Found(rule: Rule) | NotFound | ReadError

  datatype DeleteResult = Deleted | WasGone | DeleteError

  /** What the rule registry gives one process: whether setting it up fails, whether it holds a rule,
      and the object it builds, if it can. */
  datatype Registry = Registry(setupFails: bool, hasRules: bool, built: Option<Rule>)

  /** The one object this controller reads and writes, beside all others; `writes` counts the accepted writes,
      `faults` the calls that failed for a reason of the server's own. */
  class Cluster {
    var rule: Option<Rule>
    var others: map<string, Rule>
    ghost var writes: nat
    ghost var faults: nat

    constructor (rule: Option<Rule>, others: map<string, Rule>)
      ensures this.rule == rule && this.others == others && writes == 0 && faults == 0
    {
      this.rule, this.others, writes, faults := rule, others, 0, 0;
    }

    method Get() returns (r: ReadResult)
      modifies `faults
      ensures faults == old(faults) + if r.ReadError? then 1 else 0
      ensures r.Found? ==> rule == Some(r.rule)
      ensures r.NotFound? ==> rule == None
    {
      var broken: bool := *;
      if broken {
        faults := faults + 1;
      }
      r := if broken then ReadError else if rule.Some? then Found(rule.value) else NotFound;
    }

    method Create(desired: Rule) returns (ok: bool)
      modifies `rule, `writes, `faults
      ensures faults >= old(faults) && (old(rule) == None ==> (ok <==> faults == old(faults)))
      ensures if ok then old(rule) == None && rule == Some(desired) && writes == old(writes) + 1
              else rule == old(rule) && writes == old(writes)
    {
      var broken: bool := *;
      if broken {
        faults := faults + 1;
      }
      ok := !broken && rule.None?;
      if ok { rule, writes := Some(desired), writes + 1; }
    }

    method Update(updated: Rule) returns (ok: bool)
      modifies `rule, `writes, `faults
      ensures faults >= old(faults) && (old(rule).Some? ==> (ok <==> faults == old(faults)))
      ensures if ok then old(rule).Some? && rule == Some(updated) && writes == old(writes) + 1
              else rule == old(rule) && writes == old(writes)
    {
      var broken: bool := *;
      if broken {
        faults := faults + 1;
      }
      ok := !broken && rule.Some?;
      if ok { rule, writes := Some(updated), writes + 1; }
    }

    /** Someone else may have deleted the object between the read and the delete. */
    method Delete() returns (r: DeleteResult)
      modifies `rule, `writes, `faults
      ensures faults == old(faults) + if r.DeleteError? then 1 else 0
      ensures r.DeleteError? ==> rule == old(rule) && writes == old(writes)
      ensures !r.DeleteError? ==> rule == None && writes <= old(writes) + 1
    {
      var broken: bool := *;
      var raced: bool := *;
      if broken {
        faults := faults + 1;
        return DeleteError;
      }
      if raced || rule.None? {
        rule := None;
        return WasGone;
      }
      rule, writes := None, writes + 1;
      return Deleted;
    }
  }

  ghost predicate UpToDate(r: Rule, desired: Rule) {
    r.spec == desired.spec && r.labels == desired.labels && r.annotations == desired.annotations
  }

  /** The cluster is as this registry wants it. */
  ghost predicate AsWanted(registry: Registry, rule: Option<Rule>) {
    if registry.hasRules then rule.Some? && registry.built.Some? && UpToDate(rule.value, registry.built.value)
    else rule.None?
  }

  class PrometheusRuleReconciler {
    const cluster: Cluster

    constructor (cluster: Cluster)
      ensures this.cluster == cluster
    {
      this.cluster := cluster;
    }

    /** On success the rule exists exactly when rules are registered, up to date, with everything unmanaged as it
        was; a failure changes nothing; and on a cluster that is as wanted nothing is written. */
    method Reconcile(registry: Registry) returns (err: Option<Error>)
      modifies cluster`rule, cluster`writes, cluster`faults
      ensures err.None? ==> AsWanted(registry, cluster.rule) && !registry.setupFails
      ensures err.None? ==> (cluster.rule.Some? <==> registry.hasRules)
      ensures err.None? && registry.hasRules ==>
        && cluster.rule.Some? && registry.built.Some?
        && cluster.rule.value.spec == registry.built.value.spec
        && cluster.rule.value.labels == registry.built.value.labels
        && cluster.rule.value.annotations == registry.built.value.annotations
      ensures err.Some? <==>
        registry.setupFails || (registry.hasRules && registry.built.None?) || cluster.faults > old(cluster.faults)
      ensures err.None? && registry.hasRules && old(cluster.rule).None? ==> cluster.rule == registry.built
      ensures err.Some? ==> cluster.rule == old(cluster.rule) && cluster.writes == old(cluster.writes)
      ensures old(cluster.rule).Some? && cluster.rule.Some? ==> cluster.rule.value.rest == old(cluster.rule).value.rest
      ensures AsWanted(registry, old(cluster.rule)) ==>
        cluster.rule == old(cluster.rule) && cluster.writes == old(cluster.writes)
      ensures registry.setupFails ==> err == Some(SetupFailed)
      ensures !registry.setupFails && registry.hasRules && registry.built.None? ==> err == Some(BuildFailed)
    {
      if registry.setupFails {
        return Some(SetupFailed);
      }
      var got := cluster.Get();
      if !registry.hasRules {
        if got.Found? {
          var deleted := cluster.Delete();
          if deleted.DeleteError? {
            return Some(DeleteFailed);
          }
          return None;
        }
        if !got.NotFound? {
          return Some(GetFailed);
        }
        return None;
      }
      if registry.built.None? {
        return Some(BuildFailed);
      }
      var desired := registry.built.value;
      if got.NotFound? {
        var created := cluster.Create(desired);
        return if created then None else Some(CreateFailed);
      }
      if got.ReadError? {
        return Some(GetFailed);
      }
      var existing := got.rule;
      if existing.spec != desired.spec || existing.labels != desired.labels || existing.annotations != desired.annotations {
        existing := existing.(spec := desired.spec, labels := desired.labels, annotations := desired.annotations);
        var updated := cluster.Update(existing);
        return if updated then None else Some(UpdateFailed);
      }
      return None;
    }
  }
}
