/** Filtering a collector by an allowlist of metric names, in the two implementations of the source. */
module Allowlists {
  import opened Collections

  datatype Metric = Metric(name: string, help: string)

  datatype Result = Result(metric: Metric, labels: seq<string>, value: real)

  /** The registered metrics, and what one call of the callback returns. */
  datatype Collector = Collector(metrics: seq<Metric>, results: seq<Result>)

  type Allowlist = map<string, bool>

  /** A Go map read: a missing key reads as false. */
  predicate Allowed(list: Allowlist, name: string) {
    name in list && list[name]
  }

  ghost predicate Names(metrics: seq<Metric>, name: string) {
    exists m :: m in metrics && m.name == name
  }

  /** The metrics on the list, in order. */
  ghost function Kept(metrics: seq<Metric>, list: Allowlist): seq<Metric> {
    if metrics == [] then []
    else
      var n := |metrics| - 1;
      Kept(metrics[..n], list) + (if Allowed(list, metrics[n].name) then [metrics[n]] else [])
  }

  /** The results of the named metrics, in order. */
  ghost function Restrict(results: seq<Result>, metrics: seq<Metric>): seq<Result> {
    if results == [] then []
    else
      var n := |results| - 1;
      Restrict(results[..n], metrics) + (if Names(metrics, results[n].metric.name) then [results[n]] else [])
  }

  /** `None` is the nil collector: nothing on the list. */
  ghost function Filtered(c: Collector, list: Allowlist): Option<Collector> {
    var kept := Kept(c.metrics, list);
    if kept == [] then None else Some(Collector(kept, Restrict(c.results, kept)))
  }

  method FilterCollector(c: Collector, allowlist: Allowlist) returns (r: Option<Collector>)
    ensures r == Filtered(c, allowlist)
  {
    var kept := KeepAllowed(c.metrics, allowlist);
    if |kept| == 0 {
      return None;
    }
    var allowedSet := NameSet(kept);
    var filtered := FilterResults(c.results, kept, allowedSet);
    return Some(Collector(kept, filtered));
  }

  /** The filter of the VMStats collector: it computes the same collector, though its callback returns a nil
      slice where the other returns an empty one. */
  method FilterVMStatsCollector(c: Collector, allowlist: Allowlist) returns (r: Option<Collector>)
    ensures r == Filtered(c, allowlist)
  {
    var kept := KeepAllowed(c.metrics, allowlist);
    if |kept| == 0 {
      return None;
    }
    var allowedSet := NameSet(kept);
    var filtered := FilterVMStatsResults(c.results, kept, allowedSet);
    return Some(Collector(kept, Elements(filtered)));
  }

  method KeepAllowed(metrics: seq<Metric>, allowlist: Allowlist) returns (kept: seq<Metric>)
    ensures kept == Kept(metrics, allowlist)
  {
    kept := [];
    for i := 0 to |metrics|
      invariant kept == Kept(metrics[..i], allowlist)
    {
      assert metrics[..i + 1] == metrics[..i] + [metrics[i]];
      KeptAppend(metrics[..i], metrics[i], allowlist);
      var m := metrics[i];
      if m.name in allowlist && allowlist[m.name] {
        kept := kept + [m];
      }
    }
    assert metrics[..|metrics|] == metrics;
  }

  method NameSet(kept: seq<Metric>) returns (allowedSet: map<string, bool>)
    ensures forall n :: Allowed(allowedSet, n) <==> Names(kept, n)
  {
    allowedSet := map[];
    for i := 0 to |kept|
      invariant forall n :: n in allowedSet <==> Names(kept[..i], n)
      invariant forall n :: n in allowedSet ==> allowedSet[n]
    {
      assert kept[..i + 1] == kept[..i] + [kept[i]];
      allowedSet := allowedSet[kept[i].name := true];
    }
    assert kept[..|kept|] == kept;
  }

  /** The wrapped callback: what the original returns, without the results of other metrics. */
  method FilterResults(results: seq<Result>, kept: seq<Metric>, allowedSet: map<string, bool>)
    returns (filtered: seq<Result>)
    requires forall n :: Allowed(allowedSet, n) <==> Names(kept, n)
    ensures filtered == Restrict(results, kept)
  {
    filtered := [];
    for i := 0 to |results|
      invariant filtered == Restrict(results[..i], kept)
    {
      assert results[..i + 1][..i] == results[..i];
      var res := results[i];
      if res.metric.name in allowedSet && allowedSet[res.metric.name] {
        filtered := filtered + [res];
      }
    }
    assert results[..|results|] == results;
  }

  /** The elements of a slice; `None` is the nil slice. */
  function Elements(slice: Option<seq<Result>>): seq<Result> {
    if slice.None? then [] else slice.value
  }

  method FilterVMStatsResults(results: seq<Result>, kept: seq<Metric>, allowedSet: map<string, bool>)
    returns (filtered: Option<seq<Result>>)
    requires forall n :: Allowed(allowedSet, n) <==> Names(kept, n)
    ensures Elements(filtered) == Restrict(results, kept)
    ensures filtered.None? <==> Restrict(results, kept) == []
  {
    filtered := None;
    for i := 0 to |results|
      invariant Elements(filtered) == Restrict(results[..i], kept)
      invariant filtered.Some? ==> filtered.value != []
    {
      assert results[..i + 1][..i] == results[..i];
      var res := results[i];
      if res.metric.name in allowedSet && allowedSet[res.metric.name] {
        filtered := Some(Elements(filtered) + [res]);
      }
    }
    assert results[..|results|] == results;
  }

  /** Setup: no allowlist registers every collector whole; otherwise those that keep a metric, filtered, in order. */
  ghost function Registered(collectors: seq<Collector>, list: Option<Allowlist>): seq<Collector> {
    if list.None? then collectors
    else if collectors == [] then []
    else
      var n := |collectors| - 1;
      var f := Filtered(collectors[n], list.value);
      Registered(collectors[..n], list) + (if f.Some? then [f.value] else [])
  }

  method SetupMetrics(collectors: seq<Collector>, allowlist: Option<Allowlist>) returns (registered: seq<Collector>)
    ensures registered == Registered(collectors, allowlist)
    ensures allowlist.None? ==> registered == collectors
    ensures allowlist.Some? ==> forall f ::
      f in registered <==> exists c :: c in collectors && Filtered(c, allowlist.value) == Some(f)
  {
    if allowlist.None? {
      return collectors;
    }
    forall f ensures f in Registered(collectors, allowlist) <==> exists c :: c in collectors && Filtered(c, allowlist.value) == Some(f) {
      RegisteredMembers(collectors, allowlist.value, f);
    }
    registered := [];
    for i := 0 to |collectors|
      invariant registered == Registered(collectors[..i], allowlist)
    {
      assert collectors[..i + 1][..i] == collectors[..i];
      var fc := FilterCollector(collectors[i], allowlist.value);
      if fc.Some? {
        registered := registered + [fc.value];
      }
    }
    assert collectors[..|collectors|] == collectors;
  }

  lemma {:induction false} RegisteredMembers(collectors: seq<Collector>, list: Allowlist, f: Collector)
    ensures f in Registered(collectors, Some(list)) <==> exists c :: c in collectors && Filtered(c, list) == Some(f)
  {
    if collectors != [] {
      var n := |collectors| - 1;
      RegisteredMembers(collectors[..n], list, f);
      assert collectors == collectors[..n] + [collectors[n]];
    }
  }

  /** The list of the names on both lists. */
  ghost function Both(a: Allowlist, b: Allowlist): Allowlist {
    map n | n in a && n in b :: a[n] && b[n]
  }

  lemma {:induction false} KeptMembers(metrics: seq<Metric>, list: Allowlist, m: Metric)
    ensures m in Kept(metrics, list) <==> m in metrics && Allowed(list, m.name)
  {
    if metrics != [] {
      var n := |metrics| - 1;
      KeptMembers(metrics[..n], list, m);
      assert metrics == metrics[..n] + [metrics[n]];
    }
  }

  lemma KeptNames(metrics: seq<Metric>, list: Allowlist, name: string)
    ensures Names(Kept(metrics, list), name) <==> Names(metrics, name) && Allowed(list, name)
  {
    if Names(metrics, name) && Allowed(list, name) {
      var m :| m in metrics && m.name == name;
      KeptMembers(metrics, list, m);
    }
    if Names(Kept(metrics, list), name) {
      var m :| m in Kept(metrics, list) && m.name == name;
      KeptMembers(metrics, list, m);
    }
  }

  lemma BothAllowed(a: Allowlist, b: Allowlist, name: string)
    ensures Allowed(Both(a, b), name) <==> Allowed(a, name) && Allowed(b, name)
  {
  }

  lemma KeptAppend(metrics: seq<Metric>, m: Metric, list: Allowlist)
    ensures Kept(metrics + [m], list) == if Allowed(list, m.name) then Kept(metrics, list) + [m] else Kept(metrics, list)
  {
    assert (metrics + [m])[..|metrics|] == metrics;
  }

  lemma {:induction false} KeptTwice(metrics: seq<Metric>, a: Allowlist, b: Allowlist)
    ensures Kept(Kept(metrics, a), b) == Kept(metrics, Both(a, b))
  {
    if metrics != [] {
      var n := |metrics| - 1;
      var init, m := metrics[..n], metrics[n];
      assert metrics == init + [m];
      KeptTwice(init, a, b);
      BothAllowed(a, b, m.name);
      KeptAppend(init, m, a);
      KeptAppend(init, m, Both(a, b));
      KeptAppend(Kept(init, a), m, b);
    }
  }

  lemma {:induction false} RestrictTwice(results: seq<Result>, wide: seq<Metric>, narrow: seq<Metric>)
    requires forall n :: Names(narrow, n) ==> Names(wide, n)
    ensures Restrict(Restrict(results, wide), narrow) == Restrict(results, narrow)
  {
    if results != [] {
      var n := |results| - 1;
      RestrictTwice(results[..n], wide, narrow);
      var first := Restrict(results[..n], wide);
      if Names(wide, results[n].metric.name) {
        assert (first + [results[n]])[..|first|] == first;
      } else {
        assert first + [] == first && Restrict(results[..n], narrow) + [] == Restrict(results[..n], narrow);
      }
    }
  }

  /** Filtering by one list and then by another is filtering by the names on both, in the registered
      metrics and in the callback's output; a collector one of them empties is emptied. */
  lemma FilterComposes(c: Collector, a: Allowlist, b: Allowlist)
    ensures (if Filtered(c, a).None? then None else Filtered(Filtered(c, a).value, b)) == Filtered(c, Both(a, b))
  {
    KeptTwice(c.metrics, a, b);
    var first, both := Kept(c.metrics, a), Kept(c.metrics, Both(a, b));
    if first != [] {
      forall n | Names(both, n) ensures Names(first, n) {
        KeptNames(c.metrics, Both(a, b), n);
        KeptNames(c.metrics, a, n);
      }
      RestrictTwice(c.results, first, both);
    }
  }

  /** Which results survive, and that the others leave their order alone: a result is in the output exactly
      when its metric is registered under an allowed name. */
  lemma {:induction false} RestrictMembers(results: seq<Result>, metrics: seq<Metric>, x: Result)
    ensures multiset(Restrict(results, metrics))[x]
         == if Names(metrics, x.metric.name) then multiset(results)[x] else 0
  {
    if results != [] {
      var n := |results| - 1;
      RestrictMembers(results[..n], metrics, x);
      assert results == results[..n] + [results[n]];
    }
  }

  /** A filtered collector registers the metrics on the list, and is nil exactly when there are none. */
  lemma FilteredRegisters(c: Collector, list: Allowlist)
    ensures Filtered(c, list).None? <==> forall m :: m in c.metrics ==> !(m.name in list && list[m.name])
    ensures Filtered(c, list).Some? ==> forall m ::
      m in Filtered(c, list).value.metrics <==> m in c.metrics && m.name in list && list[m.name]
  {
    var kept := Kept(c.metrics, list);
    forall m ensures m in kept <==> m in c.metrics && m.name in list && list[m.name] {
      KeptMembers(c.metrics, list, m);
    }
    if kept != [] { assert kept[0] in kept; }
  }

  /** A filtered collector emits the results of registered metrics on the list, each as often as the original does,
      and no others. */
  lemma FilteredEmits(c: Collector, list: Allowlist, x: Result)
    requires Filtered(c, list).Some?
    ensures var f := Filtered(c, list).value;
      && (x in f.results <==>
            && x in c.results
            && (exists m :: m in c.metrics && m.name == x.metric.name)
            && x.metric.name in list && list[x.metric.name])
      && (x in f.results ==> multiset(f.results)[x] == multiset(c.results)[x])
      && (x in f.results ==> exists m :: m in f.metrics && m.name == x.metric.name)
  {
    var f := Filtered(c, list).value;
    RestrictMembers(c.results, f.metrics, x);
    KeptNames(c.metrics, list, x.metric.name);
    assert x in f.results <==> multiset(f.results)[x] > 0;
    assert x in c.results <==> multiset(c.results)[x] > 0;
  }

  /** Filtering keeps the order: it distributes over concatenation of outputs. */
  lemma {:induction false} RestrictKeepsOrder(before: seq<Result>, after: seq<Result>, metrics: seq<Metric>)
    ensures Restrict(before + after, metrics) == Restrict(before, metrics) + Restrict(after, metrics)
  {
    if after == [] {
      assert before + after == before;
    } else {
      var n := |after| - 1;
      RestrictKeepsOrder(before, after[..n], metrics);
      assert (before + after)[..|before + after| - 1] == before + after[..n];
    }
  }

  /** An allowlist that names nothing registers nothing. */
  lemma {:induction false} EmptyAllowlist(collectors: seq<Collector>, list: Allowlist)
    requires forall n :: n in list ==> !list[n]
    ensures Registered(collectors, Some(list)) == []
  {
    if collectors != [] {
      var n := |collectors| - 1;
      EmptyAllowlist(collectors[..n], list);
      NothingKept(collectors[n].metrics, list);
    }
  }

  lemma {:induction false} NothingKept(metrics: seq<Metric>, list: Allowlist)
    requires forall n :: n in list ==> !list[n]
    ensures Kept(metrics, list) == []
  {
    if metrics != [] { NothingKept(metrics[..|metrics| - 1], list); }
  }
}
