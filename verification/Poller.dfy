/** The poll as the source's loops compute it, on the schedule that runs each worker
    when it is spawned. Every other schedule is covered by `PollMachine`. */
module Pollers {
  import opened Collections
  import opened VMStatsTypes
  import opened Polls
  import opened StatsCaches

  ghost predicate Grouped(result: map<string, seq<VMI>>, objs: seq<Option<VMI>>) {
    result.Keys == ScheduledNodes(objs) && forall n :: n in result ==> result[n] == GroupOf(objs, n)
  }

  function WithObject(result: map<string, seq<VMI>>, obj: Option<VMI>): map<string, seq<VMI>> {
    if obj.None? || obj.value.node == "" then result
    else
      var vmi := obj.value;
      result[vmi.node := (if vmi.node in result then result[vmi.node] else []) + [vmi]]
  }

  lemma GroupedStep(result: map<string, seq<VMI>>, objs: seq<Option<VMI>>, obj: Option<VMI>)
    requires Grouped(result, objs)
    ensures Grouped(WithObject(result, obj), objs + [obj])
  {
    var after := objs + [obj];
    assert after[..|after| - 1] == objs;
    assert ScheduledNodes(after) == ScheduledNodes(objs) + (if Scheduled(obj) then {obj.value.node} else {}) by {
      assert forall o :: o in after <==> o in objs || o == obj;
    }
    forall n | n in WithObject(result, obj) ensures WithObject(result, obj)[n] == GroupOf(after, n) {
      NodeHasGroup(objs, n);
    }
  }

  method GroupVMIsByNode(objs: seq<Option<VMI>>) returns (result: map<string, seq<VMI>>)
    ensures result.Keys == ScheduledNodes(objs)
    ensures forall n :: n in result ==> result[n] == GroupOf(objs, n)
  {
    result := map[];
    for i := 0 to |objs|
      invariant Grouped(result, objs[..i])
    {
      GroupedStep(result, objs[..i], objs[i]);
      assert objs[..i] + [objs[i]] == objs[..i + 1];
      var obj := objs[i];
      if obj.None? || obj.value.node == "" {
        continue;
      }
      var vmi := obj.value;
      var group := if vmi.node in result then result[vmi.node] else [];
      result := result[vmi.node := group + [vmi]];
    }
    assert objs[..|objs|] == objs;
  }

  method FindVirtHandlerPodIP(pods: seq<Option<Pod>>, nodeName: string) returns (ip: Option<string>)
    ensures ip == HandlerIP(pods, nodeName)
    ensures ip.None? <==> forall i :: 0 <= i < |pods| ==>
      || pods[i].None? || "kubevirt.io" !in pods[i].value.labels || pods[i].value.labels["kubevirt.io"] != "virt-handler"
      || pods[i].value.nodeName != nodeName || pods[i].value.phase != "Running" || pods[i].value.podIP == ""
    ensures ip.Some? ==> exists i ::
      && 0 <= i < |pods|
      && pods[i].Some? && "kubevirt.io" in pods[i].value.labels && pods[i].value.labels["kubevirt.io"] == "virt-handler"
      && pods[i].value.nodeName == nodeName && pods[i].value.phase == "Running"
      && pods[i].value.podIP == ip.value && ip.value != ""
      && forall j :: 0 <= j < i ==>
           || pods[j].None? || "kubevirt.io" !in pods[j].value.labels || pods[j].value.labels["kubevirt.io"] != "virt-handler"
           || pods[j].value.nodeName != nodeName || pods[j].value.phase != "Running" || pods[j].value.podIP == ""
  {
    HandlerIsFirst(pods, nodeName);
    for i := 0 to |pods|
      invariant HandlerIP(pods[..i], nodeName) == None
    {
      assert pods[..i + 1][..i] == pods[..i];
      var obj := pods[i];
      if obj.None? {
        continue;
      }
      var pod := obj.value;
      if "kubevirt.io" in pod.labels && pod.labels["kubevirt.io"] == "virt-handler" &&
         pod.nodeName == nodeName && pod.phase == "Running" && pod.podIP != ""
      {
        assert forall j :: 0 <= j < i ==> pods[j] == pods[..i][j];
        FirstOfAll(pods[..i], nodeName);
        FirstFound(pods, nodeName, i);
        return Some(pod.podIP);
      }
    }
    assert pods[..|pods|] == pods;
    return None;
  }

  /** What the cache holds for key k after the loop body has run for `node`. */
  ghost predicate NodeVisited(inp: PollInput, node: string, before: Cache, after: Cache) {
    var ip := HandlerIP(inp.pods(node), node);
    if ip.None? then after == before
    else
      match inp.reply(node, ip.value)
      case Failed => after == before
      case Replied(results) =>
        forall k :: Get(after, k) == AfterStores(before, results, Lookup(GroupOf(inp.objs, node)), {}, k)
  }

  /** One more node polled: the cache agrees with `EntryAfter` on one more node. */
  lemma NodePolled(cache0: Cache, inp: PollInput, done: set<string>, node: string, before: Cache, after: Cache)
    requires ValidSnapshot(inp.objs) && node != "" && node !in done
    requires Polled(cache0, inp, done, before)
    requires NodeVisited(inp, node, before, after)
    ensures Polled(cache0, inp, done + {node}, after)
  {
    forall k ensures Get(after, k) == EntryAfter(cache0, inp, done + {node}, k) {
      NodePolledAt(cache0, inp, done, node, before, after, k);
    }
  }

  lemma NodePolledAt(cache0: Cache, inp: PollInput, done: set<string>, node: string, before: Cache, after: Cache, k: string)
    requires ValidSnapshot(inp.objs) && node != "" && node !in done
    requires Get(before, k) == EntryAfter(cache0, inp, done, k)
    requires NodeVisited(inp, node, before, after)
    ensures Get(after, k) == EntryAfter(cache0, inp, done + {node}, k)
  {
    var ip := HandlerIP(inp.pods(node), node);
    if ip.None? || inp.reply(node, ip.value).Failed? {
      if KeyOnNodes(inp, {node}, k) { NoReplyNoFresh(inp, node, k); }
    } else {
      WorkerFetchesFresh(inp, node, ip.value, inp.reply(node, ip.value).results, k);
    }
  }

  lemma KeyHandled(before: Cache, results: map<string, VMStatsResult>, lookup: map<string, VMI>, todo: set<string>, key: string, items: Cache)
    requires key !in todo
    requires forall k :: Get(items, k) == AfterStores(before, results, lookup, todo + {key}, k)
    ensures forall k :: Get(HandleKey(items, results, lookup, key), k) == AfterStores(before, results, lookup, todo, k)
  {
    forall k ensures Get(HandleKey(items, results, lookup, key), k) == AfterStores(before, results, lookup, todo, k) {
      assert Get(items, k) == AfterStores(before, results, lookup, todo + {key}, k);
    }
  }

  class Poller {
    const cache: StatsCache

    constructor (cache: StatsCache)
      ensures this.cache == cache
    {
      this.cache := cache;
    }

    /** The body of one worker goroutine: fetch, then store what the reply has for the node's VMIs. */
    method PollNode(reply: Reply, lookup: map<string, VMI>)
      modifies cache
      ensures reply.Failed? ==> cache.items == old(cache.items)
      ensures reply.Replied? ==>
        forall k :: Get(cache.items, k) == AfterStores(old(cache.items), reply.results, lookup, {}, k)
    {
      if reply.Failed? {
        return;
      }
      var results := reply.results;
      var todo := results.Keys;
      while todo != {}
        invariant todo <= results.Keys
        invariant forall k :: Get(cache.items, k) == AfterStores(old(cache.items), results, lookup, todo, k)
        decreases todo
      {
        var key :| key in todo;
        var result := results[key];
        ghost var items0 := cache.items;
        todo := todo - {key};
        KeyHandled(old(cache.items), results, lookup, todo, key, items0);
        if result.error != "" {
          continue;
        }
        if result.stats.None? {
          continue;
        }
        if key !in lookup {
          continue;
        }
        cache.Store(key, lookup[key], result.stats.value);
      }
    }

    /** The table of one node's VMIs; their keys become active. */
    method BuildLookup(vmis: seq<VMI>, active: map<string, bool>)
      returns (vmiLookup: map<string, VMI>, activeKeys: map<string, bool>)
      ensures vmiLookup == Lookup(vmis)
      ensures activeKeys == WithActive(active, Lookup(vmis))
    {
      vmiLookup, activeKeys := map[], active;
      assert WithActive(active, map[]) == active;
      for i := 0 to |vmis|
        invariant vmiLookup == Lookup(vmis[..i])
        invariant activeKeys == WithActive(active, vmiLookup)
      {
        assert vmis[..i + 1][..i] == vmis[..i];
        var key := Key(vmis[i]);
        WithActiveStep(active, vmiLookup, key, vmis[i]);
        vmiLookup := vmiLookup[key := vmis[i]];
        activeKeys := activeKeys[key := true];
      }
      assert vmis[..|vmis|] == vmis;
    }

    /** One turn of the dispatch loop, the worker included. */
    method VisitNode(inp: PollInput, node: string, vmis: seq<VMI>, active: map<string, bool>)
      returns (activeKeys: map<string, bool>)
      requires vmis == GroupOf(inp.objs, node)
      modifies cache
      ensures activeKeys == WithActive(active, Lookup(vmis))
      ensures NodeVisited(inp, node, old(cache.items), cache.items)
    {
      var vmiLookup;
      vmiLookup, activeKeys := BuildLookup(vmis, active);
      var podIP := FindVirtHandlerPodIP(inp.pods(node), node);
      if podIP.None? {
        return;
      }
      PollNode(inp.reply(node, podIP.value), vmiLookup);
    }

    /** One poll leaves the cache that `PollSpec` defines: untouched when nothing is scheduled, and otherwise with keys
        of listed VMIs with a node only. */
    method PollOnce(inp: PollInput)
      requires ValidSnapshot(inp.objs)
      modifies cache
      ensures cache.items == PollSpec(old(cache.items), inp)
      ensures !inp.storesReady || (forall o :: o in inp.objs && o.Some? ==> o.value.node == "") ==>
        cache.items == old(cache.items)
      ensures inp.storesReady && (exists o :: o in inp.objs && o.Some? && o.value.node != "") ==>
        forall k :: k in cache.items ==>
          exists o :: o in inp.objs && o.Some? && o.value.node != "" && o.value.namespace + "/" + o.value.name == k
    {
      PollSpecKeeps(cache.items, inp);
      if !inp.storesReady {
        return;
      }
      var nodeVMIs := GroupVMIsByNode(inp.objs);
      if |nodeVMIs| == 0 {
        return;
      }
      var activeKeys := VisitNodes(inp, nodeVMIs);
      PrunedIsSpec(old(cache.items), inp, cache.items, activeKeys);
      cache.Prune(activeKeys);
    }

    method VisitNodes(inp: PollInput, nodeVMIs: map<string, seq<VMI>>) returns (activeKeys: map<string, bool>)
      requires ValidSnapshot(inp.objs)
      requires Grouped(nodeVMIs, inp.objs)
      modifies cache
      ensures ActiveOn(activeKeys, inp, ScheduledNodes(inp.objs))
      ensures Polled(old(cache.items), inp, ScheduledNodes(inp.objs), cache.items)
    {
      activeKeys := map[];
      var todo := nodeVMIs.Keys;
      while todo != {}
        invariant todo <= nodeVMIs.Keys
        invariant ActiveOn(activeKeys, inp, nodeVMIs.Keys - todo)
        invariant Polled(old(cache.items), inp, nodeVMIs.Keys - todo, cache.items)
        decreases todo
      {
        var node :| node in todo;
        ghost var before, done := cache.items, nodeVMIs.Keys - todo;
        ActiveGrows(activeKeys, inp, done, node);
        activeKeys := VisitNode(inp, node, nodeVMIs[node], activeKeys);
        NodePolled(old(cache.items), inp, done, node, before, cache.items);
        todo := todo - {node};
        assert nodeVMIs.Keys - todo == done + {node};
      }
      assert nodeVMIs.Keys - todo == ScheduledNodes(inp.objs);
    }
  }
}
