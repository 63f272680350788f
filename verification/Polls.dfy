/** What one poll computes, as functions of its inputs: the grouping of a VMI
    listing by node, the choice of the virt-handler pod, the entry a poll fetches for
    a key, and the cache it leaves behind. */
module Polls {
  import opened Collections
  import opened VMStatsTypes
  import opened StatsCaches

  /** The answer to one fetch: an error, or a map from VMI key to result. */
  datatype Reply = Failed | Replied(results: map<string, VMStatsResult>)

  /** Everything a poll reads from outside. `None` in a listing is an object of another
      type. `pods(node)` is what the pod store lists in the call made for that node: the
      store is live and its order is a Go map's, so every call has a listing of its own.
      `reply(node, ip)` is what the fetch made for that node at that address returns. */
  datatype PollInput = PollInput(
    storesReady: bool,
    objs: seq<Option<VMI>>,
    pods: string -> seq<Option<Pod>>,
    reply: (string, string) -> Reply)

  function Key(vmi: VMI): string {
    vmi.namespace + "/" + vmi.name
  }

  /** Keys identify VMIs because a namespace has no slash. */
  lemma {:induction false} KeyInjective(ns: string, name: string, ns': string, name': string)
    requires '/' !in ns && '/' !in ns'
    requires ns + "/" + name == ns' + "/" + name'
    ensures ns == ns' && name == name'
  {
    var s := ns + "/" + name;
    assert s == ns' + "/" + name';
    assert s[|ns|] == '/' && s[|ns'|] == '/';
    assert forall i :: 0 <= i < |ns| ==> s[i] == ns[i];
    assert forall i :: 0 <= i < |ns'| ==> s[i] == ns'[i];
    assert |ns| == |ns'|;
    assert ns == s[..|ns|] && ns' == s[..|ns|];
    assert name == s[|ns| + 1..] && name' == s[|ns| + 1..];
  }

  ghost predicate Scheduled(obj: Option<VMI>) {
    obj.Some? && obj.value.node != ""
  }

  /** The VMIs of a listing that run on `node`, in listing order. */
  ghost function GroupOf(objs: seq<Option<VMI>>, node: string): seq<VMI> {
    if objs == [] then []
    else
      var last := objs[|objs| - 1];
      GroupOf(objs[..|objs| - 1], node) +
      (if Scheduled(last) && last.value.node == node then [last.value] else [])
  }

  lemma {:induction false} GroupMembers(objs: seq<Option<VMI>>, node: string, v: VMI)
    ensures v in GroupOf(objs, node) <==> Some(v) in objs && v.node == node && node != ""
  {
    if objs != [] {
      GroupMembers(objs[..|objs| - 1], node, v);
      assert objs == objs[..|objs| - 1] + [objs[|objs| - 1]];
    }
  }

  /** Grouping keeps the listing's order. */
  lemma {:induction false} GroupKeepsOrder(objs: seq<Option<VMI>>, later: seq<Option<VMI>>, node: string)
    ensures GroupOf(objs + later, node) == GroupOf(objs, node) + GroupOf(later, node)
  {
    var all := objs + later;
    if later == [] {
      assert all == objs;
    } else {
      var init, last := later[..|later| - 1], later[|later| - 1];
      GroupKeepsOrder(objs, init, node);
      assert all[..|all| - 1] == objs + init && all[|all| - 1] == last;
      var one := if Scheduled(last) && last.value.node == node then [last.value] else [];
      assert GroupOf(all, node) == (GroupOf(objs, node) + GroupOf(init, node)) + one;
    }
  }

  /** The nodes that run a listed VMI. */
  ghost function ScheduledNodes(objs: seq<Option<VMI>>): set<string> {
    set o | o in objs && Scheduled(o) :: o.value.node
  }

  ghost function ScheduledVMIs(objs: seq<Option<VMI>>): seq<VMI> {
    if objs == [] then []
    else
      var last := objs[|objs| - 1];
      ScheduledVMIs(objs[..|objs| - 1]) + (if Scheduled(last) then [last.value] else [])
  }

  /** The informer store holds one object per namespace and name, and Kubernetes
      admits no slash in a namespace. */
  ghost predicate ValidSnapshot(objs: seq<Option<VMI>>) {
    && (forall o :: o in objs && o.Some? ==> '/' !in o.value.namespace)
    && (forall i, j :: 0 <= i < j < |objs| && objs[i].Some? && objs[j].Some? ==>
          objs[i].value.namespace != objs[j].value.namespace || objs[i].value.name != objs[j].value.name)
  }

  lemma SnapshotKeys(objs: seq<Option<VMI>>, v: VMI, w: VMI)
    requires ValidSnapshot(objs) && Some(v) in objs && Some(w) in objs && Key(v) == Key(w)
    ensures v == w
  {
    KeyInjective(v.namespace, v.name, w.namespace, w.name);
  }

  /** The node groups hold exactly the VMIs that have a node name, each as often as it is
      listed, whatever order the Go map is ranged over in. */
  lemma {:induction false} GroupingIsPartition(objs: seq<Option<VMI>>, nodes: seq<string>)
    requires Distinct(nodes) && (forall n :: n in nodes <==> n in ScheduledNodes(objs))
    ensures multiset(Flatten(seq(|nodes|, i requires 0 <= i < |nodes| => GroupOf(objs, nodes[i]))))
         == multiset(ScheduledVMIs(objs))
    ensures forall n :: n in nodes <==> GroupOf(objs, n) != []
  {
    GroupsOfNodes(objs, nodes);
    AllScheduled(objs, nodes);
    forall n ensures n in nodes <==> GroupOf(objs, n) != [] {
      NodeHasGroup(objs, n);
    }
  }

  lemma NodeHasGroup(objs: seq<Option<VMI>>, n: string)
    ensures n in ScheduledNodes(objs) <==> GroupOf(objs, n) != []
  {
    if GroupOf(objs, n) != [] {
      var v := GroupOf(objs, n)[0];
      GroupMembers(objs, n, v);
      assert Some(v) in objs && Scheduled(Some(v));
      assert v.node in ScheduledNodes(objs);
    }
    if n in ScheduledNodes(objs) {
      var o :| o in objs && Scheduled(o) && o.value.node == n;
      GroupMembers(objs, n, o.value);
    }
  }

  ghost function Within(objs: seq<Option<VMI>>, nodes: seq<string>): seq<VMI> {
    if objs == [] then []
    else
      var last := objs[|objs| - 1];
      Within(objs[..|objs| - 1], nodes) +
      (if Scheduled(last) && last.value.node in nodes then [last.value] else [])
  }

  lemma {:induction false} GroupsOfNodes(objs: seq<Option<VMI>>, nodes: seq<string>)
    requires Distinct(nodes)
    ensures multiset(Flatten(seq(|nodes|, i requires 0 <= i < |nodes| => GroupOf(objs, nodes[i]))))
         == multiset(Within(objs, nodes))
  {
    var groups := seq(|nodes|, i requires 0 <= i < |nodes| => GroupOf(objs, nodes[i]));
    if nodes == [] {
      NoneWithin(objs);
    } else {
      assert groups[1..] == seq(|nodes[1..]|, i requires 0 <= i < |nodes[1..]| => GroupOf(objs, nodes[1..][i]));
      GroupsOfNodes(objs, nodes[1..]);
      OneMoreNode(objs, nodes);
    }
  }

  lemma {:induction false} NoneWithin(objs: seq<Option<VMI>>)
    ensures Within(objs, []) == []
  {
    if objs != [] { NoneWithin(objs[..|objs| - 1]); }
  }

  lemma {:induction false} OneMoreNode(objs: seq<Option<VMI>>, nodes: seq<string>)
    requires nodes != [] && Distinct(nodes)
    ensures multiset(Within(objs, nodes)) == multiset(GroupOf(objs, nodes[0])) + multiset(Within(objs, nodes[1..]))
  {
    if objs != [] {
      OneMoreNode(objs[..|objs| - 1], nodes);
      var last := objs[|objs| - 1];
      assert nodes == [nodes[0]] + nodes[1..];
      assert nodes[0] !in nodes[1..];
    }
  }

  lemma {:induction false} AllScheduled(objs: seq<Option<VMI>>, nodes: seq<string>)
    requires forall o :: o in objs && Scheduled(o) ==> o.value.node in nodes
    ensures Within(objs, nodes) == ScheduledVMIs(objs)
  {
    if objs != [] {
      assert objs[|objs| - 1] in objs;
      AllScheduled(objs[..|objs| - 1], nodes);
    }
  }

  ghost predicate IsHandler(obj: Option<Pod>, node: string) {
    && obj.Some?
    && Get(obj.value.labels, "kubevirt.io") == Some("virt-handler")
    && obj.value.nodeName == node
    && obj.value.phase == "Running"
    && obj.value.podIP != ""
  }

  ghost predicate FirstHandler(pods: seq<Option<Pod>>, node: string, i: nat)
    requires i < |pods|
  {
    IsHandler(pods[i], node) && forall j :: 0 <= j < i ==> !IsHandler(pods[j], node)
  }

  /** The address of the first running virt-handler pod of the node, if any. */
  ghost function HandlerIP(pods: seq<Option<Pod>>, node: string): Option<string> {
    if pods == [] then None
    else
      var last := |pods| - 1;
      var ip := HandlerIP(pods[..last], node);
      if ip.Some? then ip
      else if IsHandler(pods[last], node) then Some(pods[last].value.podIP)
      else None
  }

  lemma {:induction false} FirstOfAll(pods: seq<Option<Pod>>, node: string)
    ensures HandlerIP(pods, node).None? <==> forall i :: 0 <= i < |pods| ==> !IsHandler(pods[i], node)
    ensures HandlerIP(pods, node).Some? ==>
      exists i :: 0 <= i < |pods| && FirstHandler(pods, node, i) && pods[i].value.podIP == HandlerIP(pods, node).value
  {
    if pods != [] {
      var last := |pods| - 1;
      FirstOfAll(pods[..last], node);
      assert forall i :: 0 <= i < last ==> pods[i] == pods[..last][i];
      if HandlerIP(pods[..last], node).Some? {
        var i :| 0 <= i < last && FirstHandler(pods[..last], node, i)
                 && pods[..last][i].value.podIP == HandlerIP(pods[..last], node).value;
        assert FirstHandler(pods, node, i);
      } else if IsHandler(pods[last], node) {
        assert FirstHandler(pods, node, last);
      }
    }
  }

  /** The choice spelled out: the first pod that is labelled virt-handler, runs on the node and has an address;
      none exactly when every pod fails one of these. */
  lemma HandlerIsFirst(pods: seq<Option<Pod>>, node: string)
    ensures HandlerIP(pods, node).None? <==> forall i :: 0 <= i < |pods| ==>
      || pods[i].None? || "kubevirt.io" !in pods[i].value.labels || pods[i].value.labels["kubevirt.io"] != "virt-handler"
      || pods[i].value.nodeName != node || pods[i].value.phase != "Running" || pods[i].value.podIP == ""
    ensures HandlerIP(pods, node).Some? ==> exists i ::
      && 0 <= i < |pods|
      && pods[i].Some? && "kubevirt.io" in pods[i].value.labels && pods[i].value.labels["kubevirt.io"] == "virt-handler"
      && pods[i].value.nodeName == node && pods[i].value.phase == "Running"
      && pods[i].value.podIP == HandlerIP(pods, node).value && HandlerIP(pods, node).value != ""
      && forall j :: 0 <= j < i ==>
           || pods[j].None? || "kubevirt.io" !in pods[j].value.labels || pods[j].value.labels["kubevirt.io"] != "virt-handler"
           || pods[j].value.nodeName != node || pods[j].value.phase != "Running" || pods[j].value.podIP == ""
  {
    FirstOfAll(pods, node);
    if HandlerIP(pods, node).Some? {
      var i :| 0 <= i < |pods| && FirstHandler(pods, node, i) && pods[i].value.podIP == HandlerIP(pods, node).value;
      assert forall j :: 0 <= j < i ==> !IsHandler(pods[j], node);
    }
  }

  lemma FirstFound(pods: seq<Option<Pod>>, node: string, i: nat)
    requires i < |pods| && FirstHandler(pods, node, i)
    ensures HandlerIP(pods, node) == Some(pods[i].value.podIP)
  {
    FirstOfAll(pods, node);
    var f :| 0 <= f < |pods| && FirstHandler(pods, node, f) && pods[f].value.podIP == HandlerIP(pods, node).value;
    assert f == i;
  }

  /** The table a worker looks fetched keys up in; a later VMI overwrites an earlier one. */
  ghost function Lookup(group: seq<VMI>): map<string, VMI> {
    if group == [] then map[]
    else
      var last := group[|group| - 1];
      Lookup(group[..|group| - 1])[Key(last) := last]
  }

  lemma {:induction false} LookupMembers(group: seq<VMI>, k: string)
    ensures k in Lookup(group) <==> exists v :: v in group && Key(v) == k
    ensures k in Lookup(group) ==> Lookup(group)[k] in group && Key(Lookup(group)[k]) == k
  {
    if group != [] {
      var last := group[|group| - 1];
      assert group == group[..|group| - 1] + [last];
      LookupMembers(group[..|group| - 1], k);
    }
  }

  /** The scheduled VMI that has the key, if any. */
  ghost function VMIForKey(objs: seq<Option<VMI>>, k: string): Option<VMI> {
    if objs == [] then None
    else
      var last := objs[|objs| - 1];
      if Scheduled(last) && Key(last.value) == k then last else VMIForKey(objs[..|objs| - 1], k)
  }

  lemma {:induction false} VMIForKeyIs(objs: seq<Option<VMI>>, k: string)
    ensures var v := VMIForKey(objs, k);
      if v.Some? then v in objs && Scheduled(v) && Key(v.value) == k
      else forall o :: o in objs && Scheduled(o) ==> Key(o.value) != k
  {
    if objs != [] {
      VMIForKeyIs(objs[..|objs| - 1], k);
      assert objs == objs[..|objs| - 1] + [objs[|objs| - 1]];
    }
  }

  /** A worker's table, seen from the listing. */
  lemma LookupIs(objs: seq<Option<VMI>>, node: string, k: string)
    requires ValidSnapshot(objs) && node != ""
    ensures Get(Lookup(GroupOf(objs, node)), k)
         == (if VMIForKey(objs, k).Some? && VMIForKey(objs, k).value.node == node then VMIForKey(objs, k) else None)
  {
    var m, v := Lookup(GroupOf(objs, node)), VMIForKey(objs, k);
    LookupMembers(GroupOf(objs, node), k);
    VMIForKeyIs(objs, k);
    if k in m {
      GroupMembers(objs, node, m[k]);
      assert Scheduled(Some(m[k]));
      SnapshotKeys(objs, m[k], v.value);
    }
    if v.Some? && v.value.node == node {
      GroupMembers(objs, node, v.value);
    }
  }

  /** A scheduled VMI is in the table of its own node's worker and of no other, under its key. */
  lemma KeyInOneLookup(objs: seq<Option<VMI>>, v: VMI, node: string)
    requires ValidSnapshot(objs) && Some(v) in objs && v.node != "" && node != ""
    ensures Get(Lookup(GroupOf(objs, node)), Key(v)) == if node == v.node then Some(v) else None
  {
    LookupIs(objs, node, Key(v));
    VMIForKeyIs(objs, Key(v));
    assert Scheduled(Some(v));
    SnapshotKeys(objs, v, VMIForKey(objs, Key(v)).value);
  }

  /** What a worker stores for one key of its reply. */
  ghost function StoredFor(results: map<string, VMStatsResult>, lookup: map<string, VMI>, k: string): Option<CachedStats> {
    if k in results && results[k].error == "" && results[k].stats.Some? && k in lookup
    then Some(CachedStats(lookup[k], results[k].stats.value))
    else None
  }

  /** A worker's handling of one key of its reply. */
  ghost function HandleKey(items: Cache, results: map<string, VMStatsResult>, lookup: map<string, VMI>, k: string): Cache {
    var e := StoredFor(results, lookup, k);
    if e.Some? then items[k := e.value] else items
  }

  /** What key k holds after a worker has handled the keys of its reply outside `todo`. */
  ghost function AfterStores(before: Cache, results: map<string, VMStatsResult>, lookup: map<string, VMI>, todo: set<string>, k: string)
    : Option<CachedStats>
  {
    if k !in todo && StoredFor(results, lookup, k).Some? then StoredFor(results, lookup, k) else Get(before, k)
  }

  /** The entry the poll fetches for a key: the key's VMI is scheduled, its node has a running
      handler, that handler answers, and the answer has statistics and no error for the key. */
  ghost function Fresh(inp: PollInput, k: string): Option<CachedStats> {
    var v := VMIForKey(inp.objs, k);
    if v.None? then None
    else
      var ip := HandlerIP(inp.pods(v.value.node), v.value.node);
      if ip.None? then None
      else
        match inp.reply(v.value.node, ip.value)
        case Failed => None
        case Replied(results) => StoredFor(results, map[k := v.value], k)
  }

  /** A poll that ends before it does anything: no stores yet, or nothing scheduled. */
  ghost predicate Skips(inp: PollInput) {
    !inp.storesReady || ScheduledNodes(inp.objs) == {}
  }

  ghost predicate Schedules(inp: PollInput, k: string) {
    VMIForKey(inp.objs, k).Some?
  }

  /** The entry of key k once the nodes in `done` have been polled and nothing is pruned yet. */
  ghost function EntryAfter(cache: Cache, inp: PollInput, done: set<string>, k: string): Option<CachedStats> {
    var v := VMIForKey(inp.objs, k);
    if v.Some? && v.value.node in done && Fresh(inp, k).Some? then Fresh(inp, k) else Get(cache, k)
  }

  /** The keys whose VMI runs on one of the nodes. */
  ghost predicate KeyOnNodes(inp: PollInput, nodes: set<string>, k: string) {
    var v := VMIForKey(inp.objs, k);
    v.Some? && v.value.node in nodes
  }

  /** The sequential meaning of one poll. */
  ghost function PollSpec(cache: Cache, inp: PollInput): Cache {
    if Skips(inp) then cache
    else
      var keys := cache.Keys + set o | o in inp.objs && Scheduled(o) :: Key(o.value);
      map k | k in keys && Schedules(inp, k) && (Fresh(inp, k).Some? || k in cache) ::
        if Fresh(inp, k).Some? then Fresh(inp, k).value else cache[k]
  }

  /** The cache a poll leaves, key by key: all as it was when stores are not ready or no listed VMI has a node. */
  lemma PollSpecAt(cache: Cache, inp: PollInput, k: string)
    ensures Get(PollSpec(cache, inp), k)
         == (if !inp.storesReady || (forall o :: o in inp.objs && o.Some? ==> o.value.node == "") then Get(cache, k)
             else if !Schedules(inp, k) then None
             else if Fresh(inp, k).Some? then Fresh(inp, k)
             else Get(cache, k))
  {
    SkipsIff(inp);
    VMIForKeyIs(inp.objs, k);
  }

  /** A poll does nothing exactly when stores are not ready or no listed VMI has a node. */
  lemma SkipsIff(inp: PollInput)
    ensures Skips(inp) <==> !inp.storesReady || forall o :: o in inp.objs && o.Some? ==> o.value.node == ""
  {
    forall o | o in inp.objs && Scheduled(o) ensures o.value.node in ScheduledNodes(inp.objs) {
    }
  }

  /** The scheduled keys, from the listing. */
  lemma SchedulesIff(inp: PollInput, k: string)
    ensures Schedules(inp, k) <==>
      exists o :: o in inp.objs && o.Some? && o.value.node != "" && o.value.namespace + "/" + o.value.name == k
  {
    VMIForKeyIs(inp.objs, k);
  }

  /** A poll of no scheduled VMI keeps the whole cache; any other keeps keys of listed VMIs with a node only. */
  lemma PollSpecKeeps(cache: Cache, inp: PollInput)
    ensures !inp.storesReady || (forall o :: o in inp.objs && o.Some? ==> o.value.node == "") ==> PollSpec(cache, inp) == cache
    ensures inp.storesReady && (exists o :: o in inp.objs && o.Some? && o.value.node != "") ==>
      forall k :: k in PollSpec(cache, inp) ==>
        exists o :: o in inp.objs && o.Some? && o.value.node != "" && o.value.namespace + "/" + o.value.name == k
  {
    SkipsIff(inp);
    forall k | k in PollSpec(cache, inp) && !Skips(inp)
      ensures exists o :: o in inp.objs && o.Some? && o.value.node != "" && o.value.namespace + "/" + o.value.name == k
    {
      SchedulesIff(inp, k);
    }
  }

  /** A worker that looks keys up in the table of a polled node fetches exactly the fresh entries of that node. */
  lemma WorkerFetchesFresh(inp: PollInput, node: string, ip: string, results: map<string, VMStatsResult>, k: string)
    requires ValidSnapshot(inp.objs) && node != ""
    requires HandlerIP(inp.pods(node), node) == Some(ip) && inp.reply(node, ip) == Replied(results)
    ensures StoredFor(results, Lookup(GroupOf(inp.objs, node)), k) == if KeyOnNodes(inp, {node}, k) then Fresh(inp, k) else None
  {
    LookupIs(inp.objs, node, k);
    var m := Lookup(GroupOf(inp.objs, node));
    assert k in m <==> Get(m, k).Some?;
  }

  /** A node that is not polled, or whose fetch fails, gives none of its keys a fresh entry. */
  lemma NoReplyNoFresh(inp: PollInput, node: string, k: string)
    requires KeyOnNodes(inp, {node}, k)
    requires var ip := HandlerIP(inp.pods(node), node); ip.None? || inp.reply(node, ip.value).Failed?
    ensures Fresh(inp, k) == None
  {
  }

  lemma VMIForKeyNode(objs: seq<Option<VMI>>, k: string)
    ensures var v := VMIForKey(objs, k); v.Some? ==> v.value.node in ScheduledNodes(objs) && v.value.node != ""
  {
    VMIForKeyIs(objs, k);
  }

  lemma SameEntries<V>(a: map<string, V>, b: map<string, V>)
    requires forall k :: Get(a, k) == Get(b, k)
    ensures a == b
  {
    forall k ensures k in a <==> k in b {
      assert Get(a, k) == Get(b, k);
    }
    forall k | k in a ensures a[k] == b[k] {
      assert Get(a, k) == Get(b, k);
    }
  }

  /** The active keys are those of the VMIs on the nodes dispatched so far. */
  function WithActive(active: map<string, bool>, lookup: map<string, VMI>): map<string, bool> {
    active + AllTrue(lookup)
  }

  function AllTrue(lookup: map<string, VMI>): (m: map<string, bool>)
    ensures m.Keys == lookup.Keys && forall k :: k in m ==> m[k]
  {
    map k | k in lookup :: true
  }

  lemma WithActiveStep(active: map<string, bool>, lookup: map<string, VMI>, k: string, v: VMI)
    ensures WithActive(active, lookup[k := v]) == WithActive(active, lookup)[k := true]
    ensures WithActive(active, map[]) == active
  {
    assert AllTrue(lookup[k := v]) == AllTrue(lookup)[k := true];
  }

  ghost predicate ActiveOn(activeKeys: map<string, bool>, inp: PollInput, done: set<string>) {
    && (forall k :: k in activeKeys <==> KeyOnNodes(inp, done, k))
    && (forall k :: k in activeKeys ==> activeKeys[k])
  }

  lemma ActiveGrows(activeKeys: map<string, bool>, inp: PollInput, done: set<string>, node: string)
    requires ValidSnapshot(inp.objs) && node != "" && ActiveOn(activeKeys, inp, done)
    ensures ActiveOn(WithActive(activeKeys, Lookup(GroupOf(inp.objs, node))), inp, done + {node})
  {
    NodeActive(inp, node);
  }

  lemma NodeActive(inp: PollInput, node: string)
    requires ValidSnapshot(inp.objs) && node != ""
    ensures forall k :: k in Lookup(GroupOf(inp.objs, node)) <==> KeyOnNodes(inp, {node}, k)
  {
    var m := Lookup(GroupOf(inp.objs, node));
    forall k ensures k in m <==> KeyOnNodes(inp, {node}, k) {
      LookupIs(inp.objs, node, k);
      assert k in m <==> Get(m, k).Some?;
    }
  }

  ghost predicate Polled(cache0: Cache, inp: PollInput, done: set<string>, items: Cache) {
    forall k :: Get(items, k) == EntryAfter(cache0, inp, done, k)
  }

  /** Pruning the cache left by all workers leaves what the poll is meant to leave. */
  lemma PrunedIsSpec(cache0: Cache, inp: PollInput, items: Cache, activeKeys: map<string, bool>)
    requires !Skips(inp) && Polled(cache0, inp, ScheduledNodes(inp.objs), items)
    requires ActiveOn(activeKeys, inp, ScheduledNodes(inp.objs))
    ensures Pruned(items, activeKeys) == PollSpec(cache0, inp)
  {
    var after, want := Pruned(items, activeKeys), PollSpec(cache0, inp);
    forall k ensures Get(after, k) == Get(want, k) {
      PollSpecAt(cache0, inp, k);
      VMIForKeyNode(inp.objs, k);
      assert Get(items, k) == EntryAfter(cache0, inp, ScheduledNodes(inp.objs), k);
    }
    SameEntries(after, want);
  }
}
