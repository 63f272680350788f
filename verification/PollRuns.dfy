/** The poller's life: polls one after another, each a concurrent system of its own,
    starting from the empty cache; and what a scrape can find in the cache at any moment. */
module PollRuns {
  import opened Collections
  import opened VMStatsTypes
  import opened Polls
  import opened PollMachine

  /** `log` holds the inputs of the polls so far, the running one included; `cache` is the cache
      before the running poll, or now if none runs. */
  datatype World = World(log: seq<PollInput>, cache: Cache, poll: Option<State>)

  datatype Event = Tick(inp: PollInput) | Step(action: Action) | Return

  ghost const Boot: World := World([], map[], None)

  /** The contents of the shared cache. */
  ghost function Shared(w: World): Cache {
    if w.poll.Some? then w.poll.value.cache else w.cache
  }

  ghost predicate CanHappen(w: World, max: nat, e: Event) {
    match e
    case Tick(inp) => w.poll.None? && ValidSnapshot(inp.objs)
    case Step(a) => w.poll.Some? && w.log != [] && Enabled(w.poll.value, max, a)
    case Return => w.poll.Some? && w.poll.value.dispatcher.Finished?
  }

  ghost function After(w: World, max: nat, e: Event): World
    requires CanHappen(w, max, e)
  {
    match e
    case Tick(inp) =>
      World(w.log + [inp], w.cache, if Skips(inp) then None else Some(Start(inp, w.cache)))
    case Step(a) => w.(poll := Some(Apply(w.log[|w.log| - 1], w.poll.value, max, a)))
    case Return => World(w.log, w.poll.value.cache, None)
  }

  ghost function Live(w: World, max: nat, events: seq<Event>): Option<World>
    decreases |events|
  {
    if events == [] then Some(w)
    else if CanHappen(w, max, events[0]) then Live(After(w, max, events[0]), max, events[1..])
    else None
  }

  ghost predicate Reachable(max: nat, w: World) {
    exists events :: Live(Boot, max, events) == Some(w)
  }

  /** The cache after a sequence of whole polls. */
  ghost function CacheAfter(log: seq<PollInput>): Cache {
    if log == [] then map[] else PollSpec(CacheAfter(log[..|log| - 1]), log[|log| - 1])
  }

  ghost predicate WorldInv(max: nat, w: World) {
    if w.poll.None? then w.cache == CacheAfter(w.log)
    else
      && w.log != []
      && w.cache == CacheAfter(w.log[..|w.log| - 1])
      && ValidSnapshot(w.log[|w.log| - 1].objs) && !Skips(w.log[|w.log| - 1])
      && Inv(w.log[|w.log| - 1], w.cache, max, w.poll.value)
  }

  lemma WorldStep(max: nat, w: World, e: Event)
    requires WorldInv(max, w) && CanHappen(w, max, e)
    ensures WorldInv(max, After(w, max, e))
  {
    match e
    case Tick(inp) =>
      assert (w.log + [inp])[..|w.log|] == w.log;
      if !Skips(inp) { StartInv(inp, w.cache, max); }
    case Step(a) => InvStep(w.log[|w.log| - 1], w.cache, w.poll.value, max, a);
    case Return =>
  }

  lemma {:induction false} WorldRuns(max: nat, w: World, events: seq<Event>)
    requires WorldInv(max, w) && Live(w, max, events).Some?
    ensures WorldInv(max, Live(w, max, events).value)
    decreases |events|
  {
    if events != [] {
      WorldStep(max, w, events[0]);
      WorldRuns(max, After(w, max, events[0]), events[1..]);
    }
  }

  lemma ReachableInv(max: nat, w: World)
    requires Reachable(max, w)
    ensures WorldInv(max, w)
  {
    var events :| Live(Boot, max, events) == Some(w);
    WorldRuns(max, Boot, events);
  }

  /** Between polls the cache is what the polls so far compute one after another, however each was scheduled. */
  lemma RunsRefineSpec(max: nat, w: World)
    requires Reachable(max, w) && w.poll.None?
    ensures Shared(w) == CacheAfter(w.log)
  {
    ReachableInv(max, w);
  }

  ghost predicate Gives(inp: PollInput, k: string, e: CachedStats) {
    !Skips(inp) && Schedules(inp, k) && Fresh(inp, k) == Some(e)
  }

  ghost predicate PassesOver(inp: PollInput, k: string) {
    Skips(inp) || (Schedules(inp, k) && Fresh(inp, k) == None)
  }

  /** Poll i fetched e for key k, and every later poll either did nothing or still scheduled k
      without a fresh entry for it. */
  ghost predicate LastGood(log: seq<PollInput>, i: nat, k: string, e: CachedStats)
    requires i < |log|
  {
    Gives(log[i], k, e) && forall j :: i < j < |log| ==> PassesOver(log[j], k)
  }

  lemma OnePollOn(cache: Cache, inp: PollInput, k: string, e: CachedStats)
    ensures Get(PollSpec(cache, inp), k) == Some(e) <==>
      Gives(inp, k, e) || (PassesOver(inp, k) && Get(cache, k) == Some(e))
  {
    PollSpecAt(cache, inp, k);
    SkipsIff(inp);
  }

  lemma LastGoodGrows(log: seq<PollInput>, i: nat, k: string, e: CachedStats)
    requires i < |log|
    ensures var n := |log| - 1;
      LastGood(log, i, k, e) <==>
        if i == n then Gives(log[n], k, e) else LastGood(log[..n], i, k, e) && PassesOver(log[n], k)
  {
    var n := |log| - 1;
    assert forall j :: 0 <= j < n ==> log[..n][j] == log[j];
    if i < n && LastGood(log[..n], i, k, e) && PassesOver(log[n], k) {
      forall j | i < j < |log| ensures PassesOver(log[j], k) {
        if j < n { assert PassesOver(log[..n][j], k); }
      }
    }
    if i < n && LastGood(log, i, k, e) {
      assert PassesOver(log[n], k);
      assert forall j :: i < j < n ==> PassesOver(log[..n][j], k);
    }
  }

  /** Last-known-good, exactly: k is cached with e when and only when e is the last good entry of k. */
  lemma {:induction false} CacheIsLastGood(log: seq<PollInput>, k: string, e: CachedStats)
    ensures Get(CacheAfter(log), k) == Some(e) <==> exists i :: 0 <= i < |log| && LastGood(log, i, k, e)
  {
    if log != [] {
      var n := |log| - 1;
      CacheIsLastGood(log[..n], k, e);
      OnePollOn(CacheAfter(log[..n]), log[n], k, e);
      forall i | 0 <= i < |log|
        ensures LastGood(log, i, k, e) <==>
                if i == n then Gives(log[n], k, e) else LastGood(log[..n], i, k, e) && PassesOver(log[n], k)
      {
        LastGoodGrows(log, i, k, e);
      }
      if Gives(log[n], k, e) { assert LastGood(log, n, k, e); }
      assert (exists i :: 0 <= i < |log| && LastGood(log, i, k, e)) <==>
        Gives(log[n], k, e) || (PassesOver(log[n], k) && exists i :: 0 <= i < n && LastGood(log[..n], i, k, e));
    }
  }

  /** Retention: whatever fails, a cached key survives any number of polls that list its VMI with a node, have no
      stores yet, or list no VMI with a node at all. */
  lemma {:induction false} Retention(log: seq<PollInput>, later: seq<PollInput>, k: string)
    requires k in CacheAfter(log)
    requires forall p :: p in later ==>
      || !p.storesReady
      || (forall o :: o in p.objs && o.Some? ==> o.value.node == "")
      || (exists o :: o in p.objs && o.Some? && o.value.node != "" && o.value.namespace + "/" + o.value.name == k)
    ensures k in CacheAfter(log + later)
  {
    if later == [] {
      assert log + later == log;
    } else {
      var n := |later| - 1;
      Retention(log, later[..n], k);
      assert (log + later)[..|log + later| - 1] == log + later[..n];
      assert later[n] in later;
      SchedulesIff(later[n], k);
      PollSpecAt(CacheAfter(log + later[..n]), later[n], k);
    }
  }

  /** And a poll that lists some VMI with a node, but none of the key, drops it. */
  lemma UnscheduledIsDropped(log: seq<PollInput>, inp: PollInput, k: string)
    requires inp.storesReady && exists o :: o in inp.objs && o.Some? && o.value.node != ""
    requires forall o :: o in inp.objs && o.Some? && o.value.node != "" ==> o.value.namespace + "/" + o.value.name != k
    ensures k !in CacheAfter(log + [inp])
  {
    assert (log + [inp])[..|log|] == log;
    SchedulesIff(inp, k);
    PollSpecAt(CacheAfter(log), inp, k);
  }

  /** The entry's VMI was listed by the poll with a node and has the key, and its statistics were in the
      answer of the first running handler pod of that same node. */
  ghost predicate Supplied(inp: PollInput, k: string, e: CachedStats) {
    && Some(e.vmi) in inp.objs && e.vmi.node != "" && e.vmi.namespace + "/" + e.vmi.name == k
    && exists i :: 0 <= i < |inp.pods(e.vmi.node)| && AnsweredBy(inp, k, e, i)
  }

  ghost predicate AnsweredBy(inp: PollInput, k: string, e: CachedStats, i: nat)
    requires i < |inp.pods(e.vmi.node)|
  {
    var pods := inp.pods(e.vmi.node);
    && pods[i].Some? && "kubevirt.io" in pods[i].value.labels && pods[i].value.labels["kubevirt.io"] == "virt-handler"
    && pods[i].value.nodeName == e.vmi.node && pods[i].value.phase == "Running" && pods[i].value.podIP != ""
    && (forall j :: 0 <= j < i ==>
          || pods[j].None? || "kubevirt.io" !in pods[j].value.labels || pods[j].value.labels["kubevirt.io"] != "virt-handler"
          || pods[j].value.nodeName != e.vmi.node || pods[j].value.phase != "Running" || pods[j].value.podIP == "")
    && var reply := inp.reply(e.vmi.node, pods[i].value.podIP);
    && reply.Replied? && k in reply.results
    && reply.results[k].error == "" && reply.results[k].stats == Some(e.stats)
  }

  lemma FreshIsSupplied(inp: PollInput, k: string)
    requires Fresh(inp, k).Some?
    ensures Supplied(inp, k, Fresh(inp, k).value)
  {
    VMIForKeyIs(inp.objs, k);
    var e, v := Fresh(inp, k).value, VMIForKey(inp.objs, k).value;
    var pods := inp.pods(v.node);
    FirstOfAll(pods, v.node);
    var i :| 0 <= i < |pods| && FirstHandler(pods, v.node, i) && pods[i].value.podIP == HandlerIP(pods, v.node).value;
    assert forall j :: 0 <= j < i ==> !IsHandler(pods[j], v.node);
    assert AnsweredBy(inp, k, e, i);
  }

  /** The fresh entry of a key is the one the poll supplies, and a poll supplies no other. */
  lemma FreshIff(inp: PollInput, k: string, e: CachedStats)
    requires ValidSnapshot(inp.objs)
    ensures Fresh(inp, k) == Some(e) <==> Supplied(inp, k, e)
  {
    if Fresh(inp, k) == Some(e) {
      FreshIsSupplied(inp, k);
    }
    if Supplied(inp, k, e) {
      VMIForKeyIs(inp.objs, k);
      assert Scheduled(Some(e.vmi));
      SnapshotKeys(inp.objs, e.vmi, VMIForKey(inp.objs, k).value);
      var i :| 0 <= i < |inp.pods(e.vmi.node)| && AnsweredBy(inp, k, e, i);
      assert FirstHandler(inp.pods(e.vmi.node), e.vmi.node, i);
      FirstFound(inp.pods(e.vmi.node), e.vmi.node, i);
    }
  }

  /** Provenance: at every moment of every run, each entry a scrape can find was supplied, VMI and
      statistics together, by one poll of the run. */
  lemma Provenance(max: nat, w: World, k: string)
    requires Reachable(max, w) && k in Shared(w)
    ensures exists i :: 0 <= i < |w.log| && Supplied(w.log[i], k, Shared(w)[k])
  {
    ReachableInv(max, w);
    var e := Shared(w)[k];
    var n := |w.log| - 1;
    if w.poll.Some? {
      ScrapeSeesOldOrFresh(w.log[n], w.cache, max, w.poll.value, k);
    }
    if w.poll.Some? && Some(e) == Fresh(w.log[n], k) {
      FreshIsSupplied(w.log[n], k);
    } else {
      var log := if w.poll.Some? then w.log[..n] else w.log;
      CacheIsLastGood(log, k, e);
      var i :| 0 <= i < |log| && LastGood(log, i, k, e);
      FreshIsSupplied(log[i], k);
      assert w.log[i] == log[i];
    }
  }

  /** What a scrape relies on: entries sit under their own VMI's key. */
  ghost predicate WellKeyed(cache: Cache) {
    forall k :: k in cache ==> cache[k].vmi.namespace + "/" + cache[k].vmi.name == k && '/' !in cache[k].vmi.namespace
  }

  lemma {:induction false} LogIsValid(max: nat, w: World, events: seq<Event>)
    requires (forall p :: p in w.log ==> ValidSnapshot(p.objs)) && Live(w, max, events).Some?
    ensures forall p :: p in Live(w, max, events).value.log ==> ValidSnapshot(p.objs)
    decreases |events|
  {
    if events != [] {
      LogIsValid(max, After(w, max, events[0]), events[1..]);
    }
  }

  lemma ReachableWellKeyed(max: nat, w: World)
    requires Reachable(max, w)
    ensures WellKeyed(Shared(w))
  {
    var events :| Live(Boot, max, events) == Some(w);
    LogIsValid(max, Boot, events);
    forall k | k in Shared(w) ensures Key(Shared(w)[k].vmi) == k && '/' !in Shared(w)[k].vmi.namespace {
      Provenance(max, w, k);
    }
  }
}
