/** One poll as a concurrent system: a dispatcher that ranges over the nodes in any
    order, one worker goroutine per node with a handler, a counting semaphore, a wait
    group, and a scrape that may list the cache between any two steps. */
module PollMachine {
  import opened Collections
  import opened VMStatsTypes
  import opened StatsCaches
  import opened Polls

  /** Where a worker is: in the fetch; storing, with keys of the reply still to range over;
      about to receive from the semaphore; about to call `wg.Done`; ended. */
  datatype Phase =
    | Fetching(podIP: string)
    | Storing(results: map<string, VMStatsResult>, todo: set<string>)
    | Releasing
    | Signalling
    | Ended

  datatype Worker = Worker(lookup: map<string, VMI>, phase: Phase)

  /** Where the dispatcher is: at the loop head; at `wg.Add`, at the send on the semaphore and
      at the `go` statement for one node; waiting; about to prune; done. */
  datatype Dispatcher =
    | Choosing
    | Adding(node: string, podIP: string, lookup: map<string, VMI>)
    | Acquiring(node: string, podIP: string, lookup: map<string, VMI>)
    | Spawning(node: string, podIP: string, lookup: map<string, VMI>)
    | Waiting
    | Pruning
    | Finished

  datatype State = State(
    cache: Cache,
    activeKeys: map<string, bool>,
    remaining: set<string>,
    dispatcher: Dispatcher,
    tokens: int,
    wg: int,
    workers: map<string, Worker>)

  datatype Action =
    | Pick(node: string) | AddToGroup | SendToken | Spawn | LeaveLoop | WaitReturns | Prune
    | FetchReturns(node: string) | HandleResult(node: string, key: string) | LeaveResults(node: string)
    | ReceiveToken(node: string) | Done(node: string)
    | List

  ghost function Start(inp: PollInput, cache: Cache): State {
    State(cache, map[], ScheduledNodes(inp.objs), Choosing, 0, 0, map[])
  }

  /** A send on a full channel, a receive from an empty one and a wait on a positive count block. */
  ghost predicate Enabled(s: State, max: nat, a: Action) {
    match a
    case Pick(n) => s.dispatcher.Choosing? && n in s.remaining
    case AddToGroup => s.dispatcher.Adding?
    case SendToken => s.dispatcher.Acquiring? && s.tokens < max
    case Spawn => s.dispatcher.Spawning?
    case LeaveLoop => s.dispatcher.Choosing? && s.remaining == {}
    case WaitReturns => s.dispatcher.Waiting? && s.wg == 0
    case Prune => s.dispatcher.Pruning?
    case FetchReturns(n) => n in s.workers && s.workers[n].phase.Fetching?
    case HandleResult(n, k) => n in s.workers && s.workers[n].phase.Storing? && k in s.workers[n].phase.todo
    case LeaveResults(n) => n in s.workers && s.workers[n].phase.Storing? && s.workers[n].phase.todo == {}
    case ReceiveToken(n) => n in s.workers && s.workers[n].phase.Releasing? && s.tokens > 0
    case Done(n) => n in s.workers && s.workers[n].phase.Signalling?
    case List => true
  }

  ghost function Move(s: State, node: string, phase: Phase): State
    requires node in s.workers
  {
    s.(workers := s.workers[node := s.workers[node].(phase := phase)])
  }

  ghost function Apply(inp: PollInput, s: State, max: nat, a: Action): State
    requires Enabled(s, max, a)
  {
    match a
    case Pick(n) =>
      var lookup := Lookup(GroupOf(inp.objs, n));
      var ip := HandlerIP(inp.pods(n), n);
      s.(remaining := s.remaining - {n},
         activeKeys := WithActive(s.activeKeys, lookup),
         dispatcher := if ip.None? then Choosing else Adding(n, ip.value, lookup))
    case AddToGroup =>
      s.(wg := s.wg + 1, dispatcher := Acquiring(s.dispatcher.node, s.dispatcher.podIP, s.dispatcher.lookup))
    case SendToken =>
      s.(tokens := s.tokens + 1, dispatcher := Spawning(s.dispatcher.node, s.dispatcher.podIP, s.dispatcher.lookup))
    case Spawn =>
      s.(workers := s.workers[s.dispatcher.node := Worker(s.dispatcher.lookup, Fetching(s.dispatcher.podIP))],
         dispatcher := Choosing)
    case LeaveLoop => s.(dispatcher := Waiting)
    case WaitReturns => s.(dispatcher := Pruning)
    case Prune => s.(cache := Pruned(s.cache, s.activeKeys), dispatcher := Finished)
    case FetchReturns(n) =>
      (match inp.reply(n, s.workers[n].phase.podIP)
       case Failed => Move(s, n, Releasing)
       case Replied(results) => Move(s, n, Storing(results, results.Keys)))
    case HandleResult(n, k) =>
      var w := s.workers[n];
      Move(s, n, w.phase.(todo := w.phase.todo - {k}))
        .(cache := HandleKey(s.cache, w.phase.results, w.lookup, k))
    case LeaveResults(n) => Move(s, n, Releasing)
    case ReceiveToken(n) => Move(s, n, Signalling).(tokens := s.tokens - 1)
    case Done(n) => Move(s, n, Ended).(wg := s.wg - 1)
    case List => s
  }

  /** Runs a schedule; `None` when it asks for a step that is blocked or absent. */
  ghost function Run(inp: PollInput, s: State, max: nat, acts: seq<Action>): Option<State>
    decreases |acts|
  {
    if acts == [] then Some(s)
    else if Enabled(s, max, acts[0]) then Run(inp, Apply(inp, s, max, acts[0]), max, acts[1..])
    else None
  }

  /** Some schedule of a poll that begins with cache `cache0` leads to `s`. */
  ghost predicate Reaches(inp: PollInput, cache0: Cache, max: nat, s: State) {
    exists acts :: Run(inp, Start(inp, cache0), max, acts) == Some(s)
  }

  // --- The invariant, in three parts ---

  ghost predicate WorkerOk(inp: PollInput, node: string, w: Worker) {
    && node in ScheduledNodes(inp.objs)
    && HandlerIP(inp.pods(node), node).Some?
    && w.lookup == Lookup(GroupOf(inp.objs, node))
    && (w.phase.Fetching? ==> HandlerIP(inp.pods(node), node) == Some(w.phase.podIP))
    && (w.phase.Storing? ==>
          var ip := HandlerIP(inp.pods(node), node).value;
          inp.reply(node, ip) == Replied(w.phase.results) && w.phase.todo <= w.phase.results.Keys)
  }

  ghost predicate Pending(s: State) {
    s.dispatcher.Adding? || s.dispatcher.Acquiring? || s.dispatcher.Spawning?
  }

  /** Each dispatched node is a node of the listing and, when it has a handler, a worker's or the pending one. */
  ghost predicate Dispatch(inp: PollInput, s: State) {
    && s.remaining <= ScheduledNodes(inp.objs)
    && (forall n :: n in s.workers ==> n !in s.remaining && WorkerOk(inp, n, s.workers[n]))
    && (Pending(s) ==>
          && s.dispatcher.node !in s.remaining && s.dispatcher.node !in s.workers
          && WorkerOk(inp, s.dispatcher.node, Worker(s.dispatcher.lookup, Fetching(s.dispatcher.podIP))))
    && (forall n :: n in ScheduledNodes(inp.objs) - s.remaining && HandlerIP(inp.pods(n), n).Some? ==>
          n in s.workers || (Pending(s) && n == s.dispatcher.node))
    && (s.dispatcher.Waiting? || s.dispatcher.Pruning? || s.dispatcher.Finished? ==> s.remaining == {})
    && ActiveOn(s.activeKeys, inp, ScheduledNodes(inp.objs) - s.remaining)
  }

  /** The workers that hold a semaphore slot. */
  ghost function Holding(workers: map<string, Worker>): set<string> {
    set n | n in workers && HoldsSlot(workers[n].phase)
  }

  ghost predicate HoldsSlot(p: Phase) {
    p.Fetching? || p.Storing? || p.Releasing?
  }

  ghost function Unfinished(workers: map<string, Worker>): set<string> {
    set n | n in workers && !workers[n].phase.Ended?
  }

  /** Tokens are the slots taken and not given back, never more than the limit; the wait group
      counts the workers that have not ended and the one about to be spawned. */
  ghost predicate Counts(s: State, max: nat) {
    && s.tokens == |Holding(s.workers)| + (if s.dispatcher.Spawning? then 1 else 0)
    && s.tokens <= max
    && s.wg == |Unfinished(s.workers)| + (if s.dispatcher.Acquiring? || s.dispatcher.Spawning? then 1 else 0)
    && (s.dispatcher.Pruning? || s.dispatcher.Finished? ==> Unfinished(s.workers) == {})
  }

  /** The worker has done with key k. */
  ghost predicate PastKey(p: Phase, k: string) {
    !p.Fetching? && (p.Storing? ==> k !in p.todo)
  }

  /** The worker of key k's node has done with it. */
  ghost predicate Handled(inp: PollInput, workers: map<string, Worker>, k: string) {
    var v := VMIForKey(inp.objs, k);
    v.Some? && v.value.node in workers && PastKey(workers[v.value.node].phase, k)
  }

  ghost function EntryNow(inp: PollInput, cache0: Cache, workers: map<string, Worker>, k: string): Option<CachedStats> {
    if Handled(inp, workers, k) && Fresh(inp, k).Some? then Fresh(inp, k) else Get(cache0, k)
  }

  ghost predicate Contents(inp: PollInput, cache0: Cache, s: State) {
    if s.dispatcher.Finished? then s.cache == PollSpec(cache0, inp)
    else forall k :: Get(s.cache, k) == EntryNow(inp, cache0, s.workers, k)
  }

  ghost predicate Inv(inp: PollInput, cache0: Cache, max: nat, s: State) {
    Dispatch(inp, s) && Counts(s, max) && Contents(inp, cache0, s)
  }

  lemma StartInv(inp: PollInput, cache0: Cache, max: nat)
    requires ValidSnapshot(inp.objs) && !Skips(inp)
    ensures Inv(inp, cache0, max, Start(inp, cache0))
  {
    var s := Start(inp, cache0);
    assert Holding(s.workers) == {} && Unfinished(s.workers) == {};
    assert ScheduledNodes(inp.objs) - s.remaining == {};
  }

  ghost predicate WorkerAction(a: Action) {
    a.FetchReturns? || a.HandleResult? || a.LeaveResults? || a.ReceiveToken? || a.Done?
  }

  /** A worker's step changes the phase of that worker, and the dispatcher's data not at all. */
  lemma WorkerMoves(inp: PollInput, s: State, max: nat, a: Action)
    requires WorkerAction(a) && Enabled(s, max, a)
    ensures var s' := Apply(inp, s, max, a);
      && s' == Move(s, a.node, s'.workers[a.node].phase).(cache := s'.cache, tokens := s'.tokens, wg := s'.wg)
      && (!a.HandleResult? ==> s'.cache == s.cache)
  {
  }

  lemma DispatchStep(inp: PollInput, s: State, max: nat, a: Action)
    requires ValidSnapshot(inp.objs) && Dispatch(inp, s) && Enabled(s, max, a)
    ensures Dispatch(inp, Apply(inp, s, max, a))
  {
    if a.Pick? {
      DispatchPick(inp, s, max, a);
    } else if WorkerAction(a) {
      DispatchWorker(inp, s, max, a);
    } else {
      DispatchOther(inp, s, max, a);
    }
  }

  lemma DispatchPick(inp: PollInput, s: State, max: nat, a: Action)
    requires ValidSnapshot(inp.objs) && Dispatch(inp, s) && Enabled(s, max, a) && a.Pick?
    ensures Dispatch(inp, Apply(inp, s, max, a))
  {
    var s' := Apply(inp, s, max, a);
    var done := ScheduledNodes(inp.objs) - s.remaining;
    assert ScheduledNodes(inp.objs) - s'.remaining == done + {a.node};
    ActiveGrows(s.activeKeys, inp, done, a.node);
  }

  lemma DispatchWorker(inp: PollInput, s: State, max: nat, a: Action)
    requires Dispatch(inp, s) && Enabled(s, max, a) && WorkerAction(a)
    ensures Dispatch(inp, Apply(inp, s, max, a))
  {
    var s' := Apply(inp, s, max, a);
    WorkerMoves(inp, s, max, a);
    assert WorkerOk(inp, a.node, s.workers[a.node]);
    assert WorkerOk(inp, a.node, s'.workers[a.node]);
    assert Pending(s') == Pending(s);
  }

  lemma DispatchOther(inp: PollInput, s: State, max: nat, a: Action)
    requires Dispatch(inp, s) && Enabled(s, max, a) && !WorkerAction(a) && !a.Pick?
    ensures Dispatch(inp, Apply(inp, s, max, a))
  {
    if a.Spawn? {
      DispatchSpawn(inp, s, max);
    } else {
      DispatchIdle(inp, s, max, a);
    }
  }

  lemma DispatchSpawn(inp: PollInput, s: State, max: nat)
    requires Dispatch(inp, s) && Enabled(s, max, Spawn)
    ensures Dispatch(inp, Apply(inp, s, max, Spawn))
  {
    var d := s.dispatcher;
    Spawned(inp, s, d.node, Worker(d.lookup, Fetching(d.podIP)));
  }

  /** The pending node's worker joins the others. */
  lemma Spawned(inp: PollInput, s: State, node: string, w: Worker)
    requires Dispatch(inp, s) && Pending(s) && s.dispatcher.node == node && WorkerOk(inp, node, w)
    ensures Dispatch(inp, s.(workers := s.workers[node := w], dispatcher := Choosing))
  {
  }

  lemma DispatchIdle(inp: PollInput, s: State, max: nat, a: Action)
    requires Dispatch(inp, s) && Enabled(s, max, a) && !WorkerAction(a) && !a.Pick? && !a.Spawn?
    ensures Dispatch(inp, Apply(inp, s, max, a))
  {
    var s' := Apply(inp, s, max, a);
    if a.AddToGroup? || a.SendToken? {
      Passed(inp, s, s');
    } else {
      assert !Pending(s) || s'.dispatcher == s.dispatcher;
      Left(inp, s, s');
    }
  }

  ghost predicate SameDispatch(s: State, s': State) {
    s'.remaining == s.remaining && s'.activeKeys == s.activeKeys && s'.workers == s.workers
  }

  /** The pending node moves on to its next statement. */
  lemma Passed(inp: PollInput, s: State, s': State)
    requires Dispatch(inp, s) && SameDispatch(s, s') && Pending(s) && Pending(s')
    requires s'.dispatcher.node == s.dispatcher.node && s'.dispatcher.podIP == s.dispatcher.podIP
      && s'.dispatcher.lookup == s.dispatcher.lookup
    ensures Dispatch(inp, s')
  {
  }

  /** With no node pending the dispatcher goes on, and leaves the loop only when no node remains. */
  lemma Left(inp: PollInput, s: State, s': State)
    requires Dispatch(inp, s) && SameDispatch(s, s')
    requires s'.dispatcher == s.dispatcher || (!Pending(s) && !Pending(s') && s.remaining == {})
    ensures Dispatch(inp, s')
  {
  }

  lemma CountsStep(inp: PollInput, s: State, max: nat, a: Action)
    requires Pending(s) ==> s.dispatcher.node !in s.workers
    requires Counts(s, max) && Enabled(s, max, a)
    ensures Counts(Apply(inp, s, max, a), max)
  {
    if WorkerAction(a) {
      CountsWorker(inp, s, max, a);
    } else {
      CountsDispatcher(inp, s, max, a);
    }
  }

  lemma CountsDispatcher(inp: PollInput, s: State, max: nat, a: Action)
    requires Pending(s) ==> s.dispatcher.node !in s.workers
    requires Counts(s, max) && Enabled(s, max, a) && !WorkerAction(a)
    ensures Counts(Apply(inp, s, max, a), max)
  {
    var s' := Apply(inp, s, max, a);
    if a.Spawn? {
      assert Holding(s'.workers) == Holding(s.workers) + {s.dispatcher.node};
      assert Unfinished(s'.workers) == Unfinished(s.workers) + {s.dispatcher.node};
    } else {
      assert s'.workers == s.workers;
    }
  }

  lemma CountsWorker(inp: PollInput, s: State, max: nat, a: Action)
    requires Counts(s, max) && Enabled(s, max, a) && WorkerAction(a)
    ensures Counts(Apply(inp, s, max, a), max)
  {
    WorkerMoves(inp, s, max, a);
    MoveCounts(s.workers, a.node, Apply(inp, s, max, a).workers[a.node]);
  }

  lemma MoveCounts(workers: map<string, Worker>, n: string, w: Worker)
    requires n in workers
    ensures |Holding(workers[n := w])| + (if HoldsSlot(workers[n].phase) then 1 else 0)
         == |Holding(workers)| + (if HoldsSlot(w.phase) then 1 else 0)
    ensures |Unfinished(workers[n := w])| + (if workers[n].phase.Ended? then 0 else 1)
         == |Unfinished(workers)| + (if w.phase.Ended? then 0 else 1)
    ensures Unfinished(workers) == {} && w.phase.Ended? ==> Unfinished(workers[n := w]) == {}
  {
    MoveHolding(workers, n, w);
    MoveUnfinished(workers, n, w);
  }

  lemma MoveHolding(workers: map<string, Worker>, n: string, w: Worker)
    requires n in workers
    ensures |Holding(workers[n := w])| + (if HoldsSlot(workers[n].phase) then 1 else 0)
         == |Holding(workers)| + (if HoldsSlot(w.phase) then 1 else 0)
  {
    var h, h' := Holding(workers), Holding(workers[n := w]);
    SetWithout(h, n);
    SetWithout(h', n);
    assert h' - {n} == h - {n};
  }

  lemma MoveUnfinished(workers: map<string, Worker>, n: string, w: Worker)
    requires n in workers
    ensures |Unfinished(workers[n := w])| + (if workers[n].phase.Ended? then 0 else 1)
         == |Unfinished(workers)| + (if w.phase.Ended? then 0 else 1)
    ensures Unfinished(workers) == {} && w.phase.Ended? ==> Unfinished(workers[n := w]) == {}
  {
    var u, u' := Unfinished(workers), Unfinished(workers[n := w]);
    SetWithout(u, n);
    SetWithout(u', n);
    assert u' - {n} == u - {n};
  }

  lemma SetWithout(s: set<string>, n: string)
    ensures |s| == |s - {n}| + (if n in s then 1 else 0)
  {
    if n !in s { assert s - {n} == s; }
  }

  lemma ContentsStep(inp: PollInput, cache0: Cache, s: State, max: nat, a: Action)
    requires ValidSnapshot(inp.objs) && !Skips(inp) && Inv(inp, cache0, max, s) && Enabled(s, max, a)
    ensures Contents(inp, cache0, Apply(inp, s, max, a))
  {
    if a.Prune? {
      PruneStep(inp, cache0, s, max);
    } else if s.dispatcher.Finished? {
      NoWorkAfterJoin(s, max, a);
    } else {
      var s' := Apply(inp, s, max, a);
      forall k ensures Get(s'.cache, k) == EntryNow(inp, cache0, s'.workers, k) {
        EntryStep(inp, cache0, s, max, a, k);
      }
    }
  }

  lemma EntryStep(inp: PollInput, cache0: Cache, s: State, max: nat, a: Action, k: string)
    requires ValidSnapshot(inp.objs) && Dispatch(inp, s) && Enabled(s, max, a) && !a.Prune?
    requires Get(s.cache, k) == EntryNow(inp, cache0, s.workers, k)
    ensures var s' := Apply(inp, s, max, a); Get(s'.cache, k) == EntryNow(inp, cache0, s'.workers, k)
  {
    if WorkerAction(a) {
      WorkerMoves(inp, s, max, a);
      if a.HandleResult? {
        HandleKeeps(inp, cache0, s, max, a.node, a.key, k);
      } else {
        EntryWorker(inp, cache0, s, max, a, k);
      }
    } else {
      EntryDispatcher(inp, cache0, s, max, a, k);
    }
  }

  lemma EntryWorker(inp: PollInput, cache0: Cache, s: State, max: nat, a: Action, k: string)
    requires ValidSnapshot(inp.objs) && Dispatch(inp, s) && Enabled(s, max, a) && WorkerAction(a) && !a.HandleResult?
    ensures EntryNow(inp, cache0, Apply(inp, s, max, a).workers, k) == EntryNow(inp, cache0, s.workers, k)
  {
    var w' := Apply(inp, s, max, a).workers[a.node];
    WorkerMoves(inp, s, max, a);
    if a.FetchReturns? { FetchKeeps(inp, s, max, a.node, k); } else { StillPast(inp, s, max, a, k); }
    EntryMoved(inp, cache0, s.workers, a.node, w', k);
  }

  /** Only returning from the fetch and handling a key change whether a worker is past a key. */
  lemma StillPast(inp: PollInput, s: State, max: nat, a: Action, k: string)
    requires Enabled(s, max, a) && (a.LeaveResults? || a.ReceiveToken? || a.Done?)
    ensures PastKey(s.workers[a.node].phase, k) == PastKey(Apply(inp, s, max, a).workers[a.node].phase, k)
  {
  }

  lemma EntryDispatcher(inp: PollInput, cache0: Cache, s: State, max: nat, a: Action, k: string)
    requires Enabled(s, max, a) && !WorkerAction(a) && !a.Prune?
    requires Pending(s) ==> s.dispatcher.node !in s.workers
    ensures Apply(inp, s, max, a).cache == s.cache
    ensures EntryNow(inp, cache0, Apply(inp, s, max, a).workers, k) == EntryNow(inp, cache0, s.workers, k)
  {
    if !a.Spawn? { assert Apply(inp, s, max, a).workers == s.workers; }
  }

  /** A worker's move leaves key k's entry as it was unless it takes the worker past a key with a fresh entry. */
  lemma EntryMoved(inp: PollInput, cache0: Cache, workers: map<string, Worker>, n: string, w: Worker, k: string)
    requires n in workers
    requires PastKey(workers[n].phase, k) == PastKey(w.phase, k) || !KeyOnNodes(inp, {n}, k) || Fresh(inp, k).None?
    ensures EntryNow(inp, cache0, workers[n := w], k) == EntryNow(inp, cache0, workers, k)
  {
  }

  /** Returning from the fetch: a key that becomes handled has no fresh entry. */
  lemma FetchKeeps(inp: PollInput, s: State, max: nat, n: string, k: string)
    requires ValidSnapshot(inp.objs) && Dispatch(inp, s) && Enabled(s, max, FetchReturns(n))
    ensures PastKey(Apply(inp, s, max, FetchReturns(n)).workers[n].phase, k) && KeyOnNodes(inp, {n}, k) ==> Fresh(inp, k).None?
  {
    var w := s.workers[n];
    assert WorkerOk(inp, n, w);
    if KeyOnNodes(inp, {n}, k) {
      match inp.reply(n, w.phase.podIP)
      case Failed => NoReplyNoFresh(inp, n, k);
      case Replied(results) => WorkerFetchesFresh(inp, n, w.phase.podIP, results, k);
    }
  }

  /** Handling key j: exactly the entry of j changes, to its fresh value if it has one. */
  lemma HandleKeeps(inp: PollInput, cache0: Cache, s: State, max: nat, n: string, j: string, k: string)
    requires ValidSnapshot(inp.objs) && Dispatch(inp, s) && Enabled(s, max, HandleResult(n, j))
    requires Get(s.cache, k) == EntryNow(inp, cache0, s.workers, k)
    ensures var s' := Apply(inp, s, max, HandleResult(n, j));
      Get(s'.cache, k) == EntryNow(inp, cache0, s'.workers, k)
  {
    var w := s.workers[n];
    assert WorkerOk(inp, n, w);
    WorkerFetchesFresh(inp, n, HandlerIP(inp.pods(n), n).value, w.phase.results, j);
    HandledEntry(inp, cache0, s.cache, s.workers, n, j, k);
  }

  lemma HandledEntry(inp: PollInput, cache0: Cache, cache: Cache, workers: map<string, Worker>, n: string, j: string, k: string)
    requires n in workers && workers[n].phase.Storing? && j in workers[n].phase.todo
    requires StoredFor(workers[n].phase.results, workers[n].lookup, j) == (if KeyOnNodes(inp, {n}, j) then Fresh(inp, j) else None)
    requires Get(cache, k) == EntryNow(inp, cache0, workers, k)
    ensures var w := workers[n];
      Get(HandleKey(cache, w.phase.results, w.lookup, j), k)
      == EntryNow(inp, cache0, workers[n := w.(phase := w.phase.(todo := w.phase.todo - {j}))], k)
  {
  }

  /** After the join every worker has ended, so only a scrape can still take a step. */
  lemma NoWorkAfterJoin(s: State, max: nat, a: Action)
    requires Counts(s, max) && Enabled(s, max, a)
    requires s.dispatcher.Pruning? || s.dispatcher.Finished?
    ensures a.List? || (a.Prune? && s.dispatcher.Pruning?)
    ensures s.tokens == 0 && s.wg == 0
  {
    assert forall n :: n in s.workers ==> n !in Unfinished(s.workers);
    assert Holding(s.workers) == {} by {
      assert forall n :: n in Holding(s.workers) ==> n in Unfinished(s.workers);
    }
  }

  lemma PruneStep(inp: PollInput, cache0: Cache, s: State, max: nat)
    requires ValidSnapshot(inp.objs) && !Skips(inp) && Inv(inp, cache0, max, s) && s.dispatcher.Pruning?
    ensures Pruned(s.cache, s.activeKeys) == PollSpec(cache0, inp)
  {
    var nodes := ScheduledNodes(inp.objs);
    assert nodes - s.remaining == nodes;
    forall k ensures Get(s.cache, k) == EntryAfter(cache0, inp, nodes, k) {
      assert Get(s.cache, k) == EntryNow(inp, cache0, s.workers, k);
      AllHandled(inp, s, max, k);
    }
    PrunedIsSpec(cache0, inp, s.cache, s.activeKeys);
  }

  /** After the join, a key with a fresh entry has been handled. */
  lemma AllHandled(inp: PollInput, s: State, max: nat, k: string)
    requires Dispatch(inp, s) && Counts(s, max) && s.dispatcher.Pruning?
    ensures Fresh(inp, k).Some? ==> Handled(inp, s.workers, k) && KeyOnNodes(inp, ScheduledNodes(inp.objs), k)
  {
    if Fresh(inp, k).Some? {
      var n := VMIForKey(inp.objs, k).value.node;
      VMIForKeyNode(inp.objs, k);
      assert n in s.workers;
      assert n !in Unfinished(s.workers);
    }
  }

  lemma InvStep(inp: PollInput, cache0: Cache, s: State, max: nat, a: Action)
    requires ValidSnapshot(inp.objs) && !Skips(inp) && Inv(inp, cache0, max, s) && Enabled(s, max, a)
    ensures Inv(inp, cache0, max, Apply(inp, s, max, a))
  {
    DispatchStep(inp, s, max, a);
    CountsStep(inp, s, max, a);
    ContentsStep(inp, cache0, s, max, a);
  }

  lemma {:induction false} InvRun(inp: PollInput, cache0: Cache, s: State, max: nat, acts: seq<Action>)
    requires ValidSnapshot(inp.objs) && !Skips(inp) && Inv(inp, cache0, max, s)
    requires Run(inp, s, max, acts).Some?
    ensures Inv(inp, cache0, max, Run(inp, s, max, acts).value)
    decreases |acts|
  {
    if acts != [] {
      InvStep(inp, cache0, s, max, acts[0]);
      InvRun(inp, cache0, Apply(inp, s, max, acts[0]), max, acts[1..]);
    }
  }

  lemma ReachedInv(inp: PollInput, cache0: Cache, max: nat, s: State)
    requires ValidSnapshot(inp.objs) && !Skips(inp) && Reaches(inp, cache0, max, s)
    ensures Inv(inp, cache0, max, s)
  {
    var acts :| Run(inp, Start(inp, cache0), max, acts) == Some(s);
    StartInv(inp, cache0, max);
    InvRun(inp, cache0, Start(inp, cache0), max, acts);
  }

  // --- What holds of every schedule ---

  /** Every schedule that reaches the end of the poll leaves the cache of the sequential meaning. */
  lemma ConcurrentPollRefinesSpec(inp: PollInput, cache0: Cache, max: nat, s: State)
    requires ValidSnapshot(inp.objs) && !Skips(inp)
    requires Reaches(inp, cache0, max, s) && s.dispatcher.Finished?
    ensures s.cache == PollSpec(cache0, inp)
  {
    ReachedInv(inp, cache0, max, s);
  }

  /** The semaphore holds one token for each slot taken and not given back, within its limit, and no
      worker finds it empty; the wait group counts the workers still to end and the one being
      spawned; and once the wait has returned no worker can store any more. */
  ghost predicate Synchronised(s: State, max: nat) {
    && s.tokens == |Holding(s.workers)| + (if s.dispatcher.Spawning? then 1 else 0) <= max
    && s.wg == |Unfinished(s.workers)| + (if s.dispatcher.Acquiring? || s.dispatcher.Spawning? then 1 else 0)
    && (forall n :: n in s.workers && s.workers[n].phase.Releasing? ==> s.tokens > 0)
    && (forall n :: n in s.workers && s.workers[n].phase.Signalling? ==> s.wg > 0)
    && (s.dispatcher.Pruning? || s.dispatcher.Finished? ==>
          s.tokens == 0 && s.wg == 0 && forall n :: n in s.workers ==> s.workers[n].phase.Ended?)
  }

  /** The semaphore and the wait group count what they should at every step of every schedule. */
  lemma Synchronisation(inp: PollInput, cache0: Cache, max: nat, s: State)
    requires ValidSnapshot(inp.objs) && !Skips(inp)
    requires Reaches(inp, cache0, max, s)
    ensures Synchronised(s, max)
  {
    ReachedInv(inp, cache0, max, s);
    CountsMean(s, max);
  }

  lemma CountsMean(s: State, max: nat)
    requires Counts(s, max)
    ensures Synchronised(s, max)
  {
    forall n | n in s.workers
      ensures s.workers[n].phase.Releasing? ==> s.tokens > 0
      ensures s.workers[n].phase.Signalling? ==> s.wg > 0
    {
      if s.workers[n].phase.Releasing? { assert n in Holding(s.workers); }
      if s.workers[n].phase.Signalling? { assert n in Unfinished(s.workers); }
    }
    if s.dispatcher.Pruning? || s.dispatcher.Finished? {
      NoWorkAfterJoin(s, max, List);
      assert forall n :: n in s.workers ==> n !in Unfinished(s.workers);
    }
  }

  /** What a scrape sees in the middle of a poll: each key has the entry of the cache before the poll
      or the one this poll fetches, and an entry of a scheduled key is never missing meanwhile. */
  lemma ScrapeSeesOldOrFresh(inp: PollInput, cache0: Cache, max: nat, s: State, k: string)
    requires Inv(inp, cache0, max, s)
    ensures k in s.cache ==> Some(s.cache[k]) == Get(cache0, k) || Some(s.cache[k]) == Fresh(inp, k)
    ensures k in cache0 && (Schedules(inp, k) || Skips(inp)) ==> k in s.cache
    ensures s.dispatcher.Finished? && !Skips(inp) && k in s.cache ==> Schedules(inp, k)
  {
    PollSpecAt(cache0, inp, k);
    if !s.dispatcher.Finished? {
      assert Get(s.cache, k) == EntryNow(inp, cache0, s.workers, k);
    }
    assert k in s.cache <==> Get(s.cache, k).Some?;
    assert k in cache0 <==> Get(cache0, k).Some?;
  }
}
