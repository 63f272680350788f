/** A poll never deadlocks and always ends: some step is enabled until the poll is over,
    and every step but a scrape lowers a natural number. */
module PollLiveness {
  import opened Collections
  import opened VMStatsTypes
  import opened Polls
  import opened PollMachine

  ghost function ReplySize(inp: PollInput, node: string): nat {
    var ip := HandlerIP(inp.pods(node), node);
    if ip.None? || inp.reply(node, ip.value).Failed? then 0 else |inp.reply(node, ip.value).results|
  }

  ghost function PhaseRank(p: Phase, size: nat): nat {
    match p
    case Fetching(_) => 5 + size
    case Storing(_, todo) => 3 + |todo|
    case Releasing => 2
    case Signalling => 1
    case Ended => 0
  }

  /** The steps still to be taken for one node. */
  ghost function NodeRank(s: State, node: string, size: nat): nat {
    if node in s.remaining then 9 + size
    else if Pending(s) && s.dispatcher.node == node then
      (if s.dispatcher.Adding? then 8 else if s.dispatcher.Acquiring? then 7 else 6) + size
    else if node in s.workers then PhaseRank(s.workers[node].phase, size)
    else 0
  }

  ghost function Ranks(inp: PollInput, s: State): map<string, nat> {
    map n | n in ScheduledNodes(inp.objs) :: NodeRank(s, n, ReplySize(inp, n))
  }

  ghost function TailRank(d: Dispatcher): nat {
    match d
    case Waiting => 2
    case Pruning => 1
    case Finished => 0
    case _ => 3
  }

  ghost function Measure(inp: PollInput, s: State): nat {
    Sum(Ranks(inp, s)) + TailRank(s.dispatcher)
  }

  /** The one node whose rank the action lowers, if it is not the dispatcher's tail that falls. */
  ghost function NodeOf(s: State, a: Action): Option<string> {
    match a
    case Pick(n) => Some(n)
    case AddToGroup => if Pending(s) then Some(s.dispatcher.node) else None
    case SendToken => if Pending(s) then Some(s.dispatcher.node) else None
    case Spawn => if Pending(s) then Some(s.dispatcher.node) else None
    case FetchReturns(n) => Some(n)
    case HandleResult(n, _) => Some(n)
    case LeaveResults(n) => Some(n)
    case ReceiveToken(n) => Some(n)
    case Done(n) => Some(n)
    case _ => None
  }

  lemma FetchRankFalls(inp: PollInput, s: State, max: nat, n: string)
    requires Enabled(s, max, FetchReturns(n)) && WorkerOk(inp, n, s.workers[n])
    ensures PhaseRank(Apply(inp, s, max, FetchReturns(n)).workers[n].phase, ReplySize(inp, n))
          < PhaseRank(s.workers[n].phase, ReplySize(inp, n))
  {
    match inp.reply(n, s.workers[n].phase.podIP)
    case Failed =>
    case Replied(results) => assert |results.Keys| == |results|;
  }

  lemma LaterRankFalls(inp: PollInput, s: State, max: nat, a: Action, size: nat)
    requires Enabled(s, max, a) && WorkerAction(a) && !a.FetchReturns?
    ensures PhaseRank(Apply(inp, s, max, a).workers[a.node].phase, size) < PhaseRank(s.workers[a.node].phase, size)
  {
    if a.HandleResult? {
      var todo := s.workers[a.node].phase.todo;
      assert |todo - {a.key}| == |todo| - 1;
    }
  }

  lemma WorkerRankFalls(inp: PollInput, s: State, max: nat, a: Action)
    requires Enabled(s, max, a) && WorkerAction(a) && WorkerOk(inp, a.node, s.workers[a.node])
    ensures PhaseRank(Apply(inp, s, max, a).workers[a.node].phase, ReplySize(inp, a.node))
          < PhaseRank(s.workers[a.node].phase, ReplySize(inp, a.node))
  {
    if a.FetchReturns? {
      FetchRankFalls(inp, s, max, a.node);
    } else {
      LaterRankFalls(inp, s, max, a, ReplySize(inp, a.node));
    }
  }

  lemma DispatcherRankFalls(inp: PollInput, s: State, max: nat, a: Action, n: string, size: nat)
    requires Dispatch(inp, s) && Enabled(s, max, a) && NodeOf(s, a) == Some(n) && !WorkerAction(a)
    ensures NodeRank(Apply(inp, s, max, a), n, size) < NodeRank(s, n, size)
    ensures TailRank(Apply(inp, s, max, a).dispatcher) == TailRank(s.dispatcher)
  {
  }

  lemma RankFalls(inp: PollInput, s: State, max: nat, a: Action, n: string)
    requires Dispatch(inp, s) && Enabled(s, max, a) && NodeOf(s, a) == Some(n)
    ensures NodeRank(Apply(inp, s, max, a), n, ReplySize(inp, n)) < NodeRank(s, n, ReplySize(inp, n))
    ensures TailRank(Apply(inp, s, max, a).dispatcher) == TailRank(s.dispatcher)
  {
    if WorkerAction(a) {
      WorkerMoves(inp, s, max, a);
      assert WorkerOk(inp, n, s.workers[n]);
      WorkerRankFalls(inp, s, max, a);
    } else {
      DispatcherRankFalls(inp, s, max, a, n, ReplySize(inp, n));
    }
  }

  lemma NodeIsScheduled(inp: PollInput, s: State, max: nat, a: Action, n: string)
    requires Dispatch(inp, s) && Enabled(s, max, a) && NodeOf(s, a) == Some(n)
    ensures n in ScheduledNodes(inp.objs)
  {
    if WorkerAction(a) { assert WorkerOk(inp, n, s.workers[n]); }
  }

  lemma RankKept(inp: PollInput, s: State, max: nat, a: Action, m: string, size: nat)
    requires Dispatch(inp, s) && Enabled(s, max, a) && NodeOf(s, a) != Some(m)
    ensures NodeRank(Apply(inp, s, max, a), m, size) == NodeRank(s, m, size)
  {
    if WorkerAction(a) {
      WorkerMoves(inp, s, max, a);
    }
  }

  lemma MeasureFalls(inp: PollInput, s: State, max: nat, a: Action)
    requires Dispatch(inp, s) && Enabled(s, max, a) && !a.List?
    ensures Measure(inp, Apply(inp, s, max, a)) < Measure(inp, s)
  {
    if NodeOf(s, a).Some? {
      OneRankFalls(inp, s, max, a);
      SumChanged(Ranks(inp, s), Ranks(inp, Apply(inp, s, max, a)), NodeOf(s, a).value);
    } else {
      OtherRanksKept(inp, s, max, a);
      assert Ranks(inp, Apply(inp, s, max, a)) == Ranks(inp, s);
    }
  }

  lemma OtherRanksKept(inp: PollInput, s: State, max: nat, a: Action)
    requires Dispatch(inp, s) && Enabled(s, max, a)
    ensures var r, r' := Ranks(inp, s), Ranks(inp, Apply(inp, s, max, a));
      r'.Keys == r.Keys && forall m :: m in r && NodeOf(s, a) != Some(m) ==> r'[m] == r[m]
  {
    forall m | NodeOf(s, a) != Some(m)
      ensures NodeRank(Apply(inp, s, max, a), m, ReplySize(inp, m)) == NodeRank(s, m, ReplySize(inp, m))
    {
      RankKept(inp, s, max, a, m, ReplySize(inp, m));
    }
  }

  lemma OneRankFalls(inp: PollInput, s: State, max: nat, a: Action)
    requires Dispatch(inp, s) && Enabled(s, max, a) && NodeOf(s, a).Some?
    ensures var n, r, r' := NodeOf(s, a).value, Ranks(inp, s), Ranks(inp, Apply(inp, s, max, a));
      n in r && n in r' && r'[n] < r[n] && r' - {n} == r - {n}
    ensures TailRank(Apply(inp, s, max, a).dispatcher) == TailRank(s.dispatcher)
  {
    var n := NodeOf(s, a).value;
    NodeIsScheduled(inp, s, max, a, n);
    RankFalls(inp, s, max, a, n);
    OtherRanksKept(inp, s, max, a);
  }

  ghost function WorkSteps(acts: seq<Action>): nat {
    if acts == [] then 0 else (if acts[0].List? then 0 else 1) + WorkSteps(acts[1..])
  }

  /** Any schedule from s takes at most `Measure(s)` steps besides scrapes. */
  lemma {:induction false} PollTerminates(inp: PollInput, cache0: Cache, s: State, max: nat, acts: seq<Action>)
    requires ValidSnapshot(inp.objs) && !Skips(inp) && Inv(inp, cache0, max, s)
    requires Run(inp, s, max, acts).Some?
    ensures WorkSteps(acts) + Measure(inp, Run(inp, s, max, acts).value) <= Measure(inp, s)
    decreases |acts|
  {
    if acts != [] {
      var s1 := Apply(inp, s, max, acts[0]);
      InvStep(inp, cache0, s, max, acts[0]);
      PollTerminates(inp, cache0, s1, max, acts[1..]);
      if acts[0].List? {
        assert s1 == s;
      } else {
        MeasureFalls(inp, s, max, acts[0]);
      }
    }
  }

  /** A worker that has not ended always has a step, whatever the others do. */
  lemma WorkerHasStep(s: State, max: nat, n: string) returns (a: Action)
    requires Counts(s, max) && n in s.workers && !s.workers[n].phase.Ended?
    ensures Enabled(s, max, a) && !a.List?
  {
    match s.workers[n].phase
    case Fetching(_) => a := FetchReturns(n);
    case Storing(_, todo) =>
      if todo == {} {
        a := LeaveResults(n);
      } else {
        var k :| k in todo;
        a := HandleResult(n, k);
      }
    case Releasing =>
      CountsMean(s, max);
      a := ReceiveToken(n);
    case Signalling => a := Done(n);
  }

  lemma NextStep(inp: PollInput, cache0: Cache, s: State, max: nat) returns (a: Action)
    requires max >= 1 && Inv(inp, cache0, max, s) && !s.dispatcher.Finished?
    ensures Enabled(s, max, a) && !a.List?
  {
    match s.dispatcher
    case Choosing =>
      if s.remaining == {} {
        a := LeaveLoop;
      } else {
        var n :| n in s.remaining;
        a := Pick(n);
      }
    case Adding(_, _, _) => a := AddToGroup;
    case Acquiring(_, _, _) =>
      if s.tokens < max {
        a := SendToken;
      } else {
        var n :| n in Holding(s.workers);
        a := WorkerHasStep(s, max, n);
      }
    case Spawning(_, _, _) => a := Spawn;
    case Waiting =>
      if s.wg == 0 {
        a := WaitReturns;
      } else {
        var n :| n in Unfinished(s.workers);
        a := WorkerHasStep(s, max, n);
      }
    case Pruning => a := Prune;
  }

  /** With room for at least one worker, a poll that is not over has a step to take. */
  lemma DeadlockFree(inp: PollInput, cache0: Cache, max: nat, s: State)
    requires ValidSnapshot(inp.objs) && !Skips(inp) && max >= 1
    requires Reaches(inp, cache0, max, s) && !s.dispatcher.Finished?
    ensures exists a :: Enabled(s, max, a) && !a.List?
  {
    ReachedInv(inp, cache0, max, s);
    var a := NextStep(inp, cache0, s, max);
  }

  /** A schedule of at most `bound` steps ends the poll. */
  ghost predicate CanFinish(inp: PollInput, s: State, max: nat, bound: nat) {
    exists acts :: |acts| <= bound && EndsPoll(inp, s, max, acts)
  }

  ghost predicate EndsPoll(inp: PollInput, s: State, max: nat, acts: seq<Action>) {
    Run(inp, s, max, acts).Some? && Run(inp, s, max, acts).value.dispatcher.Finished?
  }

  lemma StepFirst(inp: PollInput, s: State, max: nat, a: Action, bound: nat)
    requires Enabled(s, max, a) && CanFinish(inp, Apply(inp, s, max, a), max, bound)
    ensures CanFinish(inp, s, max, bound + 1)
  {
    var rest :| |rest| <= bound && EndsPoll(inp, Apply(inp, s, max, a), max, rest);
    var acts := [a] + rest;
    assert acts[0] == a && acts[1..] == rest;
    assert EndsPoll(inp, s, max, acts);
  }

  /** From any state of a poll a schedule leads to its end, in at most `Measure` steps. */
  lemma {:induction false} PollCanFinish(inp: PollInput, cache0: Cache, s: State, max: nat)
    requires ValidSnapshot(inp.objs) && !Skips(inp) && max >= 1 && Inv(inp, cache0, max, s)
    ensures CanFinish(inp, s, max, Measure(inp, s))
    decreases Measure(inp, s)
  {
    if s.dispatcher.Finished? {
      assert EndsPoll(inp, s, max, []);
    } else {
      var a := NextStep(inp, cache0, s, max);
      var s1 := Apply(inp, s, max, a);
      InvStep(inp, cache0, s, max, a);
      MeasureFalls(inp, s, max, a);
      PollCanFinish(inp, cache0, s1, max);
      StepFirst(inp, s, max, a, Measure(inp, s1));
    }
  }
}
