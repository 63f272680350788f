/** Convergence of the loop when left alone, with no further edits and no failures. A run is bounded by what
    is left to do and by its stale reads, those of an object whose events have not all arrived; and where
    it can go no further all owned objects are as desired; from everywhere a run leads there.
    `ControlLoopStaleness` is about what happens while no event arrives. */
module ControlLoopLiveness {
  import opened Collections
  import opened Resources
  import opened ControlLoop
  import Reconcilers

  /** The steps of an undisturbed run, on however old a cache. Events of other objects change nothing here. */
  ghost predicate Calm(cfg: Config, s: State, a: Action) {
    && Enabled(cfg, s, a)
    && match a
       case Deliver(key) => Enqueues(cfg, key)
       case Compress(key) => Enqueues(cfg, key)
       case Take => true
       case Read => true
       case Write => true
       case _ => false
  }

  /** All events of the object about to be read have arrived. */
  ghost predicate CaughtUp(cfg: Config, s: State)
    requires Enabled(cfg, s, Read)
  {
    Events(s, Owned(cfg, STAGES[s.pass.stage])) == []
  }

  ghost predicate Stale(cfg: Config, s: State, a: Action)
    requires Enabled(cfg, s, a)
  {
    a.Read? && !CaughtUp(cfg, s)
  }

  ghost function Need(cfg: Config, s: State, kind: Kind): nat {
    if Converged(cfg, s, kind) then 0 else 1
  }

  ghost function Needs(cfg: Config, s: State): nat {
    Need(cfg, s, Service) + Need(cfg, s, Secret) + Need(cfg, s, ServiceMonitor)
  }

  ghost function Undelivered(cfg: Config, s: State): nat {
    |Events(s, Owned(cfg, Service))| + |Events(s, Owned(cfg, Secret))| + |Events(s, Owned(cfg, ServiceMonitor))|
  }

  /** The write in flight will be refused. */
  ghost predicate Doomed(cfg: Config, s: State) {
    s.pass.Writing? && s.pass.stage < |STAGES| && !Accepts(cfg, s, s.pass.stage, s.pass.op)
  }

  ghost function PassRank(p: Pass): nat {
    match p
    case Idle => 0
    case Reading(stage) => if stage < |STAGES| then 2 * (|STAGES| - stage) + 2 else 0
    case Writing(stage, _) => if stage < |STAGES| then 2 * (|STAGES| - stage) + 1 else 0
  }

  ghost function Measure(cfg: Config, s: State): nat {
    12 * Needs(cfg, s) + 10 * Undelivered(cfg, s) + (if s.queued then 9 else 0)
    + (if Doomed(cfg, s) then 10 else 0) + PassRank(s.pass)
  }

  /** Needs and undelivered events do not depend on the request or the pass. */
  lemma CountsOfData(cfg: Config, s: State, s': State)
    requires SameData(s, s')
    ensures Needs(cfg, s') == Needs(cfg, s) && Undelivered(cfg, s') == Undelivered(cfg, s)
  {
  }

  lemma DeliverFalls(cfg: Config, s: State, key: ObjKey)
    requires Calm(cfg, s, Deliver(key))
    ensures Measure(cfg, Apply(cfg, s, Deliver(key))) < Measure(cfg, s)
  {
    var s' := Apply(cfg, s, Deliver(key));
    EnqueuesOwnedOnly(cfg, key);
    assert Events(s', key) == Events(s, key)[1..];
    forall kind | Owned(cfg, kind) != key ensures Events(s', Owned(cfg, kind)) == Events(s, Owned(cfg, kind)) {
    }
    assert Undelivered(cfg, s') == Undelivered(cfg, s) - 1;
    assert Needs(cfg, s') == Needs(cfg, s);
  }

  lemma CompressFalls(cfg: Config, s: State, key: ObjKey)
    requires Calm(cfg, s, Compress(key))
    ensures Measure(cfg, Apply(cfg, s, Compress(key))) < Measure(cfg, s)
  {
    var s' := Apply(cfg, s, Compress(key));
    EnqueuesOwnedOnly(cfg, key);
    assert Events(s', key) == Events(s, key)[1..];
    forall kind | Owned(cfg, kind) != key ensures Events(s', Owned(cfg, kind)) == Events(s, Owned(cfg, kind)) {
    }
    assert Undelivered(cfg, s') == Undelivered(cfg, s) - 1;
    assert Needs(cfg, s') == Needs(cfg, s);
  }

  /** A fresh read decides on a write the server would accept now. */
  lemma FreshRead(cfg: Config, s: State)
    requires Inv(cfg, s) && Enabled(cfg, s, Read) && CaughtUp(cfg, s)
    ensures !Doomed(cfg, Apply(cfg, s, Read))
  {
    assert KeyOk(s, Owned(cfg, STAGES[s.pass.stage]));
  }

  /** The state after a stage that nothing disturbs: its read and, if that decides on one, its write. */
  ghost function AfterStage(cfg: Config, s: State): State
    requires Enabled(cfg, s, Read)
  {
    var s1 := Apply(cfg, s, Read);
    if s1.pass.Writing? then Apply(cfg, s1, Write) else s1
  }

  /** With a fresh read a stage of the loop does what the sub-reconcile of its kind does on success. */
  lemma FreshStageHeals(cfg: Config, s: State)
    requires Inv(cfg, s) && Enabled(cfg, s, Read) && CaughtUp(cfg, s)
    ensures Objects(AfterStage(cfg, s).api) == Reconcilers.Healed(cfg, STAGES[s.pass.stage], Objects(s.api))
    ensures AfterStage(cfg, s).pass == Advance(s, s.pass.stage).pass
  {
    var s1 := Apply(cfg, s, Read);
    FreshDecision(cfg, s);
    FreshRead(cfg, s);
    SameDataSteps(cfg, s, Read);
    if s1.pass.Writing? {
      PutObjects(s1, Owned(cfg, STAGES[s.pass.stage]), Sent(cfg, s.pass.stage, s1.pass.op));
    }
  }

  /** A fresh read decides on a write exactly when the object is not as desired, and what it sends heals. */
  lemma FreshDecision(cfg: Config, s: State)
    requires Inv(cfg, s) && Enabled(cfg, s, Read) && CaughtUp(cfg, s)
    ensures var stage, s1 := s.pass.stage, Apply(cfg, s, Read);
      Reconcilers.Healed(cfg, STAGES[stage], Objects(s.api)) ==
        if s1.pass.Writing? then Objects(s.api)[Owned(cfg, STAGES[stage]) := Sent(cfg, stage, s1.pass.op)] else Objects(s.api)
    ensures var stage, s1 := s.pass.stage, Apply(cfg, s, Read);
      if s1.pass.Writing? then s1.pass.stage == stage else s1.pass == Advance(s, stage).pass
  {
    var key := Owned(cfg, STAGES[s.pass.stage]);
    assert KeyOk(s, key);
    assert Get(s.cache, key) == Get(s.api, key);
    assert key in s.cache <==> key in s.api;
  }

  lemma PutObjects(s: State, key: ObjKey, obj: Object)
    ensures Objects(Put(s, key, obj).api) == Objects(s.api)[key := obj]
  {
  }

  /** A fresh read lowers the measure; a stale one may decide on a write that will be refused. */
  lemma ReadBound(cfg: Config, s: State)
    requires Inv(cfg, s) && Enabled(cfg, s, Read)
    ensures Measure(cfg, Apply(cfg, s, Read)) < Measure(cfg, s) + if CaughtUp(cfg, s) then 0 else 10
  {
    var s' := Apply(cfg, s, Read);
    if CaughtUp(cfg, s) { FreshRead(cfg, s); }
    SameDataSteps(cfg, s, Read);
    CountsOfData(cfg, s, s');
  }

  lemma PutCounts(cfg: Config, s: State, kind: Kind, obj: Object)
    requires !Converged(cfg, s, kind) && InSync(cfg, obj)
    ensures var s1 := Put(s, Owned(cfg, kind), obj);
      Needs(cfg, s1) == Needs(cfg, s) - 1 && Undelivered(cfg, s1) == Undelivered(cfg, s) + 1
  {
    var s1 := Put(s, Owned(cfg, kind), obj);
    assert Events(s1, Owned(cfg, kind)) == Events(s, Owned(cfg, kind)) + [Upsert(s1.api[Owned(cfg, kind)])];
    forall other | other != kind
      ensures Events(s1, Owned(cfg, other)) == Events(s, Owned(cfg, other)) && Need(cfg, s1, other) == Need(cfg, s, other)
    {
    }
  }

  /** A write is accepted only while the object is not yet as desired, and then makes it so. */
  lemma AcceptedWriteConverges(cfg: Config, s: State)
    requires Inv(cfg, s) && s.pass.Writing? && Accepts(cfg, s, s.pass.stage, s.pass.op)
    ensures !Converged(cfg, s, STAGES[s.pass.stage]) && InSync(cfg, Sent(cfg, s.pass.stage, s.pass.op))
  {
    DesiredSyncs(cfg, STAGES[s.pass.stage]);
    if s.pass.op.Update? { OverwriteSyncs(cfg, s.pass.op.read.obj); }
  }

  lemma AcceptedWriteFalls(cfg: Config, s: State)
    requires Inv(cfg, s) && Calm(cfg, s, Write) && Accepts(cfg, s, s.pass.stage, s.pass.op)
    ensures Measure(cfg, Apply(cfg, s, Write)) < Measure(cfg, s)
  {
    var kind, obj := STAGES[s.pass.stage], Sent(cfg, s.pass.stage, s.pass.op);
    AcceptedWriteConverges(cfg, s);
    PutCounts(cfg, s, kind, obj);
    CountsOfData(cfg, Put(s, Owned(cfg, kind), obj), Apply(cfg, s, Write));
  }

  lemma RefusedWriteFalls(cfg: Config, s: State)
    requires Calm(cfg, s, Write) && !Accepts(cfg, s, s.pass.stage, s.pass.op)
    ensures Measure(cfg, Apply(cfg, s, Write)) < Measure(cfg, s)
  {
    SameDataSteps(cfg, s, Write);
    CountsOfData(cfg, s, Apply(cfg, s, Write));
  }

  lemma CalmBound(cfg: Config, s: State, a: Action)
    requires Inv(cfg, s) && Calm(cfg, s, a)
    ensures Measure(cfg, Apply(cfg, s, a)) < Measure(cfg, s) + if Stale(cfg, s, a) then 10 else 0
  {
    if a.Deliver? {
      DeliverFalls(cfg, s, a.key);
    } else if a.Compress? {
      CompressFalls(cfg, s, a.key);
    } else if a.Read? {
      ReadBound(cfg, s);
    } else if a.Write? {
      if Accepts(cfg, s, s.pass.stage, s.pass.op) { AcceptedWriteFalls(cfg, s); } else { RefusedWriteFalls(cfg, s); }
    } else {
      CountsOfData(cfg, s, Apply(cfg, s, a));
    }
  }

  /** Unless nothing is left to do, an undisturbed system has a step to take that is no stale read. */
  lemma CalmStep(cfg: Config, s: State) returns (a: Action)
    requires PassOk(cfg, s) && !Quiescent(cfg, s)
    ensures Calm(cfg, s, a) && !Stale(cfg, s, a)
  {
    if kind :| Events(s, Owned(cfg, kind)) != [] {
      EnqueuesOwnedOnly(cfg, Owned(cfg, kind));
      a := Deliver(Owned(cfg, kind));
    } else if s.pass.Reading? {
      a := Read;
    } else if s.pass.Writing? {
      a := Write;
    } else {
      a := Take;
    }
  }

  ghost predicate CalmRun(cfg: Config, s: State, acts: seq<Action>)
    decreases |acts|
  {
    acts == [] || (Calm(cfg, s, acts[0]) && CalmRun(cfg, Apply(cfg, s, acts[0]), acts[1..]))
  }

  ghost function EndOf(cfg: Config, s: State, acts: seq<Action>): State
    requires CalmRun(cfg, s, acts)
    decreases |acts|
  {
    if acts == [] then s else EndOf(cfg, Apply(cfg, s, acts[0]), acts[1..])
  }

  /** The reads of the run that came before all events of their object had arrived. */
  ghost function StaleReads(cfg: Config, s: State, acts: seq<Action>): nat
    requires CalmRun(cfg, s, acts)
    decreases |acts|
  {
    if acts == [] then 0
    else (if Stale(cfg, s, acts[0]) then 1 else 0) + StaleReads(cfg, Apply(cfg, s, acts[0]), acts[1..])
  }

  ghost predicate StepsDown(cfg: Config, s: State, steps: nat, stale: nat, e: State) {
    steps + Measure(cfg, e) <= Measure(cfg, s) + 10 * stale && Inv(cfg, e) && (s.triggered ==> e.triggered)
  }

  lemma CalmStepsDown(cfg: Config, s: State, a: Action)
    requires Inv(cfg, s) && Calm(cfg, s, a)
    ensures StepsDown(cfg, s, 1, if Stale(cfg, s, a) then 1 else 0, Apply(cfg, s, a))
  {
    StepInv(cfg, s, a);
    CalmBound(cfg, s, a);
    if s.triggered { StaysTriggered(cfg, s, a); }
  }

  lemma StaysTriggered(cfg: Config, s: State, a: Action)
    requires Enabled(cfg, s, a) && s.triggered
    ensures Apply(cfg, s, a).triggered
  {
  }

  lemma StepsAdd(cfg: Config, s: State, m: State, e: State, n: nat, stale: nat, more: nat)
    requires StepsDown(cfg, s, 1, stale, m) && StepsDown(cfg, m, n, more, e)
    ensures StepsDown(cfg, s, n + 1, stale + more, e)
  {
  }

  /** Every undisturbed run takes a bounded number of steps and ten more for each of its stale reads, keeps the
      invariant and stays triggered. */
  lemma {:induction false} CalmRunsEnd(cfg: Config, s: State, acts: seq<Action>)
    requires Inv(cfg, s) && CalmRun(cfg, s, acts)
    ensures StepsDown(cfg, s, |acts|, StaleReads(cfg, s, acts), EndOf(cfg, s, acts))
    decreases |acts|
  {
    if acts != [] {
      var m := Apply(cfg, s, acts[0]);
      CalmStepsDown(cfg, s, acts[0]);
      CalmRunsEnd(cfg, m, acts[1..]);
      StepsAdd(cfg, s, m, EndOf(cfg, m, acts[1..]), |acts| - 1,
        if Stale(cfg, s, acts[0]) then 1 else 0, StaleReads(cfg, m, acts[1..]));
    }
  }

  /** Left alone after a first request, the loop takes at most `Measure` steps and ten for each stale read, whatever
      their order; wherever such a run has come, it can go on to convergence; and when it can take no more steps it
      has got there. */
  lemma LeftAloneConverges(cfg: Config, s: State, acts: seq<Action>)
    requires Reachable(cfg, s) && s.triggered && CalmRun(cfg, s, acts)
    ensures |acts| <= Measure(cfg, s) + 10 * StaleReads(cfg, s, acts)
    ensures ConvergesWithin(cfg, EndOf(cfg, s, acts), Measure(cfg, EndOf(cfg, s, acts)))
    ensures (forall a :: !Calm(cfg, EndOf(cfg, s, acts), a)) ==>
      forall kind :: Converged(cfg, EndOf(cfg, s, acts), kind) && AsConfigured(cfg, kind, Objects(EndOf(cfg, s, acts).api))
  {
    ReachableInv(cfg, s);
    CalmRunsEnd(cfg, s, acts);
    var e := EndOf(cfg, s, acts);
    CanConverge(cfg, e);
    if forall a :: !Calm(cfg, e, a) {
      if !Quiescent(cfg, e) {
        var a := CalmStep(cfg, e);
      }
      QuietIsConverged(cfg, e);
    }
  }

  lemma StepThen(cfg: Config, s: State, a: Action, rest: seq<Action>)
    requires Calm(cfg, s, a) && CalmRun(cfg, Apply(cfg, s, a), rest)
    ensures CalmRun(cfg, s, [a] + rest) && EndOf(cfg, s, [a] + rest) == EndOf(cfg, Apply(cfg, s, a), rest)
    ensures StaleReads(cfg, s, [a] + rest) == (if Stale(cfg, s, a) then 1 else 0) + StaleReads(cfg, Apply(cfg, s, a), rest)
  {
    assert ([a] + rest)[1..] == rest;
  }

  /** An undisturbed run of at most `bound` steps, with no stale read, ends with nothing left to do and every owned
      object as desired. */
  ghost predicate ConvergesWithin(cfg: Config, s: State, bound: nat) {
    exists acts :: |acts| <= bound && EndsWell(cfg, s, acts)
  }

  ghost predicate EndsWell(cfg: Config, s: State, acts: seq<Action>) {
    CalmRun(cfg, s, acts) && StaleReads(cfg, s, acts) == 0 && AllDone(cfg, EndOf(cfg, s, acts))
  }

  ghost predicate AllDone(cfg: Config, e: State) {
    Quiescent(cfg, e) && forall kind :: Converged(cfg, e, kind) && AsConfigured(cfg, kind, Objects(e.api))
  }

  /** Convergence is always within reach: whatever has happened, delivering events before reading leads to it. */
  lemma {:induction false} CanConverge(cfg: Config, s: State)
    requires Inv(cfg, s) && s.triggered
    ensures ConvergesWithin(cfg, s, Measure(cfg, s))
    decreases Measure(cfg, s)
  {
    if Quiescent(cfg, s) {
      QuietIsConverged(cfg, s);
      assert EndsWell(cfg, s, []);
    } else {
      var a := CalmStep(cfg, s);
      CalmStepsDown(cfg, s, a);
      CanConverge(cfg, Apply(cfg, s, a));
      ConvergesFirst(cfg, s, a, Measure(cfg, Apply(cfg, s, a)), Measure(cfg, s));
    }
  }

  lemma ConvergesFirst(cfg: Config, s: State, a: Action, later: nat, bound: nat)
    requires Calm(cfg, s, a) && !Stale(cfg, s, a)
    requires later < bound && ConvergesWithin(cfg, Apply(cfg, s, a), later)
    ensures ConvergesWithin(cfg, s, bound)
  {
    var rest :| |rest| <= later && EndsWell(cfg, Apply(cfg, s, a), rest);
    EndsWellFirst(cfg, s, a, rest);
    assert |[a] + rest| <= bound;
  }

  lemma EndsWellFirst(cfg: Config, s: State, a: Action, rest: seq<Action>)
    requires Calm(cfg, s, a) && !Stale(cfg, s, a) && EndsWell(cfg, Apply(cfg, s, a), rest)
    ensures EndsWell(cfg, s, [a] + rest)
  {
    StepThen(cfg, s, a, rest);
  }

  lemma QuietIsConverged(cfg: Config, e: State)
    requires Inv(cfg, e) && e.triggered && Quiescent(cfg, e)
    ensures forall kind :: Converged(cfg, e, kind) && AsConfigured(cfg, kind, Objects(e.api))
  {
    forall kind ensures Converged(cfg, e, kind) && AsConfigured(cfg, kind, Objects(e.api)) {
      assert Settled(cfg, e, kind) && KeyOk(e, Owned(cfg, kind));
      ConvergedIff(cfg, e, kind);
    }
  }
}
