/** The loop while no watch event arrives: what its passes do on one and the same cache, and exactly when they
    come to rest, go round, or return to the state they began in. */
module ControlLoopStaleness {
  import opened Collections
  import opened Resources
  import opened ControlLoop
  import opened ControlLoopLiveness

  /** The cache makes the stage of the kind send a write that the server refuses: it creates an object that exists,
      or updates one that has changed or gone since. */
  ghost predicate MisledAt(cfg: Config, s: State, kind: Kind) {
    var key := Owned(cfg, kind);
    if key !in s.cache then key in s.api
    else !InSync(cfg, s.cache[key].obj) && !(key in s.api && s.api[key].version == s.cache[key].version)
  }

  ghost predicate AnyMisled(cfg: Config, s: State) {
    exists kind :: MisledAt(cfg, s, kind)
  }

  // --- One stage ---

  ghost predicate AtStage(s: State) {
    s.pass.Reading? && s.pass.stage < |STAGES|
  }

  ghost function StageActs(cfg: Config, s: State): seq<Action>
    requires AtStage(s)
  {
    if Apply(cfg, s, Read).pass.Writing? then [Read, Write] else [Read]
  }

  lemma StageRuns(cfg: Config, s: State)
    requires AtStage(s)
    ensures CalmRun(cfg, s, StageActs(cfg, s)) && EndOf(cfg, s, StageActs(cfg, s)) == AfterStage(cfg, s)
    ensures StaleReads(cfg, s, StageActs(cfg, s)) == if CaughtUp(cfg, s) then 0 else 1
  {
    var s1 := Apply(cfg, s, Read);
    if s1.pass.Writing? {
      assert [Read] + [Write] == [Read, Write] && [Write] + [] == [Write];
      StepThen(cfg, s1, Write, []);
      StepThen(cfg, s, Read, [Write]);
    } else {
      assert [Read] + [] == [Read];
      StepThen(cfg, s, Read, []);
    }
  }

  /** An object that is in sync in the cache is passed over. */
  lemma StagePassesOver(cfg: Config, s: State)
    requires AtStage(s) && CachedInSync(cfg, s, STAGES[s.pass.stage])
    ensures AfterStage(cfg, s) == Advance(s, s.pass.stage)
  {
  }

  /** A misled stage ends the pass and leaves nothing changed. */
  lemma StageRefused(cfg: Config, s: State)
    requires AtStage(s) && MisledAt(cfg, s, STAGES[s.pass.stage])
    ensures AfterStage(cfg, s) == Abort(s)
  {
  }

  /** What the stage sends when it is to write. */
  ghost function ToSend(cfg: Config, s: State, kind: Kind): Object {
    var key := Owned(cfg, kind);
    if key in s.cache then Overwrite(cfg, s.cache[key].obj) else Desired(cfg, kind)
  }

  lemma StageAccepted(cfg: Config, s: State)
    requires AtStage(s)
    requires var kind := STAGES[s.pass.stage]; !MisledAt(cfg, s, kind) && !CachedInSync(cfg, s, kind)
    ensures var kind := STAGES[s.pass.stage];
      AfterStage(cfg, s) == Advance(Put(s, Owned(cfg, kind), ToSend(cfg, s, kind)), s.pass.stage)
  {
  }

  /** What misleads a stage is in the cache and on the server. */
  lemma SameViews(cfg: Config, s: State, s': State, kind: Kind)
    requires s'.cache == s.cache && Get(s'.api, Owned(cfg, kind)) == Get(s.api, Owned(cfg, kind))
    ensures MisledAt(cfg, s', kind) <==> MisledAt(cfg, s, kind)
    ensures CachedInSync(cfg, s', kind) <==> CachedInSync(cfg, s, kind)
  {
    assert Owned(cfg, kind) in s.api <==> Get(s.api, Owned(cfg, kind)).Some?;
  }

  /** A stage keeps the cache and the other objects, and so what misleads the other stages. */
  lemma StageKeeps(cfg: Config, s: State, other: Kind)
    requires AtStage(s)
    ensures AfterStage(cfg, s).cache == s.cache
    ensures other != STAGES[s.pass.stage] ==>
      && (MisledAt(cfg, AfterStage(cfg, s), other) <==> MisledAt(cfg, s, other))
      && (CachedInSync(cfg, AfterStage(cfg, s), other) <==> CachedInSync(cfg, s, other))
  {
    StageViews(cfg, s, other);
    if other != STAGES[s.pass.stage] { SameViews(cfg, s, AfterStage(cfg, s), other); }
  }

  lemma StageViews(cfg: Config, s: State, other: Kind)
    requires AtStage(s)
    ensures AfterStage(cfg, s).cache == s.cache
    ensures other != STAGES[s.pass.stage] ==>
      Get(AfterStage(cfg, s).api, Owned(cfg, other)) == Get(s.api, Owned(cfg, other))
  {
    var kind := STAGES[s.pass.stage];
    if MisledAt(cfg, s, kind) {
      StageRefused(cfg, s);
    } else if CachedInSync(cfg, s, kind) {
      StagePassesOver(cfg, s);
    } else {
      StageAccepted(cfg, s);
    }
  }

  /** After a stage the pass is over or at the next one, and over with a request exactly when the stage was misled. */
  lemma StageMoves(cfg: Config, s: State)
    requires AtStage(s)
    ensures var e := AfterStage(cfg, s);
      if MisledAt(cfg, s, STAGES[s.pass.stage]) then e == Abort(s)
      else e.queued == s.queued && e.pass == Advance(s, s.pass.stage).pass
    ensures var e := AfterStage(cfg, s);
      e.clock == s.clock + if MisledAt(cfg, s, STAGES[s.pass.stage]) || CachedInSync(cfg, s, STAGES[s.pass.stage]) then 0 else 1
  {
    var kind := STAGES[s.pass.stage];
    if MisledAt(cfg, s, kind) {
      StageRefused(cfg, s);
    } else if CachedInSync(cfg, s, kind) {
      StagePassesOver(cfg, s);
    } else {
      StageAccepted(cfg, s);
    }
  }

  /** A misled stage reads before all events of its object have arrived. */
  lemma MisledIsStale(cfg: Config, s: State)
    requires Inv(cfg, s) && AtStage(s) && MisledAt(cfg, s, STAGES[s.pass.stage])
    ensures !CaughtUp(cfg, s)
  {
    assert KeyOk(s, Owned(cfg, STAGES[s.pass.stage]));
  }

  // --- One pass ---

  /** The steps of a pass from the reading of a stage on, when nothing else happens. */
  ghost function RestOfPass(cfg: Config, s: State): seq<Action>
    requires AtStage(s)
    decreases |STAGES| - s.pass.stage
  {
    StageMoves(cfg, s);
    var e := AfterStage(cfg, s);
    StageActs(cfg, s) + if e.pass.Idle? then [] else RestOfPass(cfg, e)
  }

  /** Some stage from the given one on is misled. */
  ghost predicate MisledFrom(cfg: Config, s: State, stage: nat) {
    exists kind :: StageOf(kind) >= stage && MisledAt(cfg, s, kind)
  }

  /** And the stages in between write nothing. */
  ghost predicate FirstWriteRefused(cfg: Config, s: State, stage: nat) {
    exists kind :: RefusedFirst(cfg, s, stage, kind)
  }

  ghost predicate RefusedFirst(cfg: Config, s: State, stage: nat, kind: Kind) {
    && StageOf(kind) >= stage && MisledAt(cfg, s, kind)
    && forall k :: stage <= StageOf(k) < StageOf(kind) ==> CachedInSync(cfg, s, k)
  }

  /** The end of a pass that was at the stage in `s`. */
  ghost predicate PassEnd(cfg: Config, s: State, stage: nat, e: State) {
    && e.pass.Idle? && e.cache == s.cache && e.clock >= s.clock
    && (e.queued <==> MisledFrom(cfg, s, stage))
    && (e.queued ==> AnyMisled(cfg, e))
    && (e == Abort(s) <==> FirstWriteRefused(cfg, s, stage))
  }

  lemma KindAt(stage: nat)
    requires stage < |STAGES|
    ensures StageOf(STAGES[stage]) == stage && forall kind :: StageOf(kind) == stage ==> kind == STAGES[stage]
  {
  }

  /** What lies behind a stage that is not misled. */
  lemma MisledLater(cfg: Config, s: State)
    requires AtStage(s) && !MisledAt(cfg, s, STAGES[s.pass.stage])
    ensures MisledFrom(cfg, s, s.pass.stage) <==> MisledFrom(cfg, AfterStage(cfg, s), s.pass.stage + 1)
  {
    KindAt(s.pass.stage);
    var e := AfterStage(cfg, s);
    forall kind | StageOf(kind) > s.pass.stage ensures MisledAt(cfg, e, kind) <==> MisledAt(cfg, s, kind) {
      StageKeeps(cfg, s, kind);
    }
  }

  lemma RefusedLater(cfg: Config, s: State)
    requires AtStage(s) && !MisledAt(cfg, s, STAGES[s.pass.stage])
    ensures FirstWriteRefused(cfg, s, s.pass.stage) <==>
      CachedInSync(cfg, s, STAGES[s.pass.stage]) && FirstWriteRefused(cfg, AfterStage(cfg, s), s.pass.stage + 1)
  {
    var stage, e := s.pass.stage, AfterStage(cfg, s);
    KindAt(stage);
    forall kind | StageOf(kind) > stage
      ensures RefusedFirst(cfg, s, stage, kind) <==> CachedInSync(cfg, s, STAGES[stage]) && RefusedFirst(cfg, e, stage + 1, kind)
    {
      forall k | StageOf(k) > stage
        ensures MisledAt(cfg, e, k) <==> MisledAt(cfg, s, k)
        ensures CachedInSync(cfg, e, k) <==> CachedInSync(cfg, s, k)
      {
        StageKeeps(cfg, s, k);
      }
    }
  }

  /** From the end of what follows a stage to the end of the whole. */
  lemma PassEndBefore(cfg: Config, s: State, e: State)
    requires AtStage(s) && !MisledAt(cfg, s, STAGES[s.pass.stage])
    requires PassEnd(cfg, AfterStage(cfg, s), s.pass.stage + 1, e)
    ensures PassEnd(cfg, s, s.pass.stage, e)
  {
    MisledLater(cfg, s);
    RefusedLater(cfg, s);
    StageMoves(cfg, s);
    StageKeeps(cfg, s, Service);
    if CachedInSync(cfg, s, STAGES[s.pass.stage]) {
      StagePassesOver(cfg, s);
    }
  }

  lemma RefusedPassEnd(cfg: Config, s: State)
    requires AtStage(s) && MisledAt(cfg, s, STAGES[s.pass.stage])
    ensures PassEnd(cfg, s, s.pass.stage, Abort(s))
  {
    var kind := STAGES[s.pass.stage];
    KindAt(s.pass.stage);
    assert MisledAt(cfg, Abort(s), kind);
    assert RefusedFirst(cfg, s, s.pass.stage, kind);
  }

  lemma LastPassEnd(cfg: Config, e: State)
    requires e.pass.Idle? && !e.queued
    ensures PassEnd(cfg, e, |STAGES|, e)
  {
  }

  lemma {:induction false} RunThen(cfg: Config, s: State, first: seq<Action>, rest: seq<Action>)
    requires CalmRun(cfg, s, first) && CalmRun(cfg, EndOf(cfg, s, first), rest)
    ensures CalmRun(cfg, s, first + rest)
    ensures EndOf(cfg, s, first + rest) == EndOf(cfg, EndOf(cfg, s, first), rest)
    ensures StaleReads(cfg, s, first + rest) == StaleReads(cfg, s, first) + StaleReads(cfg, EndOf(cfg, s, first), rest)
    decreases |first|
  {
    if first == [] {
      assert first + rest == rest;
    } else {
      var m := Apply(cfg, s, first[0]);
      RunThen(cfg, m, first[1..], rest);
      StepThen(cfg, s, first[0], first[1..] + rest);
      assert [first[0]] + (first[1..] + rest) == first + rest;
    }
  }

  lemma {:induction false} RestOfPassEnds(cfg: Config, s: State)
    requires AtStage(s) && !s.queued
    ensures CalmRun(cfg, s, RestOfPass(cfg, s))
    ensures PassEnd(cfg, s, s.pass.stage, EndOf(cfg, s, RestOfPass(cfg, s)))
    decreases |STAGES| - s.pass.stage
  {
    var m := AfterStage(cfg, s);
    StageMoves(cfg, s);
    StageRuns(cfg, s);
    if MisledAt(cfg, s, STAGES[s.pass.stage]) {
      RefusedPassEnd(cfg, s);
      assert RestOfPass(cfg, s) == StageActs(cfg, s);
    } else if m.pass.Idle? {
      assert RestOfPass(cfg, s) == StageActs(cfg, s);
      LastPassEnd(cfg, m);
      PassEndBefore(cfg, s, m);
    } else {
      RestOfPassEnds(cfg, m);
      RunThen(cfg, s, StageActs(cfg, s), RestOfPass(cfg, m));
      PassEndBefore(cfg, s, EndOf(cfg, m, RestOfPass(cfg, m)));
    }
  }

  /** A pass that is refused has read too early at least once. */
  lemma {:induction false} RefusedPassIsStale(cfg: Config, s: State)
    requires Inv(cfg, s) && AtStage(s) && !s.queued && MisledFrom(cfg, s, s.pass.stage)
    ensures CalmRun(cfg, s, RestOfPass(cfg, s)) && StaleReads(cfg, s, RestOfPass(cfg, s)) >= 1
    ensures |RestOfPass(cfg, s)| >= 2
    decreases |STAGES| - s.pass.stage
  {
    var m := AfterStage(cfg, s);
    StageMoves(cfg, s);
    StageRuns(cfg, s);
    RestOfPassEnds(cfg, s);
    if MisledAt(cfg, s, STAGES[s.pass.stage]) {
      MisledIsStale(cfg, s);
      assert RestOfPass(cfg, s) == StageActs(cfg, s);
    } else {
      MisledLater(cfg, s);
      StageInv(cfg, s);
      RefusedPassIsStale(cfg, m);
      RunThen(cfg, s, StageActs(cfg, s), RestOfPass(cfg, m));
    }
  }

  lemma StageInv(cfg: Config, s: State)
    requires Inv(cfg, s) && AtStage(s)
    ensures Inv(cfg, AfterStage(cfg, s))
  {
    var s1 := Apply(cfg, s, Read);
    StepInv(cfg, s, Read);
    if s1.pass.Writing? { StepInv(cfg, s1, Write); }
  }

  /** A whole pass, from taking the request to its end, when nothing else happens. */
  ghost function OnePass(cfg: Config, s: State): seq<Action>
    requires s.pass.Idle? && s.queued
  {
    [Take] + RestOfPass(cfg, Apply(cfg, s, Take))
  }

  lemma OnePassEnd(cfg: Config, s: State)
    requires s.pass.Idle? && s.queued
    ensures CalmRun(cfg, s, OnePass(cfg, s))
    ensures PassEnd(cfg, Apply(cfg, s, Take), 0, EndOf(cfg, s, OnePass(cfg, s)))
    ensures MisledFrom(cfg, Apply(cfg, s, Take), 0) <==> AnyMisled(cfg, s)
  {
    var s1 := Apply(cfg, s, Take);
    RestOfPassEnds(cfg, s1);
    StepThen(cfg, s, Take, RestOfPass(cfg, s1));
    assert forall kind :: MisledAt(cfg, s1, kind) <==> MisledAt(cfg, s, kind);
  }

  /** A pass during which no event arrives leaves no request behind exactly when the cache misleads none of its
      stages; and if it leaves one, the cache misleads the next pass too. */
  lemma PassRestsIff(cfg: Config, s: State)
    requires s.pass.Idle? && s.queued
    ensures CalmRun(cfg, s, OnePass(cfg, s))
    ensures var e := EndOf(cfg, s, OnePass(cfg, s));
      && e.pass.Idle?
      && (!e.queued <==> forall kind :: !MisledAt(cfg, s, kind))
      && (e.queued ==> exists kind :: MisledAt(cfg, e, kind))
  {
    OnePassEnd(cfg, s);
    assert AnyMisled(cfg, s) <==> exists kind :: MisledAt(cfg, s, kind);
    var e := EndOf(cfg, s, OnePass(cfg, s));
    assert AnyMisled(cfg, e) <==> exists kind :: MisledAt(cfg, e, kind);
  }

  /** A pass leads back to the very state it began in, request and all, exactly when some stage is misled and the
      stages before it find their objects in sync in the cache. */
  lemma CycleIff(cfg: Config, s: State)
    requires s.pass.Idle? && s.queued
    ensures CalmRun(cfg, s, OnePass(cfg, s))
    ensures EndOf(cfg, s, OnePass(cfg, s)) == s <==>
      exists kind :: MisledAt(cfg, s, kind) && forall k :: StageOf(k) < StageOf(kind) ==> CachedInSync(cfg, s, k)
  {
    var s1 := Apply(cfg, s, Take);
    OnePassEnd(cfg, s);
    assert Abort(s1) == s;
    forall kind
      ensures RefusedFirst(cfg, s1, 0, kind) <==>
        MisledAt(cfg, s, kind) && forall k :: StageOf(k) < StageOf(kind) ==> CachedInSync(cfg, s, k)
    {
      assert MisledAt(cfg, s1, kind) <==> MisledAt(cfg, s, kind);
      assert forall k :: CachedInSync(cfg, s1, k) <==> CachedInSync(cfg, s, k);
    }
  }

  // --- Any number of passes ---

  /** That many passes are possible from here without an event arriving, each with a stale read; the end is idle
      with a request, and the cache still misleads some stage. */
  ghost predicate GoesRound(cfg: Config, s: State, passes: nat, acts: seq<Action>) {
    && CalmRun(cfg, s, acts) && NoDelivery(acts)
    && |acts| >= 3 * passes && StaleReads(cfg, s, acts) >= passes
    && var e := EndOf(cfg, s, acts);
    && e.pass.Idle? && e.queued && AnyMisled(cfg, e)
  }

  ghost predicate NoDelivery(acts: seq<Action>) {
    forall a :: a in acts ==> !a.Deliver? && !a.Compress?
  }

  lemma {:induction false} RestOfPassDeliversNothing(cfg: Config, s: State)
    requires AtStage(s)
    ensures NoDelivery(RestOfPass(cfg, s))
    decreases |STAGES| - s.pass.stage
  {
    StageMoves(cfg, s);
    if !AfterStage(cfg, s).pass.Idle? { RestOfPassDeliversNothing(cfg, AfterStage(cfg, s)); }
  }

  lemma PassGoesRound(cfg: Config, s: State)
    requires Inv(cfg, s) && s.pass.Idle? && s.queued && AnyMisled(cfg, s)
    ensures GoesRound(cfg, s, 1, OnePass(cfg, s)) && Inv(cfg, EndOf(cfg, s, OnePass(cfg, s)))
  {
    var s1 := Apply(cfg, s, Take);
    OnePassEnd(cfg, s);
    StepInv(cfg, s, Take);
    RefusedPassIsStale(cfg, s1);
    StepThen(cfg, s, Take, RestOfPass(cfg, s1));
    RestOfPassDeliversNothing(cfg, s1);
    CalmRunsEnd(cfg, s, OnePass(cfg, s));
  }

  /** A loop misled at any stage goes round any number of times until an event arrives. */
  lemma {:induction false} MisledForEver(cfg: Config, s: State, n: nat) returns (acts: seq<Action>)
    requires Inv(cfg, s) && s.pass.Idle? && s.queued && AnyMisled(cfg, s)
    ensures GoesRound(cfg, s, n, acts)
    decreases n
  {
    if n == 0 {
      acts := [];
    } else {
      var first := OnePass(cfg, s);
      PassGoesRound(cfg, s);
      var rest := MisledForEver(cfg, EndOf(cfg, s, first), n - 1);
      RunThen(cfg, s, first, rest);
      acts := first + rest;
    }
  }

  // --- No rest without an event ---

  /** The write in flight is the one the cache decides on. */
  ghost predicate FromCache(cfg: Config, s: State) {
    s.pass.Writing? ==>
      && s.pass.stage < |STAGES|
      && var key := Owned(cfg, STAGES[s.pass.stage]);
      if key in s.cache then !InSync(cfg, s.cache[key].obj) && s.pass.op == Update(s.cache[key]) else s.pass.op == Create
  }

  /** Some stage is misled, and it is still to come in this pass or another pass is requested. */
  ghost predicate Restless(cfg: Config, s: State) {
    FromCache(cfg, s) && exists kind :: MisledAt(cfg, s, kind) && (s.queued || StillToCome(s, kind))
  }

  lemma RestlessStep(cfg: Config, s: State, a: Action)
    requires Restless(cfg, s) && Calm(cfg, s, a) && !a.Deliver? && !a.Compress?
    ensures Restless(cfg, Apply(cfg, s, a))
  {
    var kind :| MisledAt(cfg, s, kind) && (s.queued || StillToCome(s, kind));
    if a.Take? {
      assert MisledAt(cfg, Apply(cfg, s, a), kind);
    } else if a.Read? {
      RestlessRead(cfg, s, kind);
    } else {
      RestlessWrite(cfg, s, kind);
    }
  }

  lemma RestlessRead(cfg: Config, s: State, kind: Kind)
    requires Enabled(cfg, s, Read) && MisledAt(cfg, s, kind) && (s.queued || StillToCome(s, kind))
    ensures Restless(cfg, Apply(cfg, s, Read))
  {
    var s' := Apply(cfg, s, Read);
    ReadDecides(cfg, s);
    SameDataSteps(cfg, s, Read);
    SameViews(cfg, s, s', kind);
    KindAt(s.pass.stage);
    if kind == STAGES[s.pass.stage] { assert StillToCome(s', kind); }
  }

  lemma ReadDecides(cfg: Config, s: State)
    requires Enabled(cfg, s, Read)
    ensures var s' := Apply(cfg, s, Read);
      && FromCache(cfg, s') && s'.queued == s.queued
      && if CachedInSync(cfg, s, STAGES[s.pass.stage]) then s'.pass == Advance(s, s.pass.stage).pass
         else s'.pass.Writing? && s'.pass.stage == s.pass.stage
  {
  }

  lemma RestlessWrite(cfg: Config, s: State, kind: Kind)
    requires FromCache(cfg, s) && Enabled(cfg, s, Write) && MisledAt(cfg, s, kind) && (s.queued || StillToCome(s, kind))
    ensures Restless(cfg, Apply(cfg, s, Write))
  {
    KindAt(s.pass.stage);
    assert MisledAt(cfg, Apply(cfg, s, Write), kind);
  }

  lemma {:induction false} RestlessRun(cfg: Config, s: State, acts: seq<Action>)
    requires Restless(cfg, s) && CalmRun(cfg, s, acts) && NoDelivery(acts)
    ensures Restless(cfg, EndOf(cfg, s, acts))
    decreases |acts|
  {
    if acts != [] {
      RestlessStep(cfg, s, acts[0]);
      assert acts[0] in acts;
      RestlessRun(cfg, Apply(cfg, s, acts[0]), acts[1..]);
    }
  }

  /** The run ends between passes with no request. */
  ghost predicate ComesToRest(cfg: Config, s: State, acts: seq<Action>) {
    && CalmRun(cfg, s, acts) && NoDelivery(acts)
    && var e := EndOf(cfg, s, acts);
    && e.pass.Idle? && !e.queued
  }

  /** Without events arriving, a requested loop can come to rest exactly when the cache misleads no stage. */
  lemma RestIff(cfg: Config, s: State)
    requires s.pass.Idle? && s.queued
    ensures (exists acts :: ComesToRest(cfg, s, acts)) <==> forall kind :: !MisledAt(cfg, s, kind)
  {
    if forall kind :: !MisledAt(cfg, s, kind) {
      PassRestsIff(cfg, s);
      RestOfPassDeliversNothing(cfg, Apply(cfg, s, Take));
      assert ComesToRest(cfg, s, OnePass(cfg, s));
    } else {
      var kind :| MisledAt(cfg, s, kind);
      assert Restless(cfg, s);
      forall acts | CalmRun(cfg, s, acts) && NoDelivery(acts) ensures !ComesToRest(cfg, s, acts) {
        RestlessRun(cfg, s, acts);
      }
    }
  }

  // --- It happens ---

  lemma ThenRuns(cfg: Config, s: State, a: Action, rest: seq<Action>)
    requires Enabled(cfg, s, a)
    ensures Run(cfg, s, [a] + rest) == Run(cfg, Apply(cfg, s, a), rest)
  {
    assert ([a] + rest)[1..] == rest;
  }

  /** Someone else creates the Service, and the first pass runs before word of it arrives. */
  lemma MisledIsReachable(cfg: Config) returns (s: State)
    ensures Reachable(cfg, s) && s.triggered && s.pass.Idle? && s.queued && MisledAt(cfg, s, Service)
  {
    var s0 := State(map[], 0, map[], map[], false, Idle, false);
    var edit := Edit(Owned(cfg, Service), DesiredService(cfg));
    var s1 := Apply(cfg, s0, edit);
    s := Apply(cfg, s1, KubeVirtEvent);
    ThenRuns(cfg, s0, edit, [KubeVirtEvent] + []);
    ThenRuns(cfg, s1, KubeVirtEvent, []);
    assert Init(s0);
    assert Run(cfg, s0, [edit] + ([KubeVirtEvent] + [])) == Some(s);
  }

  /** Or only a later stage is misled: word of the Service has arrived and word of the Secret has not. */
  lemma MisledLaterIsReachable(cfg: Config) returns (s: State)
    ensures Reachable(cfg, s) && s.triggered && s.pass.Idle? && s.queued
    ensures !MisledAt(cfg, s, Service) && CachedInSync(cfg, s, Service) && MisledAt(cfg, s, Secret)
    ensures CalmRun(cfg, s, OnePass(cfg, s)) && EndOf(cfg, s, OnePass(cfg, s)) == s
  {
    var s0 := State(map[], 0, map[], map[], false, Idle, false);
    var service, secret := Owned(cfg, Service), Owned(cfg, Secret);
    var first, second := Edit(service, DesiredService(cfg)), Edit(secret, DesiredSecret(cfg));
    var s1 := Apply(cfg, s0, first);
    assert Events(s1, service) == [Upsert(s1.api[service])];
    var s2 := Apply(cfg, s1, Deliver(service));
    s := Apply(cfg, s2, second);
    ThenRuns(cfg, s0, first, [Deliver(service)] + ([second] + []));
    ThenRuns(cfg, s1, Deliver(service), [second] + []);
    ThenRuns(cfg, s2, second, []);
    assert Init(s0);
    assert Run(cfg, s0, [first] + ([Deliver(service)] + ([second] + []))) == Some(s);
    assert MisledAt(cfg, s, Secret) && forall k :: StageOf(k) < StageOf(Secret) ==> k == Service;
    CycleIff(cfg, s);
  }
}
