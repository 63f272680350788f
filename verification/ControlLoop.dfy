/** The metrics-resources controller as a level-triggered loop: an API server with versioned
    objects that others edit at will, watch events that arrive late, an informer cache that
    lags behind, one deduplicated request, and a reconcile pass whose reads are stale and whose
    writes can conflict or fail. */
module ControlLoop {
  import opened Collections
  import opened Resources

  datatype Stored = Stored(obj: Object, version: nat)

  datatype WatchEvent = Upsert(stored: Stored) | Gone

  /** The write a sub-reconcile decided on, with the object and version it read. */
  datatype Op = Create | Update(read: Stored)

  /** Between passes; about to read the object of a stage; about to write it. */
  datatype Pass = Idle | Reading(stage: nat) | Writing(stage: nat, op: Op)

  /** `triggered` records that a request has ever been made. */
  datatype State = State(
    api: map<ObjKey, Stored>,
    clock: nat,
    cache: map<ObjKey, Stored>,
    pending: map<ObjKey, seq<WatchEvent>>,
    queued: bool,
    pass: Pass,
    triggered: bool)

  datatype Action =
    | Edit(key: ObjKey, obj: Object)     // anyone else writes an object
    | Remove(key: ObjKey)                // anyone else deletes it
    | KubeVirtEvent                      // a watch event of a KubeVirt object
    | Deliver(key: ObjKey)               // the next watch event of an object arrives
    | Compress(key: ObjKey)              // an event is superseded by the one behind it
    | Take                               // the worker takes the request
    | Read                               // the sub-reconcile reads its object
    | Write                              // it sends its write
    | Fail                               // a read or a write fails for any other reason
    | Lose                               // a write is applied but reported as failed

  const STAGES: seq<Kind> := [Service, Secret, ServiceMonitor]

  function StageOf(kind: Kind): nat {
    match kind case Service => 0 case Secret => 1 case ServiceMonitor => 2
  }

  ghost function Events(s: State, key: ObjKey): seq<WatchEvent> {
    if key in s.pending then s.pending[key] else []
  }

  ghost function Enqueue(s: State): State {
    s.(queued := true, triggered := true)
  }

  /** A sub-reconcile returned without error. */
  ghost function Advance(s: State, stage: nat): State {
    s.(pass := if stage + 1 < |STAGES| then Reading(stage + 1) else Idle)
  }

  /** A sub-reconcile returned an error: the pass ends and the request is queued again. */
  ghost function Abort(s: State): State {
    s.(pass := Idle, queued := true)
  }

  /** The server accepts an object: a new version, and an event to everyone who watches. */
  ghost function Put(s: State, key: ObjKey, obj: Object): State {
    var st := Stored(obj, s.clock + 1);
    s.(api := s.api[key := st], clock := s.clock + 1, pending := s.pending[key := Events(s, key) + [Upsert(st)]])
  }

  /** Create fails on an existing object; update fails on a missing one and on a version that is not the current one. */
  ghost predicate Accepts(cfg: Config, s: State, stage: nat, op: Op)
    requires stage < |STAGES|
  {
    var key := Owned(cfg, STAGES[stage]);
    match op
    case Create => key !in s.api
    case Update(read) => key in s.api && s.api[key].version == read.version
  }

  ghost function Sent(cfg: Config, stage: nat, op: Op): Object
    requires stage < |STAGES|
  {
    match op
    case Create => Desired(cfg, STAGES[stage])
    case Update(read) => Overwrite(cfg, read.obj)
  }

  ghost predicate Enabled(cfg: Config, s: State, a: Action) {
    match a
    case Edit(key, obj) => KindOf(obj) == key.kind
    case Remove(key) => key in s.api
    case KubeVirtEvent => true
    case Deliver(key) => Events(s, key) != []
    case Compress(key) => |Events(s, key)| >= 2
    case Take => s.pass.Idle? && s.queued
    case Read => s.pass.Reading? && s.pass.stage < |STAGES|
    case Write => s.pass.Writing? && s.pass.stage < |STAGES|
    case Fail => s.pass.Reading? || s.pass.Writing?
    case Lose => s.pass.Writing? && s.pass.stage < |STAGES| && Accepts(cfg, s, s.pass.stage, s.pass.op)
  }

  ghost function Arrive(s: State, key: ObjKey): State
    requires Events(s, key) != []
  {
    var e := Events(s, key)[0];
    s.(pending := s.pending[key := Events(s, key)[1..]],
       cache := if e.Upsert? then s.cache[key := e.stored] else s.cache - {key})
  }

  ghost function ReadStage(cfg: Config, s: State, stage: nat): State
    requires stage < |STAGES|
  {
    var key := Owned(cfg, STAGES[stage]);
    if key !in s.cache then s.(pass := Writing(stage, Create))
    else if !InSync(cfg, s.cache[key].obj) then s.(pass := Writing(stage, Update(s.cache[key])))
    else Advance(s, stage)
  }

  ghost function Apply(cfg: Config, s: State, a: Action): State
    requires Enabled(cfg, s, a)
  {
    match a
    case Edit(key, obj) => Put(s, key, obj)
    case Remove(key) => s.(api := s.api - {key}, pending := s.pending[key := Events(s, key) + [Gone]])
    case KubeVirtEvent => Enqueue(s)
    case Deliver(key) => if Enqueues(cfg, key) then Enqueue(Arrive(s, key)) else Arrive(s, key)
    case Compress(key) => s.(pending := s.pending[key := Events(s, key)[1..]])
    case Take => s.(queued := false, pass := Reading(0))
    case Read => ReadStage(cfg, s, s.pass.stage)
    case Write =>
      var stage := s.pass.stage;
      if Accepts(cfg, s, stage, s.pass.op)
      then Advance(Put(s, Owned(cfg, STAGES[stage]), Sent(cfg, stage, s.pass.op)), stage)
      else Abort(s)
    case Fail => Abort(s)
    case Lose => Abort(Put(s, Owned(cfg, STAGES[s.pass.stage]), Sent(cfg, s.pass.stage, s.pass.op)))
  }

  /** The process starts with an empty informer cache and the initial listing under way. */
  ghost predicate Init(s: State) {
    && s.cache == map[] && !s.queued && s.pass.Idle? && !s.triggered
    && s.pending.Keys == s.api.Keys
    && forall k :: k in s.api ==>
         s.pending[k] == [Upsert(s.api[k])] && s.api[k].version <= s.clock && KindOf(s.api[k].obj) == k.kind
  }

  ghost function Run(cfg: Config, s: State, acts: seq<Action>): Option<State>
    decreases |acts|
  {
    if acts == [] then Some(s)
    else if Enabled(cfg, s, acts[0]) then Run(cfg, Apply(cfg, s, acts[0]), acts[1..])
    else None
  }

  ghost predicate Reachable(cfg: Config, s: State) {
    exists s0, acts :: Init(s0) && Run(cfg, s0, acts) == Some(s)
  }

  // --- Invariants ---

  /** Where the informer cache will be once the undelivered events of the key have arrived. */
  ghost function Eventually(s: State, key: ObjKey): Option<Stored> {
    var events := Events(s, key);
    if events == [] then Get(s.cache, key)
    else
      var last := events[|events| - 1];
      if last.Upsert? then Some(last.stored) else None
  }

  /** A copy of an object is of the key's kind, not from the future, and if it has the server's version it is
      the server's object. */
  ghost predicate CopyOk(s: State, key: ObjKey, copy: Stored) {
    && KindOf(copy.obj) == key.kind && copy.version <= s.clock
    && (key in s.api && s.api[key].version == copy.version ==> s.api[key] == copy)
  }

  ghost predicate KeyOk(s: State, key: ObjKey) {
    && (key in s.api ==> CopyOk(s, key, s.api[key]))
    && (key in s.cache ==> CopyOk(s, key, s.cache[key]))
    && (forall i :: 0 <= i < |Events(s, key)| && Events(s, key)[i].Upsert? ==> CopyOk(s, key, Events(s, key)[i].stored))
    && Eventually(s, key) == Get(s.api, key)
  }

  /** An update in flight carries a copy that was out of sync. */
  ghost predicate PassOk(cfg: Config, s: State) {
    && (s.pass.Reading? || s.pass.Writing? ==> s.pass.stage < |STAGES|)
    && (s.pass.Writing? && s.pass.op.Update? ==>
          CopyOk(s, Owned(cfg, STAGES[s.pass.stage]), s.pass.op.read) && !InSync(cfg, s.pass.op.read.obj))
  }

  /** The running pass has still to deal with the kind. */
  ghost predicate StillToCome(s: State, kind: Kind) {
    !s.pass.Idle? && s.pass.stage <= StageOf(kind)
  }

  /** The object of the kind is cached and its managed fields are as desired there. */
  ghost predicate CachedInSync(cfg: Config, s: State, kind: Kind) {
    Owned(cfg, kind) in s.cache && InSync(cfg, s.cache[Owned(cfg, kind)].obj)
  }

  ghost predicate Settled(cfg: Config, s: State, kind: Kind) {
    CachedInSync(cfg, s, kind) || Events(s, Owned(cfg, kind)) != [] || s.queued || StillToCome(s, kind)
  }

  ghost predicate Inv(cfg: Config, s: State) {
    && (forall key :: KeyOk(s, key))
    && PassOk(cfg, s)
    && (s.triggered ==> forall kind :: Settled(cfg, s, kind))
    && (s.queued || !s.pass.Idle? ==> s.triggered)
  }

  /** The server's object of the kind exists and its managed fields are as desired. */
  ghost predicate Converged(cfg: Config, s: State, kind: Kind) {
    Owned(cfg, kind) in s.api && InSync(cfg, s.api[Owned(cfg, kind)].obj)
  }

  lemma InitInv(cfg: Config, s: State)
    requires Init(s)
    ensures Inv(cfg, s)
  {
    forall key ensures KeyOk(s, key) {
    }
  }

  lemma PutKeyOk(s: State, key: ObjKey, obj: Object, k: ObjKey)
    requires KeyOk(s, k) && KindOf(obj) == key.kind
    ensures KeyOk(Put(s, key, obj), k)
  {
    var s' := Put(s, key, obj);
    if k == key {
      assert Events(s', k) == Events(s, k) + [Upsert(s'.api[k])];
    } else {
      assert Events(s', k) == Events(s, k) && Get(s'.api, k) == Get(s.api, k);
    }
  }

  lemma RemoveKeyOk(cfg: Config, s: State, key: ObjKey, k: ObjKey)
    requires KeyOk(s, k) && key in s.api
    ensures KeyOk(Apply(cfg, s, Remove(key)), k)
  {
    var s' := Apply(cfg, s, Remove(key));
    if k == key {
      assert Events(s', k) == Events(s, k) + [Gone];
    } else {
      assert Events(s', k) == Events(s, k) && Get(s'.api, k) == Get(s.api, k);
    }
  }

  lemma ArriveKeyOk(s: State, key: ObjKey, k: ObjKey)
    requires KeyOk(s, k) && Events(s, key) != []
    ensures KeyOk(Arrive(s, key), k)
  {
    var s' := Arrive(s, key);
    if k == key {
      assert Events(s', k) == Events(s, k)[1..];
    } else {
      assert Events(s', k) == Events(s, k) && Get(s'.cache, k) == Get(s.cache, k);
    }
  }

  lemma CompressKeyOk(cfg: Config, s: State, key: ObjKey, k: ObjKey)
    requires KeyOk(s, k) && |Events(s, key)| >= 2
    ensures KeyOk(Apply(cfg, s, Compress(key)), k)
  {
    var s' := Apply(cfg, s, Compress(key));
    if k == key {
      assert Events(s', k) == Events(s, k)[1..];
    } else {
      assert Events(s', k) == Events(s, k);
    }
  }

  /** Two states that differ in the request and the pass only. */
  ghost predicate SameData(s: State, s': State) {
    s'.api == s.api && s'.clock == s.clock && s'.cache == s.cache && s'.pending == s.pending
  }

  lemma SameDataKeyOk(s: State, s': State, k: ObjKey)
    requires KeyOk(s, k) && SameData(s, s')
    ensures KeyOk(s', k)
  {
  }

  lemma StepKeyOk(cfg: Config, s: State, a: Action, k: ObjKey)
    requires PassOk(cfg, s) && KeyOk(s, k) && Enabled(cfg, s, a)
    ensures KeyOk(Apply(cfg, s, a), k)
  {
    if a.Edit? {
      PutKeyOk(s, a.key, a.obj, k);
    } else if a.Remove? {
      RemoveKeyOk(cfg, s, a.key, k);
    } else if a.Deliver? {
      ArriveKeyOk(s, a.key, k);
      SameDataKeyOk(Arrive(s, a.key), Apply(cfg, s, a), k);
    } else if a.Compress? {
      CompressKeyOk(cfg, s, a.key, k);
    } else if (a.Write? && Accepts(cfg, s, s.pass.stage, s.pass.op)) || a.Lose? {
      SentPut(cfg, s, k);
    } else {
      SameDataSteps(cfg, s, a);
      SameDataKeyOk(s, Apply(cfg, s, a), k);
    }
  }

  lemma SameDataSteps(cfg: Config, s: State, a: Action)
    requires Enabled(cfg, s, a)
    requires a.KubeVirtEvent? || a.Take? || a.Read? || a.Fail?
      || (a.Write? && s.pass.stage < |STAGES| && !Accepts(cfg, s, s.pass.stage, s.pass.op))
    ensures SameData(s, Apply(cfg, s, a))
  {
    if a.Read? {
      ReadSameData(cfg, s, s.pass.stage);
      assert Apply(cfg, s, a) == ReadStage(cfg, s, s.pass.stage);
    } else if a.Write? {
      assert Apply(cfg, s, a) == Abort(s);
    }
  }

  lemma ReadSameData(cfg: Config, s: State, stage: nat)
    requires stage < |STAGES|
    ensures SameData(s, ReadStage(cfg, s, stage))
  {
  }

  lemma SentPut(cfg: Config, s: State, k: ObjKey)
    requires PassOk(cfg, s) && KeyOk(s, k) && s.pass.Writing?
    ensures var stage := s.pass.stage;
      var s1 := Put(s, Owned(cfg, STAGES[stage]), Sent(cfg, stage, s.pass.op));
      KeyOk(s1, k) && KeyOk(Advance(s1, stage), k) && KeyOk(Abort(s1), k)
  {
    var stage := s.pass.stage;
    var key := Owned(cfg, STAGES[stage]);
    PutKeyOk(s, key, Sent(cfg, stage, s.pass.op), k);
    var s1 := Put(s, key, Sent(cfg, stage, s.pass.op));
    SameDataKeyOk(s1, Advance(s1, stage), k);
    SameDataKeyOk(s1, Abort(s1), k);
  }

  /** A copy stays good: versions of later writes are new. */
  lemma CopyKept(cfg: Config, s: State, a: Action, key: ObjKey, copy: Stored)
    requires CopyOk(s, key, copy) && Enabled(cfg, s, a)
    ensures CopyOk(Apply(cfg, s, a), key, copy)
  {
  }

  lemma StepPassOk(cfg: Config, s: State, a: Action)
    requires Inv(cfg, s) && Enabled(cfg, s, a)
    ensures PassOk(cfg, Apply(cfg, s, a))
  {
    if a.Read? {
      assert KeyOk(s, Owned(cfg, STAGES[s.pass.stage]));
    } else {
      PassOkOther(cfg, s, a);
    }
  }

  lemma PassOkOther(cfg: Config, s: State, a: Action)
    requires PassOk(cfg, s) && Enabled(cfg, s, a) && !a.Read?
    ensures PassOk(cfg, Apply(cfg, s, a))
  {
    var s' := Apply(cfg, s, a);
    if s'.pass.Writing? && s'.pass.op.Update? {
      assert s'.pass == s.pass;
      CopyKept(cfg, s, a, Owned(cfg, STAGES[s'.pass.stage]), s'.pass.op.read);
    }
  }

  lemma StepSettled(cfg: Config, s: State, a: Action, kind: Kind)
    requires PassOk(cfg, s) && Enabled(cfg, s, a)
    requires s.triggered ==> Settled(cfg, s, kind)
    requires s.queued || !s.pass.Idle? ==> s.triggered
    ensures Apply(cfg, s, a).triggered ==> Settled(cfg, Apply(cfg, s, a), kind)
  {
    if a.Deliver? {
      SettledDeliver(cfg, s, a.key, kind);
    } else if a.Read? {
      SettledRead(cfg, s, kind);
    } else if a.Write? || a.Lose? {
      SettledWrite(cfg, s, a, kind);
    } else {
      SettledOther(cfg, s, a, kind);
    }
  }

  lemma SettledDeliver(cfg: Config, s: State, key: ObjKey, kind: Kind)
    requires Enabled(cfg, s, Deliver(key)) && (s.triggered ==> Settled(cfg, s, kind))
    ensures Apply(cfg, s, Deliver(key)).triggered ==> Settled(cfg, Apply(cfg, s, Deliver(key)), kind)
  {
    if key == Owned(cfg, kind) { EnqueuesOwnedOnly(cfg, key); }
  }

  lemma SettledRead(cfg: Config, s: State, kind: Kind)
    requires Enabled(cfg, s, Read) && Settled(cfg, s, kind)
    ensures Settled(cfg, Apply(cfg, s, Read), kind)
  {
    assert STAGES[StageOf(kind)] == kind;
  }

  lemma SettledWrite(cfg: Config, s: State, a: Action, kind: Kind)
    requires Enabled(cfg, s, a) && (a.Write? || a.Lose?) && Settled(cfg, s, kind)
    ensures Settled(cfg, Apply(cfg, s, a), kind)
  {
    assert STAGES[StageOf(kind)] == kind;
  }

  lemma SettledOther(cfg: Config, s: State, a: Action, kind: Kind)
    requires Enabled(cfg, s, a) && !a.Deliver? && !a.Read? && !a.Write? && !a.Lose?
    requires s.triggered ==> Settled(cfg, s, kind)
    requires s.queued || !s.pass.Idle? ==> s.triggered
    ensures Apply(cfg, s, a).triggered ==> Settled(cfg, Apply(cfg, s, a), kind)
  {
  }

  lemma StepInv(cfg: Config, s: State, a: Action)
    requires Inv(cfg, s) && Enabled(cfg, s, a)
    ensures Inv(cfg, Apply(cfg, s, a))
  {
    var s' := Apply(cfg, s, a);
    forall key ensures KeyOk(s', key) {
      assert KeyOk(s, key);
      StepKeyOk(cfg, s, a, key);
    }
    StepPassOk(cfg, s, a);
    if s'.triggered {
      forall kind ensures Settled(cfg, s', kind) {
        StepSettled(cfg, s, a, kind);
      }
    }
  }

  lemma {:induction false} RunInv(cfg: Config, s: State, acts: seq<Action>)
    requires Inv(cfg, s) && Run(cfg, s, acts).Some?
    ensures Inv(cfg, Run(cfg, s, acts).value)
    decreases |acts|
  {
    if acts != [] {
      StepInv(cfg, s, acts[0]);
      RunInv(cfg, Apply(cfg, s, acts[0]), acts[1..]);
    }
  }

  lemma ReachableInv(cfg: Config, s: State)
    requires Reachable(cfg, s)
    ensures Inv(cfg, s)
  {
    var s0, acts :| Init(s0) && Run(cfg, s0, acts) == Some(s);
    InitInv(cfg, s0);
    RunInv(cfg, s0, acts);
  }

  // --- What holds of every run ---

  /** Level-triggered safety: once a first request has been made, each owned object is as desired, or an
      event of it has not arrived yet, or a request is queued, or the running pass has still to deal with it. */
  lemma LevelTriggered(cfg: Config, s: State, kind: Kind)
    requires Reachable(cfg, s) && s.triggered
    ensures Converged(cfg, s, kind) || Events(s, Owned(cfg, kind)) != [] || s.queued || StillToCome(s, kind)
  {
    ReachableInv(cfg, s);
    assert Settled(cfg, s, kind);
    assert KeyOk(s, Owned(cfg, kind));
  }

  /** Nothing is left to do: no request, no pass, no undelivered event of an owned object. */
  ghost predicate Quiescent(cfg: Config, s: State) {
    !s.queued && s.pass.Idle? && forall kind :: Events(s, Owned(cfg, kind)) == []
  }

  ghost function Objects(api: map<ObjKey, Stored>): map<ObjKey, Object> {
    map k | k in api :: api[k].obj
  }

  /** Converged is as configured, wherever the invariant holds. */
  lemma ConvergedIff(cfg: Config, s: State, kind: Kind)
    requires Inv(cfg, s)
    ensures Converged(cfg, s, kind) <==> AsConfigured(cfg, kind, Objects(s.api))
  {
    forall k | k in Objects(s.api) ensures KindOf(Objects(s.api)[k]) == k.kind {
      assert KeyOk(s, k);
    }
    InSyncIff(cfg, kind, Objects(s.api));
  }

  lemma QuiescentIsConverged(cfg: Config, s: State)
    requires Reachable(cfg, s) && s.triggered && Quiescent(cfg, s)
    ensures forall kind :: Converged(cfg, s, kind) && AsConfigured(cfg, kind, Objects(s.api))
  {
    ReachableInv(cfg, s);
    forall kind ensures Converged(cfg, s, kind) && AsConfigured(cfg, kind, Objects(s.api)) {
      LevelTriggered(cfg, s, kind);
      ConvergedIff(cfg, s, kind);
    }
  }

  /** From `api` to `api'` at most the object of `key` changed: it was missing and is the desired one now, or
      it was out of sync and its managed fields, and nothing else of it, are the desired ones now; of a Secret
      the whole annotation map counts as managed, so it has kept foreign annotations only if it had none. */
  ghost predicate ManagedChange(cfg: Config, key: ObjKey, api: map<ObjKey, Stored>, api': map<ObjKey, Stored>) {
    && api' - {key} == api - {key}
    && (api' == api || (
          && key in api'
          && if key !in api then api'[key].obj == Desired(cfg, key.kind)
             else && !InSync(cfg, api[key].obj)
                  && api'[key].obj == Overwrite(cfg, api[key].obj)
                  && api'[key].obj.rest == api[key].obj.rest
                  && (Foreign(api'[key].obj) == Foreign(api[key].obj) <==> Foreign(api[key].obj) == map[])))
  }

  /** No lost update, and nothing but managed fields: whatever the pass read and however long ago, a write the
      server accepts either creates the missing object or changes the managed fields of the object the server
      has at that moment; no other object changes. */
  lemma WritesOnlyManagedFields(cfg: Config, s: State, a: Action)
    requires Reachable(cfg, s) && Enabled(cfg, s, a) && (a.Write? || a.Lose?)
    ensures ManagedChange(cfg, Owned(cfg, STAGES[s.pass.stage]), s.api, Apply(cfg, s, a).api)
  {
    ReachableInv(cfg, s);
    AcceptedChange(cfg, s);
  }

  lemma AcceptedChange(cfg: Config, s: State)
    requires PassOk(cfg, s) && s.pass.Writing?
    ensures var key := Owned(cfg, STAGES[s.pass.stage]);
      Accepts(cfg, s, s.pass.stage, s.pass.op) ==>
        ManagedChange(cfg, key, s.api, Put(s, key, Sent(cfg, s.pass.stage, s.pass.op)).api)
  {
    if s.pass.op.Update? && Accepts(cfg, s, s.pass.stage, s.pass.op) {
      UpdateChange(cfg, s, Owned(cfg, STAGES[s.pass.stage]));
    }
  }

  /** Overwriting what the server has now. */
  lemma UpdateChange(cfg: Config, s: State, key: ObjKey)
    requires key in s.api && !InSync(cfg, s.api[key].obj)
    ensures ManagedChange(cfg, key, s.api, Put(s, key, Overwrite(cfg, s.api[key].obj)).api)
  {
    OverwriteSyncs(cfg, s.api[key].obj);
  }
}
