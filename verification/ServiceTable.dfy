/** The event loop's service table, sharded over the workers by key. */
module ServiceTable {
  import opened Runs
  import opened TaskRuntime
  import Schedule

  /** A table operation waiting on worker `i` belongs to `i`'s shard and did not come from `i`. */
  predicate Routed(t: Task, i: nat, n: nat)
    requires n > 0
  {
    t.Config? ==> Owner(t.op, n) == i && t.op.key % n == i && t.caller != OnWorker(i)
  }

  ghost predicate FrameOk(f: Frame, x: Worker, i: nat, n: nat)
    requires n > 0
  {
    f.InDelete? ==> f.cfg.Config? && f.cfg.op.Del? && f.cfg.op.key % n == i && f.cfg.op.key in x.services
  }

  ghost predicate ShardOk(x: Worker, i: nat, n: nat)
    requires n > 0
  {
    && (forall t :: t in Pending(x) ==> Routed(t, i, n))
    && (forall f :: f in x.stack ==> FrameOk(f, x, i, n))
    && (forall a, b :: 0 <= a < b < |x.stack| && x.stack[a].InDelete? && x.stack[b].InDelete? ==>
          x.stack[a].cfg.Config? && x.stack[b].cfg.Config? && x.stack[a].cfg.op.key != x.stack[b].cfg.op.key)
  }

  /** Shard `i` is the part of the flat map whose keys are scheduled to `i`. */
  ghost predicate ShardOfFlat(x: Worker, flat: map<nat, Service>, i: nat, n: nat)
    requires n > 0
  {
    && (forall k :: k in x.services ==> k % n == i && k in flat && flat[k] == x.services[k])
    && (forall k :: k in flat && k % n == i ==> k in x.services)
  }

  ghost predicate TableInv(s: Runtime) {
    && |s.workers| > 0
    && (forall i :: 0 <= i < |s.workers| ==> ShardOk(s.workers[i], i, |s.workers|))
    && (forall i :: 0 <= i < |s.workers| ==> ShardOfFlat(s.workers[i], s.flat, i, |s.workers|))
  }

  /** Below 2^63 all four operations on a key go to the worker its remainder names. */
  lemma OwnerIsRemainder(op: Op, n: nat)
    requires n > 0 && op.key < Schedule.U63
    ensures Owner(op, n) == op.key % n
  {
    Schedule.SameWorkerIff(op.key, n);
  }

  lemma SendKeepsTable(s: Runtime, w: nat, t: Task)
    requires w < |s.workers| && TableInv(s) && Routed(t, w, |s.workers|)
    ensures TableInv(Send(s, w, t))
  {
    var x, y := s.workers[w], Accept(s.workers[w], t);
    assert Pending(y) == Pending(x) + [t];
    forall f | f in y.stack ensures FrameOk(f, y, w, |s.workers|) {
      assert FrameOk(f, x, w, |s.workers|);
    }
  }

  /** What a worker may begin: a task that is no table operation, or one of its own shard. */
  predicate MayBegin(t: Task, i: nat, n: nat)
    requires n > 0
  {
    t.Config? ==> t.op.key % n == i
  }

  lemma BeginKeepsFrames(s: Runtime, w: nat, t: Task)
    requires w < |s.workers| && ShardOk(s.workers[w], w, |s.workers|)
    requires MayBegin(t, w, |s.workers|) && Begin(s, w, t).Some?
    ensures ShardOk(Begin(s, w, t).value.workers[w], w, |s.workers|)
  {
    var n := |s.workers|;
    var x, y := s.workers[w], Begin(s, w, t).value.workers[w];
    assert Pending(y) == Pending(x);
    forall f | f in y.stack ensures FrameOk(f, y, w, n) {
      if f in x.stack { assert FrameOk(f, x, w, n); }
    }
    forall a | 0 <= a < |x.stack| && x.stack[a].InDelete? && t.Config? && t.op.Del?
      ensures x.stack[a].cfg.Config? && x.stack[a].cfg.op.key != t.op.key
    {
      assert x.stack[a] in x.stack;
      assert FrameOk(x.stack[a], x, w, n);
    }
  }

  lemma BeginKeepsTable(s: Runtime, w: nat, t: Task)
    requires w < |s.workers| && TableInv(s)
    requires MayBegin(t, w, |s.workers|) && Begin(s, w, t).Some?
    ensures TableInv(Begin(s, w, t).value)
  {
    var n, r := |s.workers|, Begin(s, w, t).value;
    BeginKeepsFrames(s, w, t);
    BeginFrame(s, w, t);
    forall i | 0 <= i < n ensures ShardOfFlat(r.workers[i], r.flat, i, n) {
      assert ShardOfFlat(s.workers[i], s.flat, i, n);
    }
  }

  lemma ReturnKeepsFrames(s: Runtime, w: nat)
    requires w < |s.workers| && ShardOk(s.workers[w], w, |s.workers|) && ReturnFrom(s, w).Some?
    ensures ShardOk(ReturnFrom(s, w).value.workers[w], w, |s.workers|)
  {
    var n := |s.workers|;
    var x, y := s.workers[w], ReturnFrom(s, w).value.workers[w];
    var last := |x.stack| - 1;
    assert Pending(y) == Pending(x);
    assert x.stack[last] in x.stack;
    forall f | f in y.stack ensures FrameOk(f, y, w, n) {
      var a :| 0 <= a < last && x.stack[a] == f;
      assert f in x.stack;
      assert FrameOk(f, x, w, n);
      if x.stack[last].InDelete? && f.InDelete? {
        assert x.stack[a].cfg.op.key != x.stack[last].cfg.op.key;
      }
    }
  }

  lemma ReturnKeepsTable(s: Runtime, w: nat)
    requires TableInv(s) && Step(s, ReturnTop(w)).Some?
    ensures TableInv(Step(s, ReturnTop(w)).value)
  {
    var n, r := |s.workers|, Step(s, ReturnTop(w)).value;
    assert ShardOk(s.workers[w], w, n);
    assert r.workers == s.workers[w := r.workers[w]];
    forall i | 0 <= i < n ensures ShardOk(r.workers[i], i, n) {
      if i == w { ReturnKeepsFrames(s, w); }
    }
    forall i | 0 <= i < n ensures ShardOfFlat(r.workers[i], r.flat, i, n) {
      ReturnKeepsFlat(s, w, i);
    }
  }

  lemma ReturnKeepsFlat(s: Runtime, w: nat, i: nat)
    requires w < |s.workers| && i < |s.workers| && ReturnFrom(s, w).Some?
    requires ShardOk(s.workers[w], w, |s.workers|) && ShardOfFlat(s.workers[i], s.flat, i, |s.workers|)
    ensures ShardOfFlat(ReturnFrom(s, w).value.workers[i], ReturnFrom(s, w).value.flat, i, |s.workers|)
  {
    var x := s.workers[w];
    assert x.stack[|x.stack| - 1] in x.stack;
    assert FrameOk(x.stack[|x.stack| - 1], x, w, |s.workers|);
  }

  lemma StartNextKeepsTable(s: Runtime, w: nat)
    requires TableInv(s) && Step(s, StartNext(w)).Some?
    ensures TableInv(Step(s, StartNext(w)).value)
  {
    var x, n := s.workers[w], |s.workers|;
    var t, y := x.batch[0], Taken(s.workers[w]);
    assert x.batch == [t] + x.batch[1..];
    assert Pending(x) == [t] + Pending(y);
    assert t in Pending(x);
    assert forall u :: u in Pending(y) ==> u in Pending(x);
    BeginKeepsTable(Put(s, w, y), w, t);
  }

  lemma RequeueKeepsTable(s: Runtime, w: nat)
    requires TableInv(s) && Step(s, Requeue(w)).Some?
    ensures TableInv(Step(s, Requeue(w)).value)
  {
    var x, n := s.workers[w], |s.workers|;
    var y := Requeued(x);
    assert Pending(y) == Pending(x);
    forall f | f in y.stack ensures FrameOk(f, y, w, n) {
      if f in x.stack { assert FrameOk(f, x, w, n); }
    }
    assert ShardOk(y, w, n);
    SendKeepsTable(Put(s, w, y), w, Pump);
  }

  lemma IssueKeepsTable(s: Runtime, caller: Thread, op: Op)
    requires TableInv(s) && Step(s, Issue(caller, op)).Some?
    ensures TableInv(Step(s, Issue(caller, op)).value)
  {
    var w, t := Owner(op, |s.workers|), Config(caller, op);
    var s1 := Noted(s, caller, op);
    OwnerIsRemainder(op, |s.workers|);
    if caller == OnWorker(w) { BeginKeepsTable(s1, w, t); } else { SendKeepsTable(s1, w, t); }
  }

  lemma LoopStepKeepsTable(s: Runtime, w: nat, e: Event)
    requires w < |s.workers| && QueueInv(s) && TableInv(s) && LoopStep(s.workers[w], s.exit, e).Some?
    ensures TableInv(Put(s, w, LoopStep(s.workers[w], s.exit, e).value))
  {
    var x := s.workers[w];
    var y := LoopStep(x, s.exit, e).value;
    LoopStepKeepsQueue(x, s.exit, e);
    assert ShardOk(x, w, |s.workers|) && ShardOfFlat(x, s.flat, w, |s.workers|);
    assert x.stack == [];
  }

  lemma StepKeepsTable(s: Runtime, e: Event)
    requires QueueInv(s) && TableInv(s) && Step(s, e).Some?
    ensures TableInv(Step(s, e).value)
  {
    var n := |s.workers|;
    match e {
      case AddTask(_, id, index) => SendKeepsTable(s, Clamp(n, index), User(id));
      case AddTaskAsap(caller, id, index) =>
        var w := Clamp(n, index);
        if caller == OnWorker(w) { BeginKeepsTable(s, w, User(id)); } else { SendKeepsTable(s, w, User(id)); }
      case Issue(caller, op) => IssueKeepsTable(s, caller, op);
      case StartPump => SendKeepsTable(s, s.started, Pump);
      case SetExit =>
      case StartNext(w) => StartNextKeepsTable(s, w);
      case Requeue(w) => RequeueKeepsTable(s, w);
      case ReturnTop(w) => ReturnKeepsTable(s, w);
      case _ => LoopStepKeepsTable(s, e.w, e);
    }
  }

  // ----- what the effects amount to -----

  /** What an operation means for a table. */
  function ApplyOp(m: map<nat, Service>, op: Op): map<nat, Service> {
    match op
    case Add(k, v) => m[k := v]
    case Mod(k, v) => m[k := v]
    case Del(k) => m - {k}
    case Find(_) => m
  }

  /** One table with the effects applied to it in order. */
  function Replay(effects: seq<Task>): map<nat, Service> {
    if effects == [] then map[]
    else
      var m, t := Replay(effects[..|effects| - 1]), effects[|effects| - 1];
      if t.Config? then ApplyOp(m, t.op) else m
  }

  /** The effect stores, replaces or removes the service of the key. */
  ghost predicate Writes(t: Task, key: nat) {
    t.Config? && t.op.key == key && !t.op.Find?
  }

  /** The last effect that writes a key decides: its service is in the table, or none if it deletes. */
  lemma {:induction false} LastWriteWins(effects: seq<Task>, key: nat, j: nat)
    requires j < |effects| && Writes(effects[j], key)
    requires forall k :: j < k < |effects| ==> !Writes(effects[k], key)
    ensures key in Replay(effects) <==> !effects[j].op.Del?
    ensures !effects[j].op.Del? ==> Replay(effects)[key] == effects[j].op.service
    decreases |effects|
  {
    var before := effects[..|effects| - 1];
    if j < |before| {
      assert forall k :: j < k < |before| ==> before[k] == effects[k];
      LastWriteWins(before, key, j);
    }
  }

  /** A key that no effect writes is not in the table. */
  lemma {:induction false} UnwrittenIsAbsent(effects: seq<Task>, key: nat)
    requires forall k :: 0 <= k < |effects| ==> !Writes(effects[k], key)
    ensures key !in Replay(effects)
    decreases |effects|
  {
    if effects != [] {
      var before := effects[..|effects| - 1];
      assert forall k :: 0 <= k < |before| ==> before[k] == effects[k];
      UnwrittenIsAbsent(before, key);
    }
  }

  /** The effect at `f.at` is a find of `f.key`, and `f.result` is what the table held there. */
  ghost predicate FoundOk(f: Finding, effects: seq<Task>) {
    && f.at < |effects| && effects[f.at].Config? && effects[f.at].op == Find(f.key)
    && f.result == Lookup(Replay(effects[..f.at]), f.key)
  }

  /** The flat map is the replay of the effects, and the findings are those of the finds among them,
      each once and in order. */
  ghost predicate ReplayInv(s: Runtime) {
    && s.flat == Replay(s.effects)
    && (forall f :: f in s.found <==> FoundOk(f, s.effects))
    && (forall i, j :: 0 <= i < j < |s.found| ==> s.found[i].at < s.found[j].at)
  }

  /** One more effect makes no other finding than its own. */
  lemma FoundAfter(effects: seq<Task>, t: Task, f: Finding)
    ensures FoundOk(f, effects + [t]) <==>
            FoundOk(f, effects)
            || (t.Config? && t.op.Find? && f == Finding(|effects|, t.op.key, Lookup(Replay(effects), t.op.key)))
  {
    var more := effects + [t];
    assert f.at <= |effects| ==> more[..f.at] == effects[..f.at];
    assert effects[..|effects|] == effects;
  }

  /** One more effect changes the flat map as it changes the replay, and no earlier finding. */
  lemma OneMoreEffect(s: Runtime, r: Runtime, t: Task)
    requires t.Config? && ReplayInv(s) && r.effects == s.effects + [t]
    requires r.found == s.found + if t.op.Find? then [Finding(|s.effects|, t.op.key, Lookup(s.flat, t.op.key))] else []
    requires r.flat == ApplyOp(s.flat, t.op)
    ensures ReplayInv(r)
  {
    assert r.effects[..|s.effects|] == s.effects;
    forall f ensures f in r.found <==> FoundOk(f, r.effects) {
      FoundAfter(s.effects, t, f);
    }
    forall i | 0 <= i < |s.found| ensures s.found[i].at < |s.effects| {
      assert s.found[i] in s.found;
    }
  }

  lemma BeginKeepsReplay(s: Runtime, w: nat, t: Task)
    requires w < |s.workers| && ReplayInv(s) && Begin(s, w, t).Some? && MayBegin(t, w, |s.workers|)
    requires ShardOfFlat(s.workers[w], s.flat, w, |s.workers|)
    ensures ReplayInv(Begin(s, w, t).value)
  {
    if t.Config? && !t.op.Del? {
      assert Lookup(s.workers[w].services, t.op.key) == Lookup(s.flat, t.op.key);
      OneMoreEffect(s, Begin(s, w, t).value, t);
    }
  }

  lemma ReturnKeepsReplay(s: Runtime, w: nat)
    requires w < |s.workers| && ReplayInv(s) && ReturnFrom(s, w).Some?
    ensures ReplayInv(ReturnFrom(s, w).value)
  {
    var top := s.workers[w].stack[|s.workers[w].stack| - 1];
    if top.InDelete? {
      OneMoreEffect(s, ReturnFrom(s, w).value, top.cfg);
    }
  }

  lemma IssueKeepsReplay(s: Runtime, caller: Thread, op: Op)
    requires TableInv(s) && ReplayInv(s) && op.key < Schedule.U63 && IssueOp(s, caller, op).Some?
    ensures ReplayInv(IssueOp(s, caller, op).value)
  {
    var w := Owner(op, |s.workers|);
    OwnerIsRemainder(op, |s.workers|);
    if caller == OnWorker(w) { BeginKeepsReplay(Noted(s, caller, op), w, Config(caller, op)); }
  }

  lemma StartNextKeepsReplay(s: Runtime, w: nat)
    requires TableInv(s) && ReplayInv(s) && Step(s, StartNext(w)).Some?
    ensures ReplayInv(Step(s, StartNext(w)).value)
  {
    var x := s.workers[w];
    assert x.batch[0] in Pending(x) && ShardOk(x, w, |s.workers|);
    assert ShardOfFlat(x, s.flat, w, |s.workers|);
    BeginKeepsReplay(Put(s, w, Taken(x)), w, x.batch[0]);
  }

  lemma StepKeepsReplay(s: Runtime, e: Event)
    requires TableInv(s) && ReplayInv(s) && Step(s, e).Some?
    ensures ReplayInv(Step(s, e).value)
  {
    match e {
      case AddTaskAsap(caller, id, index) =>
        var w := Clamp(|s.workers|, index);
        if caller == OnWorker(w) { BeginKeepsReplay(s, w, User(id)); }
      case Issue(caller, op) => IssueKeepsReplay(s, caller, op);
      case StartNext(w) => StartNextKeepsReplay(s, w);
      case ReturnTop(w) => ReturnKeepsReplay(s, w);
      case _ =>
    }
  }

  // ----- whole runs -----

  ghost predicate Inv(s: Runtime) {
    QueueInv(s) && TableInv(s) && ReplayInv(s)
  }

  lemma AlwaysInv(n: nat, es: seq<Event>)
    requires n > 0
    ensures var r := Exec(Step, NewRuntime(n), es); r.Some? ==> Inv(r.value)
  {
    forall x: Runtime, e: Event | Inv(x) && Step(x, e).Some? ensures Inv(Step(x, e).value) {
      StepKeepsQueue(x, e);
      StepKeepsTable(x, e);
      StepKeepsReplay(x, e);
    }
    InvariantOverRun(Step, Inv, NewRuntime(n), es);
  }

  /** In every reachable state the shards together are one flat map, the one obtained by applying the
      operations to a single table in the order of their effects: a key is in the flat map
      exactly when it is in the shard its remainder names, with the same service, and in no other. */
  lemma ShardsAreOneFlatMap(n: nat, es: seq<Event>, s: Runtime, key: nat)
    requires n > 0 && Exec(Step, NewRuntime(n), es) == Some(s)
    ensures |s.workers| == n && s.flat == Replay(s.effects)
    ensures key in s.flat <==> key in s.workers[key % n].services
    ensures key in s.flat ==> s.flat[key] == s.workers[key % n].services[key]
    ensures forall i :: 0 <= i < n && key in s.workers[i].services ==> i == key % n
  {
    AlwaysInv(n, es);
    RunGrows(NewRuntime(n), es);
    forall i | 0 <= i < n ensures ShardOfFlat(s.workers[i], s.flat, i, n) {
    }
  }

  /** Every find that took effect, and nothing else, has passed its callback once what the single
      table held at that point. */
  lemma FindSeesFlatMap(n: nat, es: seq<Event>, s: Runtime, at: nat, key: nat, result: Option<Service>)
    requires n > 0 && Exec(Step, NewRuntime(n), es) == Some(s)
    ensures Finding(at, key, result) in s.found <==>
            && at < |s.effects| && s.effects[at].Config? && s.effects[at].op == Find(key)
            && result == Lookup(Replay(s.effects[..at]), key)
    ensures forall i, j :: 0 <= i < j < |s.found| ==> s.found[i].at < s.found[j].at
  {
    AlwaysInv(n, es);
    assert Finding(at, key, result) in s.found <==> FoundOk(Finding(at, key, result), s.effects);
  }

  /** The worker whose thread performs an event, if it is a worker's. */
  function Actor(e: Event): Option<nat> {
    match e
    case AddTask(OnWorker(i), _, _) => Some(i)
    case AddTaskAsap(OnWorker(i), _, _) => Some(i)
    case Issue(OnWorker(i), _) => Some(i)
    case AddTask(_, _, _) => None
    case AddTaskAsap(_, _, _) => None
    case Issue(_, _) => None
    case StartPump => None
    case SetExit => None
    case _ => Some(e.w)
  }

  /** A shard is changed only by its own worker. */
  lemma ShardChangedOnlyByOwner(s: Runtime, e: Event, i: nat)
    requires Step(s, e).Some? && i < |s.workers|
    ensures |Step(s, e).value.workers| == |s.workers|
    ensures Step(s, e).value.workers[i].services != s.workers[i].services ==> Actor(e) == Some(i)
  {
    match e {
      case StartNext(w) => BeginFrame(Put(s, w, Taken(s.workers[w])), w, s.workers[w].batch[0]);
      case Issue(caller, op) => IssueTouchesOwnShard(s, caller, op);
      case _ =>
    }
  }

  lemma IssueTouchesOwnShard(s: Runtime, caller: Thread, op: Op)
    requires |s.workers| > 0 && IssueOp(s, caller, op).Some?
    ensures var r := IssueOp(s, caller, op).value;
            && |r.workers| == |s.workers|
            && forall i :: 0 <= i < |s.workers| && r.workers[i].services != s.workers[i].services ==> caller == OnWorker(i)
  {
    var w, t := Owner(op, |s.workers|), Config(caller, op);
    if caller == OnWorker(w) { BeginFrame(Noted(s, caller, op), w, t); }
  }

  /** An operation that a worker's own task makes on its own shard never waits in its queue. */
  lemma OwnCallsNeverWait(n: nat, es: seq<Event>, s: Runtime, w: nat, op: Op)
    requires n > 0 && Exec(Step, NewRuntime(n), es) == Some(s) && w < |s.workers|
    ensures Config(OnWorker(w), op) !in s.workers[w].batch + s.workers[w].front + s.workers[w].tail
  {
    AlwaysInv(n, es);
    assert ShardOk(s.workers[w], w, |s.workers|) && !Routed(Config(OnWorker(w), op), w, |s.workers|);
  }

  /** The worker's next task is a deletion of a service it does not have. */
  ghost predicate NextIsUndefined(x: Worker) {
    && x.pc.Running? && x.stack == [] && x.batch != []
    && x.batch[0].Config? && x.batch[0].op.Del? && x.batch[0].op.key !in x.services
  }

  /** In every reachable state a worker that has not left its loop can make a step of its own if and
      only if its next task is not the deletion of an absent service, which is undefined in the source. */
  lemma WorkerNeverStuck(n: nat, es: seq<Event>, s: Runtime, w: nat)
    requires n > 0 && Exec(Step, NewRuntime(n), es) == Some(s) && w < |s.workers| && !s.workers[w].pc.Exited?
    ensures (exists e :: e in OwnSteps(w) && Step(s, e).Some?) <==> !NextIsUndefined(s.workers[w])
  {
    AlwaysInv(n, es);
    var x := s.workers[w];
    assert ShardOk(x, w, |s.workers|) && QueueOk(x);
    if !NextIsUndefined(x) {
      var e := NextStep(x, w);
      if x.stack != [] {
        var top := x.stack[|x.stack| - 1];
        assert top in x.stack && FrameOk(top, x, w, |s.workers|);
      }
      assert e in OwnSteps(w) && Step(s, e).Some?;
    }
  }

  /** The events of worker `w`'s own thread that are not calls made by a task. */
  function OwnSteps(w: nat): set<Event> {
    {Loop(w), Poll(w), AfterSwap(w), StartNext(w), EndBatch(w), Requeue(w), ReturnTop(w)}
  }

  function NextStep(x: Worker, w: nat): (e: Event)
    ensures e in OwnSteps(w)
  {
    match x.pc
    case LoopHead => Loop(w)
    case Polling => Poll(w)
    case Swapped => AfterSwap(w)
    case _ =>
      if x.stack == [] then (if x.batch == [] then EndBatch(w) else StartNext(w))
      else if x.stack[|x.stack| - 1] == InPump(false) then Requeue(w)
      else ReturnTop(w)
  }

  // ----- the tasks as they are coded -----

  /** One worker's shard, with the bodies of the four tasks that work on it. */
  class Shard {
    var services: map<nat, Service>

    constructor ()
      ensures services == map[]
    {
      services := map[];
    }

    method AddTaskBody(key: nat, service: Service)
      modifies this
      ensures services == old(services)[key := service] == ApplyOp(old(services), Add(key, service))
    {
      services := services[key := service];
    }

    method ModTaskBody(key: nat, service: Service)
      modifies this
      ensures services == old(services)[key := service] == ApplyOp(old(services), Mod(key, service))
    {
      services := services[key := service];
    }

    /** The `before` callback is given the service; erasing needs the key to be present. */
    method DelTaskBody(key: nat) returns (given: Service)
      requires key in services
      modifies this
      ensures services == old(services) - {key} == ApplyOp(old(services), Del(key))
      ensures given == old(services)[key]
    {
      given := services[key];
      services := services - {key};
    }

    method FindTaskBody(key: nat) returns (given: Option<Service>)
      ensures if key in services then given == Some(services[key]) else given == None
      ensures given == Lookup(services, key)
    {
      given := None;
      if key in services {
        given := Some(services[key]);
      }
    }
  }
}
