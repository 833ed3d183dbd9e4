/** The task runtime: a queue and a worker loop per thread, the event loop's self-re-queuing
    pump on every worker, and the service table sharded over the workers by key.

    Every thread's step on shared data is one event: a locked push, the unlocked test of
    `m_front`, the locked swap, the test of the exit flag, the beginning and the end of a task.
    A running task may add tasks, run others nested through `addTask_ASAP`, and operate on the
    service table, in any order.
 */
module TaskRuntime {
  import opened Runs
  import Schedule

  type Service = nat

  datatype Op =
    | Add(key: nat, service: Service)
    | Mod(key: nat, service: Service)
    | Del(key: nat)
    | Find(key: nat)

  /** The thread that makes a call: one outside the runtime, or a worker running a task. */
  datatype Thread = External(id: nat) | OnWorker(index: nat)

  datatype Task = User(id: nat) | Pump | Config(caller: Thread, op: Op)

  /** A task that has begun and not returned.  A pump re-queues itself as its last act; a delete
      erases after its `before` callback; a find calls its `after` callback last. */
  datatype Frame = InUser(id: nat) | InPump(requeued: bool) | InFind | InDelete(cfg: Task)

  datatype Pc = LoopHead | Polling | Swapped | Running | Exited

  /** One worker: its queue's two buffers, the batch it took, the tasks it is inside of, its shard
      of the service table, and the histories of tasks accepted into its queue and begun from it. */
  datatype Worker = Worker(
    pc: Pc, front: seq<Task>, tail: seq<Task>, batch: seq<Task>, stack: seq<Frame>,
    services: map<nat, Service>, accepted: seq<Task>, executed: seq<Task>)

  /** The whole runtime.  `started` counts the workers `EventLoop::start` has reached; `issued`
      lists the table operations in the order of their calls, `effects` in the order in which
      they took effect, and `flat` is one map to which the same effects are applied.  `found`
      notes what each `findService` passed to its callback, and `crossed`
      notes a thread and a key once the thread has operated on that service from inside the
      `before` callback of its own deletion of it. */
  datatype Runtime = Runtime(
    workers: seq<Worker>, exit: bool, started: nat,
    issued: seq<Task>, effects: seq<Task>, flat: map<nat, Service>,
    found: seq<Finding>, crossed: set<(Thread, nat)>)

  /** A find of `key` made when `at` operations had taken effect. */
  datatype Finding = Finding(at: nat, key: nat, result: Option<Service>)

  function Lookup(m: map<nat, Service>, key: nat): (r: Option<Service>)
    ensures r.None? <==> key !in m
    ensures key in m ==> r == Some(m[key])
  {
    if key in m then Some(m[key]) else None
  }

  datatype Event =
    | AddTask(caller: Thread, id: nat, index: nat)
    | AddTaskAsap(caller: Thread, id: nat, index: nat)
    | Issue(caller: Thread, op: Op)
    | StartPump
    | SetExit
    | Loop(w: nat)
    | Poll(w: nat)
    | AfterSwap(w: nat)
    | StartNext(w: nat)
    | EndBatch(w: nat)
    | Requeue(w: nat)
    | ReturnTop(w: nat)

  const IDLE_WORKER := Worker(LoopHead, [], [], [], [], map[], [], [])

  function NewRuntime(n: nat): Runtime {
    Runtime(seq(n, _ => IDLE_WORKER), false, 0, [], [], map[], [], {})
  }

  /** A worker thread makes calls only from inside a task. */
  predicate Active(s: Runtime, caller: Thread) {
    caller.OnWorker? ==> caller.index < |s.workers| && s.workers[caller.index].stack != []
  }

  function Clamp(n: nat, index: nat): (r: nat)
    requires n > 0
    ensures r < n
  {
    if index >= n then n - 1 else index
  }

  /** The worker an operation is sent to: `addService` schedules the unsigned key, the others the
      signed one. */
  function Owner(op: Op, n: nat): (r: nat)
    requires n > 0
    ensures r < n
  {
    if op.Add? then Schedule.ByUnsigned(op.key, n) else Schedule.BySigned(op.key, n)
  }

  function Put(s: Runtime, w: nat, x: Worker): Runtime
    requires w < |s.workers|
  {
    s.(workers := s.workers[w := x])
  }

  /** The locked push of `addTask`. */
  function Accept(x: Worker, t: Task): Worker {
    x.(tail := x.tail + [t], accepted := x.accepted + [t])
  }

  function Send(s: Runtime, w: nat, t: Task): Runtime
    requires w < |s.workers|
  {
    Put(s, w, Accept(s.workers[w], t))
  }

  predicate IsDeleting(x: Worker, key: nat) {
    exists f :: f in x.stack && f.InDelete? && f.cfg.Config? && f.cfg.op.key == key
  }

  predicate Matches(t: Task, caller: Thread, key: nat) {
    t.Config? && t.caller == caller && t.op.key == key
  }

  /** The worker is inside the `before` callback of the thread's own deletion of the service. */
  predicate IsDeletingFor(x: Worker, caller: Thread, key: nat) {
    exists f :: f in x.stack && f.InDelete? && Matches(f.cfg, caller, key)
  }

  /** Worker `w` begins a task.  Deleting a service that is absent, or whose deletion is still in
      progress, is undefined in the source and is not a step here. */
  function Begin(s: Runtime, w: nat, t: Task): Option<Runtime>
    requires w < |s.workers|
  {
    var x := s.workers[w];
    match t
    case User(id) => Some(Put(s, w, x.(stack := x.stack + [InUser(id)])))
    case Pump => Some(Put(s, w, x.(stack := x.stack + [InPump(false)])))
    case Config(_, Add(k, v)) =>
      Some(Put(s, w, x.(services := x.services[k := v])).(effects := s.effects + [t], flat := s.flat[k := v]))
    case Config(_, Mod(k, v)) =>
      Some(Put(s, w, x.(services := x.services[k := v])).(effects := s.effects + [t], flat := s.flat[k := v]))
    case Config(_, Find(k)) =>
      Some(Put(s, w, x.(stack := x.stack + [InFind]))
             .(effects := s.effects + [t], found := s.found + [Finding(|s.effects|, k, Lookup(x.services, k))]))
    case Config(_, Del(k)) =>
      if k !in x.services || IsDeleting(x, k) then None
      else Some(Put(s, w, x.(stack := x.stack + [InDelete(t)])))
  }

  /** The innermost task of worker `w` returns. */
  function ReturnFrom(s: Runtime, w: nat): Option<Runtime>
    requires w < |s.workers|
  {
    var x := s.workers[w];
    if x.stack == [] then None
    else
      var n := |x.stack| - 1;
      var y := x.(stack := x.stack[..n]);
      match x.stack[n]
      case InPump(requeued) => if requeued then Some(Put(s, w, y)) else None
      case InDelete(cfg) =>
        if !cfg.Config? || !cfg.op.Del? then None
        else
          var k := cfg.op.key;
          Some(Put(s, w, y.(services := y.services - {k})).(effects := s.effects + [cfg], flat := s.flat - {k}))
      case _ => Some(Put(s, w, y))
  }

  /** The record of a call of a table operation. */
  function Noted(s: Runtime, caller: Thread, op: Op): Runtime
    requires |s.workers| > 0
  {
    var w := Owner(op, |s.workers|);
    s.(issued := s.issued + [Config(caller, op)],
       crossed := if caller == OnWorker(w) && IsDeletingFor(s.workers[w], caller, op.key)
                  then s.crossed + {(caller, op.key)} else s.crossed)
  }

  /** A table operation: run at once on the caller's own shard, queued to the owner otherwise. */
  function IssueOp(s: Runtime, caller: Thread, op: Op): Option<Runtime>
    requires |s.workers| > 0
  {
    var w, t := Owner(op, |s.workers|), Config(caller, op);
    if caller != OnWorker(w) then Some(Send(Noted(s, caller, op), w, t))
    else Begin(Noted(s, caller, op), w, t)
  }

  /** The worker's own bookkeeping between tasks: the loop test, `takeMulti`, the end of a batch. */
  function LoopStep(x: Worker, exit: bool, e: Event): Option<Worker> {
    match (e, x.pc)
    case (Loop(_), LoopHead) => Some(x.(pc := if exit then Exited else Polling))
    case (Poll(_), Polling) =>
      Some(if x.front == [] then x.(front := x.tail, tail := x.front, pc := Swapped)
           else x.(batch := x.front, front := [], pc := Running))
    case (AfterSwap(_), Swapped) =>
      Some(if x.front == [] then x.(pc := LoopHead)
           else x.(batch := x.front, front := [], pc := Running))
    case (EndBatch(_), Running) =>
      if x.batch != [] || x.stack != [] then None else Some(x.(pc := LoopHead))
    case _ => None
  }

  function Step(s: Runtime, e: Event): Option<Runtime> {
    if |s.workers| == 0 then None else
    match e
    case AddTask(caller, id, index) =>
      if !Active(s, caller) then None else Some(Send(s, Clamp(|s.workers|, index), User(id)))
    case AddTaskAsap(caller, id, index) =>
      var w := Clamp(|s.workers|, index);
      if !Active(s, caller) then None
      else if caller == OnWorker(w) then Begin(s, w, User(id))
      else Some(Send(s, w, User(id)))
    case Issue(caller, op) =>
      if !Active(s, caller) || op.key >= Schedule.U63 then None else IssueOp(s, caller, op)
    case StartPump =>
      if s.started >= |s.workers| then None
      else Some(Send(s, s.started, Pump).(started := s.started + 1))
    case SetExit => Some(s.(exit := true))
    case StartNext(w) =>
      if w >= |s.workers| then None
      else
        var x := s.workers[w];
        if !x.pc.Running? || x.stack != [] || x.batch == [] then None
        else Begin(Put(s, w, Taken(x)), w, x.batch[0])
    case Requeue(w) =>
      if w >= |s.workers| then None
      else
        var x := s.workers[w];
        if x.stack == [] || x.stack[|x.stack| - 1] != InPump(false) then None
        else Some(Put(s, w, Accept(Requeued(x), Pump)))
    case ReturnTop(w) => if w >= |s.workers| then None else ReturnFrom(s, w)
    case _ =>
      if e.w >= |s.workers| then None
      else
        var y := LoopStep(s.workers[e.w], s.exit, e);
        if y.None? then None else Some(Put(s, e.w, y.value))
  }

  /** The first task of the batch is about to begin. */
  function Taken(x: Worker): Worker
    requires x.batch != []
  {
    x.(batch := x.batch[1..], executed := x.executed + [x.batch[0]])
  }

  function Requeued(x: Worker): Worker
    requires x.stack != []
  {
    x.(stack := x.stack[..|x.stack| - 1] + [InPump(true)])
  }

  /** Accepted tasks that have not begun, in the order in which they will. */
  function Pending(x: Worker): seq<Task> {
    x.batch + x.front + x.tail
  }

  // ----- queues -----

  /** Nothing is lost, repeated or reordered between acceptance and beginning, and a worker is
      between batches whenever it is not running one. */
  ghost predicate QueueOk(x: Worker) {
    && x.accepted == x.executed + Pending(x)
    && (!x.pc.Running? ==> x.batch == [] && x.stack == [])
  }

  lemma AcceptKeepsQueue(x: Worker, t: Task)
    requires QueueOk(x)
    ensures QueueOk(Accept(x, t)) && Pending(Accept(x, t)) == Pending(x) + [t]
  {
    assert x.executed + (Pending(x) + [t]) == (x.executed + Pending(x)) + [t];
  }

  lemma TakenKeepsQueue(x: Worker)
    requires QueueOk(x) && x.batch != []
    ensures QueueOk(Taken(x)) && Pending(x) == [x.batch[0]] + Pending(Taken(x))
  {
    assert x.batch == [x.batch[0]] + x.batch[1..];
    assert Pending(x) == [x.batch[0]] + Pending(Taken(x));
    assert x.executed + ([x.batch[0]] + Pending(Taken(x))) == (x.executed + [x.batch[0]]) + Pending(Taken(x));
  }

  lemma LoopStepKeepsQueue(x: Worker, exit: bool, e: Event)
    requires QueueOk(x) && LoopStep(x, exit, e).Some?
    ensures QueueOk(LoopStep(x, exit, e).value)
    ensures var y := LoopStep(x, exit, e).value;
            Pending(y) == Pending(x) && y.stack == x.stack && y.services == x.services
            && y.accepted == x.accepted && y.executed == x.executed
  {
  }

  /** Beginning a task touches only the stack and the shard of its worker. */
  lemma BeginFrame(s: Runtime, w: nat, t: Task)
    requires w < |s.workers| && Begin(s, w, t).Some?
    ensures var r := Begin(s, w, t).value; var x, y := s.workers[w], r.workers[w];
            && r.workers == s.workers[w := y]
            && y == x.(stack := y.stack, services := y.services)
            && r.started == s.started && r.issued == s.issued && r.exit == s.exit && r.crossed == s.crossed
  {
  }

  ghost predicate QueueInv(s: Runtime) {
    forall i :: 0 <= i < |s.workers| ==> QueueOk(s.workers[i])
  }

  lemma BeginKeepsQueue(s: Runtime, w: nat, t: Task)
    requires w < |s.workers| && QueueInv(s) && s.workers[w].pc.Running? && Begin(s, w, t).Some?
    ensures QueueInv(Begin(s, w, t).value)
  {
    BeginFrame(s, w, t);
  }

  lemma StepKeepsQueue(s: Runtime, e: Event)
    requires QueueInv(s) && Step(s, e).Some?
    ensures QueueInv(Step(s, e).value)
  {
    var n := |s.workers|;
    match e {
      case AddTask(_, id, index) =>
        AcceptKeepsQueue(s.workers[Clamp(n, index)], User(id));
      case AddTaskAsap(caller, id, index) =>
        var w := Clamp(n, index);
        AcceptKeepsQueue(s.workers[w], User(id));
        if caller == OnWorker(w) { BeginKeepsQueue(s, w, User(id)); }
      case Issue(caller, op) => IssueKeepsQueue(s, caller, op);
      case StartPump => AcceptKeepsQueue(s.workers[s.started], Pump);
      case SetExit =>
      case StartNext(w) =>
        TakenKeepsQueue(s.workers[w]);
        BeginKeepsQueue(Put(s, w, Taken(s.workers[w])), w, s.workers[w].batch[0]);
      case Requeue(w) => AcceptKeepsQueue(Requeued(s.workers[w]), Pump);
      case ReturnTop(w) => ReturnKeepsQueue(s, w);
      case _ => LoopStepKeepsQueue(s.workers[e.w], s.exit, e);
    }
  }

  lemma ReturnKeepsQueue(s: Runtime, w: nat)
    requires w < |s.workers| && QueueInv(s) && ReturnFrom(s, w).Some?
    ensures QueueInv(ReturnFrom(s, w).value)
  {
    var x, r := s.workers[w], ReturnFrom(s, w).value;
    assert QueueOk(x);
    assert r.workers == s.workers[w := r.workers[w]];
  }

  lemma IssueKeepsQueue(s: Runtime, caller: Thread, op: Op)
    requires |s.workers| > 0 && QueueInv(s) && Active(s, caller) && IssueOp(s, caller, op).Some?
    ensures QueueInv(IssueOp(s, caller, op).value)
  {
    var w, t := Owner(op, |s.workers|), Config(caller, op);
    if caller == OnWorker(w) {
      assert QueueOk(s.workers[w]);
      BeginKeepsQueue(Noted(s, caller, op), w, t);
    } else {
      AcceptKeepsQueue(s.workers[w], t);
    }
  }

  // ----- whole runs: queues -----

  lemma AlwaysQueueInv(n: nat, es: seq<Event>)
    ensures var r := Exec(Step, NewRuntime(n), es); r.Some? ==> QueueInv(r.value)
  {
    forall x: Runtime, e: Event | QueueInv(x) && Step(x, e).Some? ensures QueueInv(Step(x, e).value) {
      StepKeepsQueue(x, e);
    }
    InvariantOverRun(Step, QueueInv, NewRuntime(n), es);
  }

  /** In every reachable state, whatever tasks add or run nested, the tasks accepted for a worker
      are those it has begun, then the rest of its batch, then its queue. */
  lemma AcceptedIsBegunThenPending(n: nat, es: seq<Event>, s: Runtime, w: nat)
    requires Exec(Step, NewRuntime(n), es) == Some(s) && w < |s.workers|
    ensures var x := s.workers[w]; x.accepted == x.executed + x.batch + x.front + x.tail
  {
    AlwaysQueueInv(n, es);
    var x := s.workers[w];
    assert QueueOk(x);
    assert x.executed + Pending(x) == x.executed + x.batch + x.front + x.tail;
  }

  /** Worker `w`, and no other part of the runtime, has queued `t` behind everything it had. */
  ghost predicate QueuedLast(s: Runtime, r: Runtime, w: nat, t: Task) {
    && |r.workers| == |s.workers| && w < |s.workers|
    && (forall i :: 0 <= i < |s.workers| && i != w ==> r.workers[i] == s.workers[i])
    && r.workers[w].accepted == s.workers[w].accepted + [t]
    && r.workers[w].front + r.workers[w].tail == s.workers[w].front + s.workers[w].tail + [t]
    && r == s.(workers := r.workers)
    && r.workers[w] == s.workers[w].(front := r.workers[w].front, tail := r.workers[w].tail, accepted := r.workers[w].accepted)
  }

  /** Worker `w` has begun `User(id)` inside the task it is in; nothing else has changed. */
  ghost predicate BegunInside(s: Runtime, r: Runtime, w: nat, id: nat) {
    && w < |s.workers|
    && r == s.(workers := s.workers[w := s.workers[w].(stack := s.workers[w].stack + [InUser(id)])])
  }

  /** A task passed to `addTask` is queued last on the worker `index` names, or on the last worker if
      there is no such worker; one passed to `addTask_ASAP` from its own worker is begun at once,
      inside the calling task and past the queue, and is queued like the others from anywhere else. */
  lemma AddedTaskGoesToItsWorker(s: Runtime, caller: Thread, id: nat, index: nat, w: nat)
    requires w < |s.workers| && Active(s, caller)
    requires w == index || (index >= |s.workers| && w == |s.workers| - 1)
    ensures var r := Step(s, AddTask(caller, id, index)); r.Some? && QueuedLast(s, r.value, w, User(id))
    ensures var r := Step(s, AddTaskAsap(caller, id, index));
            && r.Some?
            && if caller == OnWorker(w) then BegunInside(s, r.value, w, id)
               else QueuedLast(s, r.value, w, User(id))
  {
    var x := s.workers[w];
    assert x.front + (x.tail + [User(id)]) == x.front + x.tail + [User(id)];
  }

  /** Histories only grow, and a worker whose loop has ended begins nothing more. */
  ghost predicate Grows(s: Runtime, t: Runtime) {
    && |t.workers| == |s.workers|
    && forall i :: 0 <= i < |s.workers| ==> WorkerGrows(s.workers[i], t.workers[i])
  }

  ghost predicate WorkerGrows(x: Worker, y: Worker) {
    && x.accepted <= y.accepted && x.executed <= y.executed
    && (x.pc.Exited? ==> y.pc.Exited? && y.executed == x.executed)
  }

  /** Changing one worker so that it grows makes the whole runtime grow. */
  lemma OneWorkerGrows(s: Runtime, r: Runtime, w: nat, y: Worker)
    requires w < |s.workers| && r.workers == s.workers[w := y] && WorkerGrows(s.workers[w], y)
    ensures Grows(s, r)
  {
  }

  lemma SendGrows(s: Runtime, r: Runtime, w: nat, t: Task)
    requires w < |s.workers| && r.workers == s.workers[w := Accept(s.workers[w], t)]
    ensures Grows(s, r)
  {
    OneWorkerGrows(s, r, w, Accept(s.workers[w], t));
  }

  lemma BeginGrows(s: Runtime, w: nat, t: Task)
    requires w < |s.workers| && Begin(s, w, t).Some?
    ensures Grows(s, Begin(s, w, t).value)
  {
    BeginFrame(s, w, t);
    OneWorkerGrows(s, Begin(s, w, t).value, w, Begin(s, w, t).value.workers[w]);
  }

  lemma StartNextGrows(s: Runtime, w: nat)
    requires Step(s, StartNext(w)).Some?
    ensures Grows(s, Step(s, StartNext(w)).value)
  {
    var s1, t := Put(s, w, Taken(s.workers[w])), s.workers[w].batch[0];
    BeginFrame(s1, w, t);
    OneWorkerGrows(s, Begin(s1, w, t).value, w, Begin(s1, w, t).value.workers[w]);
  }

  lemma StepGrows(s: Runtime, e: Event)
    requires Step(s, e).Some?
    ensures Grows(s, Step(s, e).value)
  {
    var n, r := |s.workers|, Step(s, e).value;
    match e {
      case AddTask(_, id, index) => SendGrows(s, r, Clamp(n, index), User(id));
      case AddTaskAsap(caller, id, index) =>
        var w := Clamp(n, index);
        if caller == OnWorker(w) { BeginGrows(s, w, User(id)); } else { SendGrows(s, r, w, User(id)); }
      case Issue(caller, op) => IssueGrows(s, caller, op);
      case StartPump => SendGrows(s, r, s.started, Pump);
      case SetExit =>
      case StartNext(w) => StartNextGrows(s, w);
      case Requeue(w) => OneWorkerGrows(s, r, w, Accept(Requeued(s.workers[w]), Pump));
      case ReturnTop(w) => ReturnGrows(s, w);
      case _ => OneWorkerGrows(s, r, e.w, LoopStep(s.workers[e.w], s.exit, e).value);
    }
  }

  lemma ReturnGrows(s: Runtime, w: nat)
    requires w < |s.workers| && ReturnFrom(s, w).Some?
    ensures Grows(s, ReturnFrom(s, w).value)
  {
    var x, r := s.workers[w], ReturnFrom(s, w).value;
    assert r.workers[w] == x.(stack := r.workers[w].stack, services := r.workers[w].services);
    OneWorkerGrows(s, r, w, r.workers[w]);
  }

  lemma IssueGrows(s: Runtime, caller: Thread, op: Op)
    requires |s.workers| > 0 && IssueOp(s, caller, op).Some?
    ensures Grows(s, IssueOp(s, caller, op).value)
  {
    var w, t := Owner(op, |s.workers|), Config(caller, op);
    if caller == OnWorker(w) {
      BeginGrows(Noted(s, caller, op), w, t);
    } else {
      SendGrows(s, IssueOp(s, caller, op).value, w, t);
    }
  }

  lemma RunGrows(s: Runtime, es: seq<Event>)
    ensures var r := Exec(Step, s, es); r.Some? ==> Grows(s, r.value)
  {
    forall x: Runtime, y: Runtime, e: Event | Grows(x, y) && Step(y, e).Some?
      ensures Grows(x, Step(y, e).value)
    {
      StepGrows(y, e);
      forall i | 0 <= i < |x.workers| ensures WorkerGrows(x.workers[i], Step(y, e).value.workers[i]) {
        assert WorkerGrows(x.workers[i], y.workers[i]) && WorkerGrows(y.workers[i], Step(y, e).value.workers[i]);
      }
    }
    RelationOverRun(Step, (x: Runtime) => true, Grows, s, es);
  }

  // ----- the worker's loop -----

  /** A worker leaves its loop at the loop test, and there if and only if `shutdown` has set the exit
      flag; otherwise it goes on to its queue. */
  lemma WorkerExitsIff(s: Runtime, e: Event, w: nat)
    requires Step(s, e).Some? && w < |s.workers| && !s.workers[w].pc.Exited?
    ensures |Step(s, e).value.workers| == |s.workers|
    ensures Step(s, e).value.workers[w].pc.Exited? <==> e == Loop(w) && s.exit
    ensures e == Loop(w) && !s.exit ==> Step(s, e).value.workers[w] == s.workers[w].(pc := Polling)
  {
    match e {
      case StartNext(v) => BeginFrame(Put(s, v, Taken(s.workers[v])), v, s.workers[v].batch[0]);
      case Issue(caller, op) => IssueTouchesTails(s, caller, op);
      case _ =>
    }
  }

  lemma StepSetsExit(s: Runtime, e: Event)
    requires Step(s, e).Some?
    ensures Step(s, e).value.exit <==> s.exit || e == SetExit
  {
    match e {
      case StartNext(v) => BeginFrame(Put(s, v, Taken(s.workers[v])), v, s.workers[v].batch[0]);
      case Issue(caller, op) => IssueTouchesTails(s, caller, op);
      case _ =>
    }
  }

  /** In every reachable state the exit flag is set exactly after `shutdown`, and no worker has left
      its loop without it. */
  lemma {:induction false} NoExitWithoutShutdown(n: nat, es: seq<Event>, s: Runtime, w: nat)
    requires Exec(Step, NewRuntime(n), es) == Some(s)
    ensures |s.workers| == n && (s.exit <==> SetExit in es)
    ensures w < n && s.workers[w].pc.Exited? ==> s.exit
    decreases |es|
  {
    if es != [] {
      var before, e := es[..|es| - 1], es[|es| - 1];
      assert es == before + [e];
      var t := Exec(Step, NewRuntime(n), before).value;
      NoExitWithoutShutdown(n, before, t, w);
      StepGrows(t, e);
      StepSetsExit(t, e);
      if w < n && !t.workers[w].pc.Exited? { WorkerExitsIff(t, e, w); }
    }
  }

  /** What the worker's take makes its batch: everything in `m_front`, or, if that is empty, everything
      in `m_tail`; with nothing in either it goes back to the loop test. */
  lemma TakesWholeBuffer(s: Runtime, w: nat)
    requires w < |s.workers| && s.workers[w].pc.Polling?
    ensures var x := s.workers[w];
            if x.front != []
            then Step(s, Poll(w)) == Some(Put(s, w, x.(pc := Running, front := [], batch := x.front)))
            else Exec(Step, s, [Poll(w), AfterSwap(w)]) == Some(Put(s, w, TailTaken(x)))
  {
    var x := s.workers[w];
    if x.front == [] {
      var y := x.(front := x.tail, tail := [], pc := Swapped);
      assert LoopStep(y, s.exit, AfterSwap(w)) == Some(TailTaken(x));
      PutTwice(s, w, y, TailTaken(x));
      ExecTwo(Step, s, Poll(w), Put(s, w, y), AfterSwap(w), Put(s, w, TailTaken(x)));
    }
  }

  function TailTaken(x: Worker): (y: Worker)
    ensures y.front == x.front && y.tail == [] && y.accepted == x.accepted
    ensures x.tail == [] ==> y.pc.LoopHead? && y.batch == x.batch
    ensures x.tail != [] ==> y.pc.Running? && y.batch == x.tail
  {
    if x.tail == [] then x.(pc := LoopHead) else x.(pc := Running, tail := [], batch := x.tail)
  }

  lemma PutTwice(s: Runtime, w: nat, y: Worker, z: Worker)
    requires w < |s.workers|
    ensures Put(Put(s, w, y), w, z) == Put(s, w, z)
  {
  }

  /** Between the swap and the second look at `m_front`, the other threads cannot change `m_front`:
      they reach `m_tail` alone. */
  lemma SwappedFrontIsStable(s: Runtime, e: Event, w: nat)
    requires QueueInv(s) && Step(s, e).Some? && w < |s.workers| && s.workers[w].pc.Swapped? && e != AfterSwap(w)
    ensures |Step(s, e).value.workers| == |s.workers|
    ensures var x, y := s.workers[w], Step(s, e).value.workers[w];
            y.pc.Swapped? && y.front == x.front && y.batch == x.batch && x.tail <= y.tail
  {
    assert QueueOk(s.workers[w]);
    match e {
      case StartNext(v) => BeginFrame(Put(s, v, Taken(s.workers[v])), v, s.workers[v].batch[0]);
      case Issue(caller, op) => IssueTouchesTails(s, caller, op);
      case AddTaskAsap(caller, id, index) => assert caller != OnWorker(w);
      case Requeue(v) => assert v != w;
      case ReturnTop(v) => assert v != w;
      case _ =>
    }
  }

  lemma IssueTouchesTails(s: Runtime, caller: Thread, op: Op)
    requires |s.workers| > 0 && IssueOp(s, caller, op).Some?
    ensures var r := IssueOp(s, caller, op).value;
            && |r.workers| == |s.workers| && r.exit == s.exit
            && forall i :: 0 <= i < |s.workers| ==>
                 && r.workers[i].pc == s.workers[i].pc && r.workers[i].front == s.workers[i].front
                 && r.workers[i].batch == s.workers[i].batch && s.workers[i].tail <= r.workers[i].tail
  {
    var w := Owner(op, |s.workers|);
    if caller == OnWorker(w) { BeginFrame(Noted(s, caller, op), w, Config(caller, op)); }
  }

  /** Once `shutdown` has joined a worker, what it has begun is a prefix of what it accepted, no
      batch is half done and no task is inside; in any continuation it begins nothing more. */
  lemma JoinedWorkerIsClean(n: nat, es: seq<Event>, s: Runtime, fs: seq<Event>, t: Runtime, w: nat)
    requires Exec(Step, NewRuntime(n), es) == Some(s) && Exec(Step, s, fs) == Some(t)
    requires w < |s.workers| && s.workers[w].pc.Exited?
    ensures |t.workers| == |s.workers| && t.workers[w].pc.Exited?
    ensures t.workers[w].executed == s.workers[w].executed <= t.workers[w].accepted
    ensures t.workers[w].batch == [] && t.workers[w].stack == []
  {
    RunGrows(s, fs);
    assert WorkerGrows(s.workers[w], t.workers[w]);
    assert Exec(Step, NewRuntime(n), es + fs) == Some(t) by { ExecConcat(Step, NewRuntime(n), es, fs); }
    AlwaysQueueInv(n, es + fs);
    assert QueueOk(t.workers[w]);
  }
}
