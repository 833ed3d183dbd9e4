/** The thread pool: one locked queue and one draining loop per worker, and an exit flag that a
    worker looks at only when its queue is empty. */
module ThreadPool {
  import opened Runs

  type Task = nat

  /** Where a worker's loop stands.  It holds its queue's lock at `Testing` and nowhere else;
      `calling` says that the first task of the batch is being run. */
  datatype Loop =
    | Waiting
    | Testing
    | Draining(batch: seq<Task>, calling: bool)
    | Returned(seen: nat)

  /** One worker, with histories of the tasks put into its queue and of the tasks it has begun. */
  datatype Worker = Worker(tasks: seq<Task>, loop: Loop, enqueued: seq<Task>, executed: seq<Task>)

  datatype Request = Request(task: Task, threadno: nat)

  /** The pool: `passed` holds the calls of `exec` that have passed the test of `isExit` and have
      not yet taken the lock. */
  datatype Pool = Pool(workers: seq<Worker>, isExit: bool, passed: seq<Request>)

  datatype Event =
    | ExecTest(task: Task, threadno: nat)
    | ExecPush(index: nat)
    | SetExit
    | Lock(w: nat)
    | Test(w: nat)
    | Call(w: nat)
    | Finish(w: nat)
    | Relock(w: nat)

  function NewPool(n: nat): Pool {
    Pool(seq(n, _ => Worker([], Waiting, [], [])), false, [])
  }

  /** The test `exec` makes before it takes the lock. */
  predicate Accepts(p: Pool, threadno: nat) {
    threadno < |p.workers| && !p.isExit
  }

  function Enqueue(x: Worker, t: Task): Worker {
    x.(tasks := x.tasks + [t], enqueued := x.enqueued + [t])
  }

  /** One step of a worker's loop. */
  function LoopStep(x: Worker, isExit: bool, e: Event): Option<Worker> {
    match (e, x.loop)
    case (Lock(_), Waiting) => Some(x.(loop := Testing))
    case (Test(_), Testing) =>
      Some(if x.tasks != [] then x.(tasks := [], loop := Draining(x.tasks, false))
           else if isExit then x.(loop := Returned(|x.enqueued|))
           else x.(loop := Waiting))
    case (Call(_), Draining(batch, calling)) =>
      if batch == [] || calling then None
      else Some(x.(loop := Draining(batch, true), executed := x.executed + [batch[0]]))
    case (Finish(_), Draining(batch, calling)) =>
      if batch == [] || !calling then None else Some(x.(loop := Draining(batch[1..], false)))
    case (Relock(_), Draining(batch, calling)) =>
      if batch != [] then None else Some(x.(loop := Testing))
    case _ => None
  }

  function Step(p: Pool, e: Event): Option<Pool> {
    match e
    case ExecTest(t, k) =>
      Some(if Accepts(p, k) then p.(passed := p.passed + [Request(t, k)]) else p)
    case ExecPush(i) =>
      if i >= |p.passed| || p.passed[i].threadno >= |p.workers| then None
      else
        var r := p.passed[i];
        if p.workers[r.threadno].loop.Testing? then None
        else Some(p.(workers := p.workers[r.threadno := Enqueue(p.workers[r.threadno], r.task)],
                     passed := p.passed[..i] + p.passed[i + 1..]))
    case SetExit => Some(p.(isExit := true))
    case _ =>
      if e.w >= |p.workers| then None
      else
        var x := LoopStep(p.workers[e.w], p.isExit, e);
        if x.None? then None else Some(p.(workers := p.workers[e.w := x.value]))
  }

  /** The tasks of the current batch that have not begun. */
  function Rest(x: Worker): seq<Task> {
    if !x.loop.Draining? then []
    else if x.loop.calling && x.loop.batch != [] then x.loop.batch[1..]
    else x.loop.batch
  }

  ghost predicate WorkerOk(x: Worker, isExit: bool) {
    && x.enqueued == x.executed + Rest(x) + x.tasks
    && (x.loop.Draining? && x.loop.calling ==> x.loop.batch != [])
    && (x.loop.Returned? ==> isExit && x.loop.seen == |x.executed|)
  }

  ghost predicate Inv(p: Pool) {
    forall i :: 0 <= i < |p.workers| ==> WorkerOk(p.workers[i], p.isExit)
  }

  lemma LoopStepKeepsOk(x: Worker, isExit: bool, e: Event)
    requires WorkerOk(x, isExit) && LoopStep(x, isExit, e).Some?
    ensures WorkerOk(LoopStep(x, isExit, e).value, isExit)
    ensures LoopStep(x, isExit, e).value.enqueued == x.enqueued
  {
    var y := LoopStep(x, isExit, e).value;
    match e {
      case Call(_) =>
        var b := x.loop.batch;
        assert b == [b[0]] + b[1..];
        assert x.executed + b + x.tasks == (x.executed + [b[0]]) + b[1..] + x.tasks;
      case Test(_) =>
        assert x.executed + [] + x.tasks == x.executed + x.tasks + [];
      case _ =>
    }
  }

  lemma EnqueueKeepsOk(x: Worker, isExit: bool, t: Task)
    requires WorkerOk(x, isExit)
    ensures WorkerOk(Enqueue(x, t), isExit)
  {
    assert x.executed + Rest(x) + (x.tasks + [t]) == (x.executed + Rest(x) + x.tasks) + [t];
  }

  lemma StepKeepsInv(p: Pool, e: Event)
    requires Inv(p) && Step(p, e).Some?
    ensures Inv(Step(p, e).value)
  {
    match e {
      case ExecTest(_, _) =>
      case SetExit =>
      case ExecPush(i) =>
        EnqueueKeepsOk(p.workers[p.passed[i].threadno], p.isExit, p.passed[i].task);
      case _ => LoopStepKeepsOk(p.workers[e.w], p.isExit, e);
    }
  }

  lemma AlwaysInv(n: nat, es: seq<Event>)
    ensures var r := Exec(Step, NewPool(n), es); r.Some? ==> Inv(r.value)
  {
    forall p: Pool, e: Event | Inv(p) && Step(p, e).Some? ensures Inv(Step(p, e).value) {
      StepKeepsInv(p, e);
    }
    InvariantOverRun(Step, Inv, NewPool(n), es);
  }

  /** In every run, each worker has begun a prefix of its queue's tasks, in order and each once,
      and the rest are in its batch or its queue. */
  lemma BegunIsPrefixOfEnqueued(n: nat, es: seq<Event>, p: Pool, w: nat)
    requires Exec(Step, NewPool(n), es) == Some(p) && w < |p.workers|
    ensures var x := p.workers[w]; x.enqueued == x.executed + Rest(x) + x.tasks
  {
    AlwaysInv(n, es);
    assert WorkerOk(p.workers[w], p.isExit);
  }

  /** A queue only grows, and a worker that returns has by then begun all that was ever put there. */
  ghost predicate ReturnsEmpty(p: Pool, q: Pool) {
    && |q.workers| == |p.workers|
    && forall i :: 0 <= i < |p.workers| ==> WorkerReturnsEmpty(p.workers[i], q.workers[i])
  }

  ghost predicate WorkerReturnsEmpty(x: Worker, y: Worker) {
    && x.enqueued <= y.enqueued
    && (!x.loop.Returned? && y.loop.Returned? ==> x.enqueued <= y.executed)
  }

  lemma StepReturnsEmpty(p: Pool, q: Pool, e: Event)
    requires ReturnsEmpty(p, q) && Inv(q) && Step(q, e).Some?
    ensures ReturnsEmpty(p, Step(q, e).value)
  {
    var r := Step(q, e).value;
    forall i | 0 <= i < |p.workers| ensures |r.workers| == |p.workers| && WorkerReturnsEmpty(p.workers[i], r.workers[i]) {
      assert WorkerReturnsEmpty(p.workers[i], q.workers[i]) && WorkerOk(q.workers[i], q.isExit);
    }
  }

  /** Whatever is enqueued before `isExit` is set, and before the worker's loop returns even after
      that, has been run in enqueue order when the loop has returned. */
  lemma EnqueuedBeforeExitIsRun(n: nat, es: seq<Event>, p: Pool, fs: seq<Event>, q: Pool, w: nat)
    requires Exec(Step, NewPool(n), es) == Some(p) && Exec(Step, p, fs) == Some(q) && w < |p.workers|
    requires !p.isExit || !p.workers[w].loop.Returned?
    ensures |q.workers| == |p.workers|
    ensures q.workers[w].loop.Returned? ==> q.isExit && p.workers[w].enqueued <= q.workers[w].executed
  {
    AlwaysInv(n, es);
    assert WorkerOk(p.workers[w], p.isExit);
    forall x: Pool, e: Event | Inv(x) && Step(x, e).Some? ensures Inv(Step(x, e).value) {
      StepKeepsInv(x, e);
    }
    forall x: Pool, y: Pool, e: Event | ReturnsEmpty(x, y) && Inv(y) && Step(y, e).Some?
      ensures ReturnsEmpty(x, Step(y, e).value)
    {
      StepReturnsEmpty(x, y, e);
    }
    RelationOverRun(Step, Inv, ReturnsEmpty, p, fs);
    InvariantOverRun(Step, Inv, p, fs);
    assert WorkerReturnsEmpty(p.workers[w], q.workers[w]) && WorkerOk(q.workers[w], q.isExit);
  }

  ghost predicate ReturnIsFinal(p: Pool, q: Pool) {
    && |q.workers| == |p.workers|
    && forall i :: 0 <= i < |p.workers| && p.workers[i].loop.Returned? ==>
         q.workers[i].loop == p.workers[i].loop && q.workers[i].executed == p.workers[i].executed
  }

  /** After a worker's loop has returned, a task of its queue has been run if and only if it was
      enqueued before the return; nothing more is run in any continuation. */
  lemma RunIffEnqueuedBeforeReturn(n: nat, es: seq<Event>, p: Pool, fs: seq<Event>, q: Pool, w: nat)
    requires Exec(Step, NewPool(n), es) == Some(p) && Exec(Step, p, fs) == Some(q)
    requires w < |p.workers| && p.workers[w].loop.Returned?
    ensures |q.workers| == |p.workers| && q.workers[w].loop == p.workers[w].loop
    ensures var x, seen := q.workers[w], p.workers[w].loop.seen;
            && seen <= |x.enqueued|
            && x.executed == x.enqueued[..seen] && x.tasks == x.enqueued[seen..]
  {
    RelationOverRun(Step, (x: Pool) => true, ReturnIsFinal, p, fs);
    ExecConcat(Step, NewPool(n), es, fs);
    AlwaysInv(n, es + fs);
    assert WorkerOk(q.workers[w], q.isExit);
  }

  ghost predicate OnlyPassedEnter(p: Pool, q: Pool) {
    p.isExit ==>
      && q.isExit && |q.workers| == |p.workers|
      && forall i :: 0 <= i < |p.workers| ==>
           |q.passed| + |q.workers[i].enqueued| <= |p.passed| + |p.workers[i].enqueued|
  }

  /** Once `isExit` is set, only calls that had already passed the test can still enqueue: in any
      continuation a queue receives at most as many tasks as there were such calls. */
  lemma ExecRefusesAfterExit(p: Pool, fs: seq<Event>, q: Pool, w: nat)
    requires p.isExit && Exec(Step, p, fs) == Some(q) && w < |p.workers|
    ensures |q.workers| == |p.workers|
    ensures |q.workers[w].enqueued| - |p.workers[w].enqueued| <= |p.passed| - |q.passed|
  {
    forall x: Pool, y: Pool, e: Event | OnlyPassedEnter(x, y) && Step(y, e).Some?
      ensures OnlyPassedEnter(x, Step(y, e).value)
    {
      StepEntersOnlyPassed(x, y, e);
    }
    RelationOverRun(Step, (x: Pool) => true, OnlyPassedEnter, p, fs);
  }

  lemma StepEntersOnlyPassed(x: Pool, y: Pool, e: Event)
    requires OnlyPassedEnter(x, y) && Step(y, e).Some?
    ensures OnlyPassedEnter(x, Step(y, e).value)
  {
  }

  /** In every reachable state a worker that has not returned can make a step of its own. */
  lemma WorkerNeverStuck(n: nat, es: seq<Event>, p: Pool, w: nat)
    requires Exec(Step, NewPool(n), es) == Some(p) && w < |p.workers|
    ensures (exists e :: e in {Lock(w), Test(w), Call(w), Finish(w), Relock(w)} && Step(p, e).Some?) <==>
            !p.workers[w].loop.Returned?
  {
    AlwaysInv(n, es);
    var x := p.workers[w];
    assert WorkerOk(x, p.isExit);
    if !x.loop.Returned? {
      var e := match x.loop
        case Waiting => Lock(w)
        case Testing => Test(w)
        case Draining(batch, calling) => if batch == [] then Relock(w) else if calling then Finish(w) else Call(w);
      assert Step(p, e).Some?;
    }
  }

  // ----- the chosen worker -----

  /** The tasks of the calls of `exec` for worker `w` that a schedule makes before `isExit` is set, on
      a pool of `n` workers. */
  function Chosen(n: nat, es: seq<Event>, w: nat): multiset<Task> {
    if es == [] then multiset{}
    else
      var before, e := es[..|es| - 1], es[|es| - 1];
      Chosen(n, before, w)
      + if e.ExecTest? && e.threadno == w && w < n && SetExit !in before then multiset{e.task} else multiset{}
  }

  function TaskFor(r: Request, w: nat): multiset<Task> {
    if r.threadno == w then multiset{r.task} else multiset{}
  }

  /** The tasks for worker `w` whose calls have passed the test and not yet taken the lock. */
  function PassedFor(passed: seq<Request>, w: nat): multiset<Task> {
    if passed == [] then multiset{}
    else PassedFor(passed[..|passed| - 1], w) + TaskFor(passed[|passed| - 1], w)
  }

  lemma {:induction false} PassedForConcat(a: seq<Request>, b: seq<Request>, w: nat)
    ensures PassedFor(a + b, w) == PassedFor(a, w) + PassedFor(b, w)
    decreases |b|
  {
    if b == [] {
      assert a + b == a;
    } else {
      assert (a + b)[..|a + b| - 1] == a + b[..|b| - 1];
      PassedForConcat(a, b[..|b| - 1], w);
    }
  }

  lemma PassedForWithout(a: seq<Request>, i: nat, w: nat)
    requires i < |a|
    ensures PassedFor(a, w) == PassedFor(a[..i] + a[i + 1..], w) + TaskFor(a[i], w)
  {
    assert a == a[..i + 1] + a[i + 1..] && a[..i + 1][..i] == a[..i];
    PassedForConcat(a[..i + 1], a[i + 1..], w);
    PassedForConcat(a[..i], a[i + 1..], w);
  }

  /** The tasks that are in worker `w`'s queue, have been, or are on their way to it. */
  function Handed(p: Pool, w: nat): multiset<Task>
    requires w < |p.workers|
  {
    multiset(p.workers[w].enqueued) + PassedFor(p.passed, w)
  }

  lemma TestAddsChosen(p: Pool, t: Task, k: nat, w: nat)
    requires w < |p.workers|
    ensures var q := Step(p, ExecTest(t, k));
            && q.Some? && q.value.workers == p.workers
            && Handed(q.value, w) == Handed(p, w) + if k == w && !p.isExit then multiset{t} else multiset{}
  {
    var r := Request(t, k);
    assert (p.passed + [r])[..|p.passed|] == p.passed;
    assert PassedFor(p.passed + [r], w) == PassedFor(p.passed, w) + TaskFor(r, w);
  }

  lemma PushAddsNothing(p: Pool, i: nat, w: nat)
    requires Step(p, ExecPush(i)).Some? && w < |p.workers|
    ensures w < |Step(p, ExecPush(i)).value.workers| && Handed(Step(p, ExecPush(i)).value, w) == Handed(p, w)
  {
    var r, q := p.passed[i], Step(p, ExecPush(i)).value;
    PassedForWithout(p.passed, i, w);
    PushEnqueues(p, i, w);
    Moved(multiset(p.workers[w].enqueued), PassedFor(q.passed, w), TaskFor(r, w));
  }

  lemma Moved(a: multiset<Task>, b: multiset<Task>, c: multiset<Task>)
    ensures (a + c) + b == a + (b + c)
  {
  }

  lemma PushEnqueues(p: Pool, i: nat, w: nat)
    requires Step(p, ExecPush(i)).Some? && w < |p.workers|
    ensures var q := Step(p, ExecPush(i)).value;
            && |q.workers| == |p.workers| && q.passed == p.passed[..i] + p.passed[i + 1..]
            && multiset(q.workers[w].enqueued) == multiset(p.workers[w].enqueued) + TaskFor(p.passed[i], w)
  {
    var r, q := p.passed[i], Step(p, ExecPush(i)).value;
    assert q.workers[w] == if w == r.threadno then Enqueue(p.workers[w], r.task) else p.workers[w];
  }

  /** What a step adds to the tasks handed to worker `w`. */
  lemma StepAddsChosen(p: Pool, e: Event, w: nat)
    requires Step(p, e).Some? && w < |p.workers|
    ensures w < |Step(p, e).value.workers|
    ensures Handed(Step(p, e).value, w)
            == Handed(p, w) + if e.ExecTest? && e.threadno == w && !p.isExit then multiset{e.task} else multiset{}
  {
    match e {
      case ExecTest(t, k) => TestAddsChosen(p, t, k, w);
      case SetExit =>
      case ExecPush(i) => PushAddsNothing(p, i, w);
      case _ =>
        var q := Step(p, e).value;
        assert q.passed == p.passed && q.workers[w].enqueued == p.workers[w].enqueued;
    }
  }

  /** In every run, the tasks put into a worker's queue and those of calls about to take its lock are
      together the tasks of the calls that chose this worker before `isExit` was set, each as often;
      a call for a thread the pool does not have reaches no queue. */
  lemma {:induction false} TasksReachTheChosenWorker(n: nat, es: seq<Event>, p: Pool, w: nat)
    requires Exec(Step, NewPool(n), es) == Some(p)
    ensures |p.workers| == n && (p.isExit <==> SetExit in es)
    ensures w < n ==> multiset(p.workers[w].enqueued) + PassedFor(p.passed, w) == Chosen(n, es, w)
    ensures w >= n ==> Chosen(n, es, w) == multiset{}
    decreases |es|
  {
    if es != [] {
      var before, e := es[..|es| - 1], es[|es| - 1];
      assert es == before + [e];
      var q := Exec(Step, NewPool(n), before).value;
      TasksReachTheChosenWorker(n, before, q, w);
      StepKeepsShape(q, e);
      if w < n { StepAddsChosen(q, e, w); }
    }
  }

  lemma StepKeepsShape(p: Pool, e: Event)
    requires Step(p, e).Some?
    ensures |Step(p, e).value.workers| == |p.workers|
    ensures Step(p, e).value.isExit <==> p.isExit || e == SetExit
  {
  }

  /** `exec` can accept a task that is never run: the exit flag is set and the worker returns
      between the test and the enqueue. */
  lemma LateTaskIsLost(t: Task)
    ensures var r := Exec(Step, NewPool(1), [ExecTest(t, 0), SetExit] + [Lock(0), Test(0)] + [ExecPush(0)]);
            && r.Some? && r.value.workers == [Worker([t], Returned(0), [t], [])]
  {
    var p0 := NewPool(1);
    var p2 := ExitAfterTest(t);
    var p4 := WorkerReturns(p2);
    var p5 := Step(p4, ExecPush(0)).value;
    assert [] + [t] == [t];
    assert p5.workers == [Worker([t], Returned(0), [t], [])];
    ExecConcat(Step, p0, [ExecTest(t, 0), SetExit], [Lock(0), Test(0)]);
    ExecSnoc(Step, p0, [ExecTest(t, 0), SetExit] + [Lock(0), Test(0)], ExecPush(0));
  }

  lemma ExitAfterTest(t: Task) returns (p: Pool)
    ensures Exec(Step, NewPool(1), [ExecTest(t, 0), SetExit]) == Some(p)
    ensures p.isExit && p.passed == [Request(t, 0)] && p.workers == [Worker([], Waiting, [], [])]
  {
    var p0 := NewPool(1);
    assert p0.workers == [Worker([], Waiting, [], [])];
    var p1 := Step(p0, ExecTest(t, 0)).value;
    assert p1.passed == [Request(t, 0)];
    p := Step(p1, SetExit).value;
    ExecTwo(Step, p0, ExecTest(t, 0), p1, SetExit, p);
  }

  lemma WorkerReturns(p: Pool) returns (q: Pool)
    requires p.isExit && p.workers == [Worker([], Waiting, [], [])]
    ensures Exec(Step, p, [Lock(0), Test(0)]) == Some(q)
    ensures q.passed == p.passed && q.workers == [Worker([], Returned(0), [], [])]
  {
    var p1 := Step(p, Lock(0)).value;
    q := Step(p1, Test(0)).value;
    ExecTwo(Step, p, Lock(0), p1, Test(0), q);
  }

  // ----- the per-thread data and the loop body as they are coded -----

  /** One thread's queue.  The loop position and the histories are ghost. */
  class PerThread {
    var tasks: seq<Task>
    ghost var loop: Loop
    ghost var enqueued: seq<Task>
    ghost var executed: seq<Task>

    ghost function State(): Worker
      reads this
    {
      Worker(tasks, loop, enqueued, executed)
    }

    constructor ()
      ensures State() == Worker([], Waiting, [], [])
    {
      tasks, loop, enqueued, executed := [], Waiting, [], [];
    }

    /** The locked part of `exec`. */
    method Emplace(task: Task)
      requires !loop.Testing?
      modifies this
      ensures State() == Enqueue(old(State()), task)
    {
      tasks := tasks + [task];
      enqueued := enqueued + [task];
    }

    /** One turn of the endless loop, from holding the lock to holding it again or to leaving or
        waiting; the events it performs lead from the old state to the new one. */
    method Turn(isExit: bool) returns (returned: bool, ghost es: seq<Event>)
      requires loop == Testing
      modifies this
      ensures Exec((x: Worker, e: Event) => LoopStep(x, isExit, e), old(State()), es) == Some(State())
      ensures enqueued == old(enqueued)
      ensures if old(tasks) != [] then !returned && loop == Testing && tasks == [] && executed == old(executed) + old(tasks)
              else (returned <==> isExit) && executed == old(executed) && loop == if isExit then Returned(|enqueued|) else Waiting
    {
      ghost var step := (x: Worker, e: Event) => LoopStep(x, isExit, e);
      ghost var s0 := State();
      es := [];
      returned := false;
      if tasks != [] {
        var batch := tasks;
        tasks := [];
        loop := Draining(batch, false);
        ExecSnoc(step, s0, es, Test(0));
        es := es + [Test(0)];
        es := Drain(batch, isExit, s0, es);
        loop := Testing;
        ExecSnoc(step, s0, es, Relock(0));
        es := es + [Relock(0)];
      } else {
        returned := isExit;
        loop := if isExit then Returned(|enqueued|) else Waiting;
        ExecSnoc(step, s0, es, Test(0));
        es := es + [Test(0)];
      }
    }

    /** Runs a batch from its front to its end. */
    method Drain(batch: seq<Task>, isExit: bool, ghost s0: Worker, ghost es0: seq<Event>)
      returns (ghost es: seq<Event>)
      requires loop == Draining(batch, false)
      requires Exec((x: Worker, e: Event) => LoopStep(x, isExit, e), s0, es0) == Some(State())
      modifies this`loop, this`executed
      ensures loop == Draining([], false) && executed == old(executed) + batch
      ensures Exec((x: Worker, e: Event) => LoopStep(x, isExit, e), s0, es) == Some(State())
    {
      ghost var step := (x: Worker, e: Event) => LoopStep(x, isExit, e);
      es := es0;
      var rest := batch;
      while |rest| > 0
        invariant loop == Draining(rest, false)
        invariant executed + rest == old(executed) + batch
        invariant Exec(step, s0, es) == Some(State())
        decreases |rest|
      {
        assert executed + rest == executed + [rest[0]] + rest[1..];
        executed := executed + [rest[0]];
        loop := Draining(rest, true);
        ExecSnoc(step, s0, es, Call(0));
        es := es + [Call(0)];
        rest := rest[1..];
        loop := Draining(rest, false);
        ExecSnoc(step, s0, es, Finish(0));
        es := es + [Finish(0)];
      }
    }
  }
}
