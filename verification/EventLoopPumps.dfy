/** The event loop's pump: every worker has one, and it puts itself back on its worker's queue. */
module EventLoopPumps {
  import opened Runs
  import opened TaskRuntime

  function Pumps(ts: seq<Task>): nat {
    if ts == [] then 0 else (if ts[0].Pump? then 1 else 0) + Pumps(ts[1..])
  }

  /** Pumps that are running and have not yet put themselves back. */
  function Unqueued(stack: seq<Frame>): nat {
    if stack == [] then 0
    else Unqueued(stack[..|stack| - 1]) + if stack[|stack| - 1] == InPump(false) then 1 else 0
  }

  lemma {:induction false} PumpsConcat(a: seq<Task>, b: seq<Task>)
    ensures Pumps(a + b) == Pumps(a) + Pumps(b)
  {
    if a == [] {
      assert a + b == b;
    } else {
      assert (a + b)[1..] == a[1..] + b;
      PumpsConcat(a[1..], b);
    }
  }

  /** Pumps queued or running on a worker. */
  function PumpCount(x: Worker): nat {
    Pumps(Pending(x)) + Unqueued(x.stack)
  }

  ghost predicate PumpInv(s: Runtime) {
    forall i :: 0 <= i < |s.workers| ==> PumpCount(s.workers[i]) == if i < s.started then 1 else 0
  }

  lemma AcceptCount(x: Worker, t: Task)
    ensures PumpCount(Accept(x, t)) == PumpCount(x) + if t.Pump? then 1 else 0
  {
    assert Pending(Accept(x, t)) == Pending(x) + [t];
    PumpsConcat(Pending(x), [t]);
    assert Pumps([t]) == (if t.Pump? then 1 else 0) + Pumps([t][1..]);
  }

  lemma BeginCount(s: Runtime, w: nat, t: Task)
    requires w < |s.workers| && Begin(s, w, t).Some?
    ensures var r := Begin(s, w, t).value;
            |r.workers| == |s.workers|
            && PumpCount(r.workers[w]) == PumpCount(s.workers[w]) + if t.Pump? then 1 else 0
  {
    var x, y := s.workers[w], Begin(s, w, t).value.workers[w];
    BeginFrame(s, w, t);
    assert Pending(y) == Pending(x);
    if y.stack != x.stack {
      BeginPushesFrame(s, w, t);
      UnqueuedSnoc(x.stack, y.stack[|x.stack|]);
    }
  }

  lemma UnqueuedSnoc(stack: seq<Frame>, f: Frame)
    ensures Unqueued(stack + [f]) == Unqueued(stack) + if f == InPump(false) then 1 else 0
  {
    assert (stack + [f])[..|stack|] == stack;
  }

  /** A task that leaves a frame leaves one on top; a pump's is the only one not re-queued. */
  lemma BeginPushesFrame(s: Runtime, w: nat, t: Task)
    requires w < |s.workers| && Begin(s, w, t).Some?
    requires Begin(s, w, t).value.workers[w].stack != s.workers[w].stack
    ensures var x, y := s.workers[w], Begin(s, w, t).value.workers[w];
            |y.stack| == |x.stack| + 1 && y.stack == x.stack + [y.stack[|x.stack|]]
            && (y.stack[|x.stack|] == InPump(false) <==> t.Pump?)
  {
  }

  lemma TakenCount(x: Worker)
    requires x.batch != []
    ensures PumpCount(x) == PumpCount(Taken(x)) + if x.batch[0].Pump? then 1 else 0
  {
    assert x.batch == [x.batch[0]] + x.batch[1..];
    assert Pending(x) == [x.batch[0]] + Pending(Taken(x));
    assert Pending(x)[1..] == Pending(Taken(x));
  }

  lemma RequeuedCount(x: Worker)
    requires x.stack != [] && x.stack[|x.stack| - 1] == InPump(false)
    ensures PumpCount(x) == PumpCount(Requeued(x)) + 1
  {
    var y := Requeued(x);
    assert Pending(y) == Pending(x);
    assert y.stack[..|y.stack| - 1] == x.stack[..|x.stack| - 1];
  }

  lemma SendKeepsPumps(s: Runtime, w: nat, t: Task)
    requires w < |s.workers| && PumpInv(s) && !t.Pump?
    ensures PumpInv(Send(s, w, t))
  {
    AcceptCount(s.workers[w], t);
  }

  lemma BeginKeepsPumps(s: Runtime, w: nat, t: Task)
    requires w < |s.workers| && PumpInv(s) && !t.Pump? && Begin(s, w, t).Some?
    ensures PumpInv(Begin(s, w, t).value)
  {
    BeginCount(s, w, t);
    BeginFrame(s, w, t);
  }

  lemma StartNextKeepsPumps(s: Runtime, w: nat)
    requires PumpInv(s) && Step(s, StartNext(w)).Some?
    ensures PumpInv(Step(s, StartNext(w)).value)
  {
    var x, t := s.workers[w], s.workers[w].batch[0];
    var s1 := Put(s, w, Taken(x));
    var r := Begin(s1, w, t).value;
    assert PumpCount(r.workers[w]) == PumpCount(x) by {
      TakenCount(x);
      BeginCount(s1, w, t);
    }
    assert r.started == s.started && r.workers == s.workers[w := r.workers[w]] by { BeginFrame(s1, w, t); }
    forall i | 0 <= i < |r.workers| ensures PumpCount(r.workers[i]) == if i < s.started then 1 else 0 {
      assert PumpCount(s.workers[i]) == if i < s.started then 1 else 0;
    }
  }

  lemma RequeueKeepsPumps(s: Runtime, w: nat)
    requires PumpInv(s) && Step(s, Requeue(w)).Some?
    ensures PumpInv(Step(s, Requeue(w)).value)
  {
    RequeuedCount(s.workers[w]);
    AcceptCount(Requeued(s.workers[w]), Pump);
  }

  lemma ReturnKeepsPumps(s: Runtime, w: nat)
    requires PumpInv(s) && Step(s, ReturnTop(w)).Some?
    ensures PumpInv(Step(s, ReturnTop(w)).value)
  {
    var x, y := s.workers[w], Step(s, ReturnTop(w)).value.workers[w];
    assert Pending(y) == Pending(x);
    assert y.stack == x.stack[..|x.stack| - 1] && x.stack[|x.stack| - 1] != InPump(false);
    assert PumpCount(y) == PumpCount(x);
  }

  lemma StartKeepsPumps(s: Runtime)
    requires PumpInv(s) && Step(s, StartPump).Some?
    ensures PumpInv(Step(s, StartPump).value)
  {
    AcceptCount(s.workers[s.started], Pump);
  }

  lemma IssueKeepsPumps(s: Runtime, caller: Thread, op: Op)
    requires |s.workers| > 0 && PumpInv(s) && IssueOp(s, caller, op).Some?
    ensures PumpInv(IssueOp(s, caller, op).value)
  {
    var w, t := Owner(op, |s.workers|), Config(caller, op);
    var s1 := Noted(s, caller, op);
    if caller == OnWorker(w) { BeginKeepsPumps(s1, w, t); } else { SendKeepsPumps(s1, w, t); }
  }

  lemma StepKeepsPumps(s: Runtime, e: Event)
    requires QueueInv(s) && PumpInv(s) && Step(s, e).Some?
    ensures PumpInv(Step(s, e).value)
  {
    var n := |s.workers|;
    match e {
      case AddTask(_, id, index) => SendKeepsPumps(s, Clamp(n, index), User(id));
      case AddTaskAsap(caller, id, index) =>
        var w := Clamp(n, index);
        if caller == OnWorker(w) { BeginKeepsPumps(s, w, User(id)); } else { SendKeepsPumps(s, w, User(id)); }
      case Issue(caller, op) => IssueKeepsPumps(s, caller, op);
      case StartPump => StartKeepsPumps(s);
      case SetExit =>
      case StartNext(w) => StartNextKeepsPumps(s, w);
      case Requeue(w) => RequeueKeepsPumps(s, w);
      case ReturnTop(w) => ReturnKeepsPumps(s, w);
      case _ => LoopStepKeepsQueue(s.workers[e.w], s.exit, e);
    }
  }

  // ----- whole runs -----

  ghost predicate Inv(s: Runtime) {
    QueueInv(s) && PumpInv(s)
  }

  lemma AlwaysInv(n: nat, es: seq<Event>)
    ensures var r := Exec(Step, NewRuntime(n), es); r.Some? ==> Inv(r.value)
  {
    forall x: Runtime, e: Event | Inv(x) && Step(x, e).Some? ensures Inv(Step(x, e).value) {
      StepKeepsQueue(x, e);
      StepKeepsPumps(x, e);
    }
    InvariantOverRun(Step, Inv, NewRuntime(n), es);
  }

  /** After one call of `EventLoop::start`, every worker always has exactly one pump queued or
      running; before its turn in that call it has none. */
  lemma ExactlyOnePump(n: nat, es: seq<Event>, s: Runtime, w: nat)
    requires Exec(Step, NewRuntime(n), es) == Some(s) && w < |s.workers|
    ensures PumpCount(s.workers[w]) == if w < s.started then 1 else 0
  {
    AlwaysInv(n, es);
  }

  lemma {:induction false} PumpsPrefix(a: seq<Task>, k: nat)
    requires k <= |a|
    ensures Pumps(a[..k]) <= Pumps(a)
  {
    assert a == a[..k] + a[k..];
    PumpsConcat(a[..k], a[k..]);
  }

  /** While a task accepted by state `s` has not begun, its worker starts at most one more pump:
      a pump that puts itself back goes behind the task. */
  lemma AtMostOnePumpAhead(n: nat, es: seq<Event>, s: Runtime, fs: seq<Event>, t: Runtime, w: nat, position: nat)
    requires Exec(Step, NewRuntime(n), es) == Some(s) && Exec(Step, s, fs) == Some(t)
    requires w < |s.workers| && w < |t.workers|
    requires position < |s.workers[w].accepted|
    requires |t.workers[w].executed| <= position
    ensures |s.workers[w].executed| <= |t.workers[w].executed|
    ensures Pumps(t.workers[w].executed[|s.workers[w].executed|..]) <= 1
  {
    var x, y := s.workers[w], t.workers[w];
    AlwaysInv(n, es);
    assert QueueOk(x) && PumpCount(x) <= 1;
    RunGrows(s, fs);
    assert WorkerGrows(x, y);
    assert QueueOk(y) by {
      ExecConcat(Step, NewRuntime(n), es, fs);
      AlwaysInv(n, es + fs);
    }
    var k := |y.executed| - |x.executed|;
    assert y.executed == y.accepted[..|y.executed|] == x.accepted[..|y.executed|];
    assert y.executed[|x.executed|..] == Pending(x)[..k];
    PumpsPrefix(Pending(x), k);
  }
}
