/** The calls a schedule makes on the service table, against what becomes of them. */
module ServiceCalls {
  import opened Runs
  import opened TaskRuntime
  import opened ServiceTable
  import opened ServiceOrder
  import Schedule

  /** The table operations a schedule calls, in its order. */
  function Issued(es: seq<Event>): seq<Task> {
    if es == [] then []
    else
      var e := es[|es| - 1];
      Issued(es[..|es| - 1]) + if e.Issue? then [Config(e.caller, e.op)] else []
  }

  lemma StepIssues(s: Runtime, e: Event)
    requires Step(s, e).Some?
    ensures Step(s, e).value.issued == s.issued + if e.Issue? then [Config(e.caller, e.op)] else []
  {
    match e {
      case StartNext(w) => BeginFrame(Put(s, w, Taken(s.workers[w])), w, s.workers[w].batch[0]);
      case Issue(caller, op) =>
        var w := Owner(op, |s.workers|);
        if caller == OnWorker(w) { BeginFrame(Noted(s, caller, op), w, Config(caller, op)); }
      case _ =>
    }
  }

  lemma {:induction false} IssuedIsTheCalls(n: nat, es: seq<Event>, s: Runtime)
    requires Exec(Step, NewRuntime(n), es) == Some(s)
    ensures s.issued == Issued(es)
    decreases |es|
  {
    if es != [] {
      var before := es[..|es| - 1];
      var t := Exec(Step, NewRuntime(n), before).value;
      IssuedIsTheCalls(n, before, t);
      StepIssues(t, es[|es| - 1]);
    }
  }

  // ----- every call takes effect once -----

  /** How often an operation has taken effect, is being carried out, or waits on worker `x`. */
  function Count(effects: seq<Task>, x: Worker, t: Task): nat {
    multiset(effects)[t] + multiset(Deleting(x.stack))[t] + multiset(Pending(x))[t]
  }

  /** The same, at the worker the operation's key names. */
  function CountAt(s: Runtime, t: Task): nat
    requires t.Config? && |s.workers| > 0
  {
    Count(s.effects, s.workers[t.op.key % |s.workers|], t)
  }

  lemma SendCounts(s: Runtime, w: nat, u: Task, t: Task)
    requires w < |s.workers| && t.Config? && (u == t ==> w == t.op.key % |s.workers|)
    ensures CountAt(Send(s, w, u), t) == CountAt(s, t) + if u == t then 1 else 0
  {
    AcceptedCount(s.effects, s.workers[w], u, t);
  }

  lemma BeginOpCounts(s: Runtime, w: nat, u: Task, t: Task)
    requires w < |s.workers| && t.Config? && Begin(s, w, u).Some?
    requires u.Config? && u.op.key % |s.workers| == w
    ensures |Begin(s, w, u).value.workers| == |s.workers|
    ensures CountAt(Begin(s, w, u).value, t) == CountAt(s, t) + if u == t then 1 else 0
  {
    BeginFrame(s, w, u);
    BeginOpShape(s, w, u);
    assert Pending(Begin(s, w, u).value.workers[w]) == Pending(s.workers[w]);
  }

  lemma BeginPlainCounts(s: Runtime, w: nat, u: Task, t: Task)
    requires w < |s.workers| && t.Config? && Begin(s, w, u).Some? && !u.Config?
    ensures |Begin(s, w, u).value.workers| == |s.workers|
    ensures CountAt(Begin(s, w, u).value, t) == CountAt(s, t)
  {
    var x, y := s.workers[w], Begin(s, w, u).value.workers[w];
    BeginFrame(s, w, u);
    var f := if u.User? then InUser(u.id) else InPump(false);
    assert y == x.(stack := x.stack + [f]);
    DeletingSnoc(x.stack, f);
    SameCount(s.effects, x, y, t);
  }

  lemma SameCount(effects: seq<Task>, x: Worker, y: Worker, t: Task)
    requires Deleting(y.stack) == Deleting(x.stack)
    requires y.batch == x.batch && y.front == x.front && y.tail == x.tail
    ensures Count(effects, y, t) == Count(effects, x, t)
  {
  }

  lemma IssueCounts(s: Runtime, caller: Thread, op: Op, t: Task)
    requires |s.workers| > 0 && t.Config? && op.key < Schedule.U63 && IssueOp(s, caller, op).Some?
    ensures |IssueOp(s, caller, op).value.workers| == |s.workers|
    ensures CountAt(IssueOp(s, caller, op).value, t) == CountAt(s, t) + if Config(caller, op) == t then 1 else 0
  {
    var w, u, s1 := Owner(op, |s.workers|), Config(caller, op), Noted(s, caller, op);
    OwnerIsRemainder(op, |s.workers|);
    if caller == OnWorker(w) { BeginOpCounts(s1, w, u, t); } else { SendCounts(s1, w, u, t); }
  }

  lemma TakenCounts(s: Runtime, w: nat, t: Task)
    requires w < |s.workers| && t.Config? && s.workers[w].batch != []
    requires s.workers[w].batch[0] == t ==> w == t.op.key % |s.workers|
    ensures CountAt(s, t) == CountAt(Put(s, w, Taken(s.workers[w])), t) + if s.workers[w].batch[0] == t then 1 else 0
  {
    var x, y := s.workers[w], Taken(s.workers[w]);
    assert x.batch == [x.batch[0]] + x.batch[1..];
    assert Pending(x) == [x.batch[0]] + Pending(y);
  }

  lemma StartNextCounts(s: Runtime, w: nat, t: Task)
    requires TableInv(s) && t.Config? && Step(s, StartNext(w)).Some?
    ensures |Step(s, StartNext(w)).value.workers| == |s.workers|
    ensures CountAt(Step(s, StartNext(w)).value, t) == CountAt(s, t)
  {
    var x := s.workers[w];
    var u, s1 := x.batch[0], Put(s, w, Taken(x));
    assert u in Pending(x) && ShardOk(x, w, |s.workers|);
    TakenCounts(s, w, t);
    if u.Config? { BeginOpCounts(s1, w, u, t); } else { BeginPlainCounts(s1, w, u, t); }
  }

  lemma ReturnCounts(s: Runtime, w: nat, t: Task)
    requires TableInv(s) && t.Config? && w < |s.workers| && ReturnFrom(s, w).Some?
    ensures |ReturnFrom(s, w).value.workers| == |s.workers|
    ensures CountAt(ReturnFrom(s, w).value, t) == CountAt(s, t)
  {
    var x, r := s.workers[w], ReturnFrom(s, w).value;
    var top := ReturnShape(s, w);
    DeletingSnoc(r.workers[w].stack, top);
    if top.InDelete? {
      ErasedCount(s.effects, x, r.workers[w], top.cfg, t);
      OtherEffect(s.effects, top.cfg, t);
    } else {
      assert r.effects == s.effects;
    }
  }

  lemma ErasedCount(effects: seq<Task>, x: Worker, y: Worker, cfg: Task, t: Task)
    requires Deleting(x.stack) == Deleting(y.stack) + [cfg] && Pending(y) == Pending(x)
    ensures Count(effects + [cfg], y, t) == Count(effects, x, t)
  {
  }

  lemma OtherEffect(effects: seq<Task>, cfg: Task, t: Task)
    ensures cfg != t ==> multiset(effects + [cfg])[t] == multiset(effects)[t]
  {
  }

  /** A return takes the top frame off; a deletion's then takes effect. */
  lemma ReturnShape(s: Runtime, w: nat) returns (top: Frame)
    requires TableInv(s) && w < |s.workers| && ReturnFrom(s, w).Some?
    ensures var r := ReturnFrom(s, w).value;
            && |r.workers| == |s.workers| && r.workers == s.workers[w := r.workers[w]]
            && s.workers[w].stack == r.workers[w].stack + [top]
            && Pending(r.workers[w]) == Pending(s.workers[w])
            && r.effects == s.effects + if top.InDelete? then [top.cfg] else []
    ensures top.InDelete? ==> top.cfg.Config? && top.cfg.op.key % |s.workers| == w
  {
    var x := s.workers[w];
    top := x.stack[|x.stack| - 1];
    assert ShardOk(x, w, |s.workers|) && top in x.stack;
    assert FrameOk(top, x, w, |s.workers|);
  }

  lemma RequeueCounts(s: Runtime, w: nat, t: Task)
    requires t.Config? && Step(s, Requeue(w)).Some?
    ensures |Step(s, Requeue(w)).value.workers| == |s.workers|
    ensures CountAt(Step(s, Requeue(w)).value, t) == CountAt(s, t)
  {
    var x := s.workers[w];
    var y, below := Requeued(x), x.stack[..|x.stack| - 1];
    assert x.stack == below + [InPump(false)];
    DeletingSnoc(below, InPump(false));
    DeletingSnoc(below, InPump(true));
    SameCount(s.effects, x, y, t);
    AcceptedCount(s.effects, y, Pump, t);
  }

  lemma AcceptedCount(effects: seq<Task>, x: Worker, u: Task, t: Task)
    ensures Count(effects, Accept(x, u), t) == Count(effects, x, t) + if u == t then 1 else 0
  {
    assert Pending(Accept(x, u)) == Pending(x) + [u];
  }

  /** A step adds an operation exactly when it calls it. */
  lemma StepCounts(s: Runtime, e: Event, t: Task)
    requires QueueInv(s) && TableInv(s) && t.Config? && Step(s, e).Some?
    ensures |Step(s, e).value.workers| == |s.workers|
    ensures CountAt(Step(s, e).value, t) == CountAt(s, t) + if e == Issue(t.caller, t.op) then 1 else 0
  {
    var n := |s.workers|;
    match e {
      case AddTask(_, id, index) => SendCounts(s, Clamp(n, index), User(id), t);
      case AddTaskAsap(caller, id, index) => AsapCounts(s, caller, id, index, t);
      case Issue(caller, op) => IssueCounts(s, caller, op, t);
      case StartPump => StartCounts(s, t);
      case SetExit =>
      case StartNext(w) => StartNextCounts(s, w, t);
      case Requeue(w) => RequeueCounts(s, w, t);
      case ReturnTop(w) => ReturnCounts(s, w, t);
      case _ => LoopCounts(s, e.w, e, t);
    }
  }

  lemma AsapCounts(s: Runtime, caller: Thread, id: nat, index: nat, t: Task)
    requires t.Config? && Step(s, AddTaskAsap(caller, id, index)).Some?
    ensures |Step(s, AddTaskAsap(caller, id, index)).value.workers| == |s.workers|
    ensures CountAt(Step(s, AddTaskAsap(caller, id, index)).value, t) == CountAt(s, t)
  {
    var w := Clamp(|s.workers|, index);
    if caller == OnWorker(w) { BeginPlainCounts(s, w, User(id), t); } else { SendCounts(s, w, User(id), t); }
  }

  lemma StartCounts(s: Runtime, t: Task)
    requires t.Config? && Step(s, StartPump).Some?
    ensures |Step(s, StartPump).value.workers| == |s.workers|
    ensures CountAt(Step(s, StartPump).value, t) == CountAt(s, t)
  {
    SendCounts(s, s.started, Pump, t);
  }

  lemma LoopCounts(s: Runtime, w: nat, e: Event, t: Task)
    requires QueueInv(s) && t.Config? && w < |s.workers| && LoopStep(s.workers[w], s.exit, e).Some?
    ensures CountAt(Put(s, w, LoopStep(s.workers[w], s.exit, e).value), t) == CountAt(s, t)
  {
    LoopStepKeepsQueue(s.workers[w], s.exit, e);
  }

  /** In every run, an operation has been called as often as it has taken effect, is being carried
      out by the worker its key names, or waits there: none is lost and none takes effect twice, also
      where the order is crossed. */
  lemma {:induction false} EveryCallTakesEffectOnce(n: nat, es: seq<Event>, s: Runtime, caller: Thread, op: Op)
    requires n > 0 && Exec(Step, NewRuntime(n), es) == Some(s)
    ensures |s.workers| == n
    ensures var t, x := Config(caller, op), s.workers[op.key % n];
            multiset(Issued(es))[t]
            == multiset(s.effects)[t] + multiset(Deleting(x.stack))[t] + multiset(Pending(x))[t]
    decreases |es|
  {
    if es != [] {
      var before, e := es[..|es| - 1], es[|es| - 1];
      var r := Exec(Step, NewRuntime(n), before).value;
      EveryCallTakesEffectOnce(n, before, r, caller, op);
      ServiceTable.AlwaysInv(n, before);
      StepCounts(r, e, Config(caller, op));
    }
  }

  // ----- when the order of one thread's calls is kept -----

  /** The event is a call on the service from inside the `before` callback of the same thread's own
      deletion of it. */
  ghost predicate CallsInsideDeletion(s: Runtime, e: Event, caller: Thread, key: nat) {
    && e.Issue? && e.caller == caller && e.op.key == key
    && caller.OnWorker? && caller.index < |s.workers|
    && InDelete(Config(caller, Del(key))) in s.workers[caller.index].stack
  }

  /** The `k`-th event of the schedule is such a call. */
  ghost predicate CrossesAt(n: nat, es: seq<Event>, k: nat, caller: Thread, key: nat)
    requires k < |es|
  {
    var s := Exec(Step, NewRuntime(n), es[..k]);
    s.Some? && CallsInsideDeletion(s.value, es[k], caller, key)
  }

  lemma DeletingForMeans(s: Runtime, w: nat, caller: Thread, key: nat)
    requires TableInv(s) && w < |s.workers|
    ensures IsDeletingFor(s.workers[w], caller, key) <==> InDelete(Config(caller, Del(key))) in s.workers[w].stack
    ensures IsDeletingFor(s.workers[w], caller, key) ==> w == key % |s.workers|
  {
    var x := s.workers[w];
    assert ShardOk(x, w, |s.workers|);
    if IsDeletingFor(x, caller, key) {
      var f :| f in x.stack && f.InDelete? && Matches(f.cfg, caller, key);
      assert FrameOk(f, x, w, |s.workers|);
      assert f == InDelete(Config(caller, Del(key)));
    }
  }

  lemma StepCrosses(s: Runtime, e: Event, caller: Thread, key: nat)
    requires TableInv(s) && Step(s, e).Some?
    ensures (caller, key) in Step(s, e).value.crossed <==>
            (caller, key) in s.crossed || CallsInsideDeletion(s, e, caller, key)
  {
    match e {
      case StartNext(w) => BeginFrame(Put(s, w, Taken(s.workers[w])), w, s.workers[w].batch[0]);
      case Issue(c, op) =>
        var w := Owner(op, |s.workers|);
        OwnerIsRemainder(op, |s.workers|);
        if c == OnWorker(w) { BeginFrame(Noted(s, c, op), w, Config(c, op)); }
        if c.OnWorker? { DeletingForMeans(s, c.index, c, op.key); }
      case _ =>
    }
  }

  /** Some event of the schedule is such a call. */
  ghost predicate Crosses(n: nat, es: seq<Event>, caller: Thread, key: nat) {
    exists k :: 0 <= k < |es| && CrossesAt(n, es, k, caller, key)
  }

  lemma CrossesSnoc(n: nat, es: seq<Event>, caller: Thread, key: nat)
    requires es != []
    ensures Crosses(n, es, caller, key) <==>
            Crosses(n, es[..|es| - 1], caller, key) || CrossesAt(n, es, |es| - 1, caller, key)
  {
    var before, m := es[..|es| - 1], |es| - 1;
    forall k | 0 <= k < m ensures CrossesAt(n, es, k, caller, key) <==> CrossesAt(n, before, k, caller, key) {
      assert es[..k] == before[..k];
    }
    if Crosses(n, before, caller, key) {
      var k :| 0 <= k < m && CrossesAt(n, before, k, caller, key);
      assert CrossesAt(n, es, k, caller, key);
    }
  }

  lemma {:induction false} CrossedIff(n: nat, es: seq<Event>, s: Runtime, caller: Thread, key: nat)
    requires n > 0 && Exec(Step, NewRuntime(n), es) == Some(s)
    ensures (caller, key) in s.crossed <==> Crosses(n, es, caller, key)
    decreases |es|
  {
    if es != [] {
      var before := es[..|es| - 1];
      var r := Exec(Step, NewRuntime(n), before).value;
      CrossedIff(n, before, r, caller, key);
      CrossesSnoc(n, es, caller, key);
      ServiceTable.AlwaysInv(n, before);
      StepCrosses(r, es[|es| - 1], caller, key);
    }
  }

  /** In every run, one thread's operations on one service have taken effect in the order in which the
      schedule calls them if and only if none of the calls is made from inside the `before` callback of
      that thread's own deletion of the service; then those not yet in effect follow in order, first
      the one being carried out and then those waiting on the worker the key names. */
  lemma OrderKeptIff(n: nat, es: seq<Event>, s: Runtime, caller: Thread, key: nat)
    requires n > 0 && Exec(Step, NewRuntime(n), es) == Some(s)
    ensures |s.workers| == n
    ensures Of(s.effects, caller, key) <= Of(Issued(es), caller, key) <==>
            !Crosses(n, es, caller, key)
    ensures var x := s.workers[key % n];
            Of(s.effects, caller, key) <= Of(Issued(es), caller, key) ==>
            Of(Issued(es), caller, key)
            == Of(s.effects, caller, key) + Of(Deleting(x.stack), caller, key) + Of(Pending(x), caller, key)
  {
    RunGrows(NewRuntime(n), es);
    IssuedIsTheCalls(n, es, s);
    CrossedIff(n, es, s, caller, key);
    EffectsFollowIssueOrderIff(n, es, s, caller, key);
    ServiceOrder.AlwaysInv(n, es);
    assert OrderOk(s.issued, s.effects, s.crossed, s.workers[key % n], key % n, n);
    assert Ordered(s.issued, s.effects, s.crossed, s.workers[key % n], caller, key);
  }
}
