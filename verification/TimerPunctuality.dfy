/** When the timer manager hands a task out: the first `check` at or after its deadline. */
module TimerPunctuality {
  import opened Runs
  import opened Heaps
  import opened Timers

  /** The latest time in a history of a task that occurs there. */
  function LastAt(log: seq<Stamp>, id: nat): Word {
    if log == [] then 0
    else if log[|log| - 1].id == id then log[|log| - 1].at
    else LastAt(log[..|log| - 1], id)
  }

  ghost predicate IdIn(m: multiset<Entry>, id: nat) {
    exists p :: p in m && p.value.id == id
  }

  /** A pending entry's key is the deadline of the task's latest scheduling. */
  ghost predicate KeyOk(s: Timer, p: Entry) {
    p.key == Deadline(p.value.interval, LastAt(s.scheduled, p.value.id))
  }

  /** A task has been scheduled once more than it has run while it is pending, and as often as it
      has run otherwise. */
  ghost predicate Balanced(s: Timer, id: nat) {
    Times(s.scheduled, id) == Times(s.fired, id) + if IdIn(Pending(s), id) then 1 else 0
  }

  ghost predicate Keys(s: Timer) {
    && (forall p :: p in Pending(s) ==> KeyOk(s, p))
    && (forall p :: p in s.waiting ==> p.key <= s.now)
  }

  ghost predicate Accounts(s: Timer) {
    && (forall j :: 0 <= j < |s.scheduled| ==> s.scheduled[j].id < |s.created|)
    && (forall id :: 0 <= id < |s.created| ==> Balanced(s, id))
  }

  ghost predicate Punctual(d: nat, s: Timer)
    requires d > 0
  {
    Structure(d, s) && Keys(s) && Accounts(s)
  }

  lemma LogSnoc(log: seq<Stamp>, e: Stamp, id: nat)
    ensures Times(log + [e], id) == Times(log, id) + if e.id == id then 1 else 0
    ensures LastAt(log + [e], id) == if e.id == id then e.at else LastAt(log, id)
  {
    assert (log + [e])[..|log|] == log;
  }

  /** What scheduling a task adds to the pending entries. */
  lemma ScheduledPending(d: nat, s: Timer, task: Task)
    requires d > 0 && HeapOrdered(d, s.heap)
    ensures Pending(Schedule(d, s, task)) == Pending(s) + multiset{Pair(Deadline(task.interval, s.now), task)}
  {
    PushCorrect(d, s.heap, Pair(Deadline(task.interval, s.now), task));
  }

  lemma ScheduleKeepsKeys(d: nat, s: Timer, task: Task)
    requires d > 0 && Structure(d, s) && Keys(s)
    requires !IdIn(Pending(s), task.id)
    ensures Keys(Schedule(d, s, task))
  {
    var t, e := Schedule(d, s, task), Pair(Deadline(task.interval, s.now), task);
    ScheduledPending(d, s, task);
    forall p | p in Pending(t) ensures KeyOk(t, p) {
      LogSnoc(s.scheduled, Stamp(task.id, s.now), p.value.id);
      if p != e {
        assert p in Pending(s) && KeyOk(s, p);
      }
    }
  }

  /** Scheduling a task that has run as often as it was scheduled makes it pending again. */
  lemma ScheduleKeepsAccounts(d: nat, s: Timer, task: Task)
    requires d > 0 && HeapOrdered(d, s.heap) && Accounts(s)
    requires task.id < |s.created| && !IdIn(Pending(s), task.id)
    ensures Accounts(Schedule(d, s, task))
  {
    var t, e := Schedule(d, s, task), Pair(Deadline(task.interval, s.now), task);
    ScheduledPending(d, s, task);
    forall id | 0 <= id < |t.created| ensures Balanced(t, id) {
      assert Balanced(s, id);
      LogSnoc(s.scheduled, Stamp(task.id, s.now), id);
      if id == task.id {
        assert e in Pending(t);
      } else {
        OtherIdUnchanged(Pending(s), e, id);
      }
    }
  }

  lemma OtherIdUnchanged(m: multiset<Entry>, e: Entry, id: nat)
    requires e.value.id != id
    ensures IdIn(m + multiset{e}, id) <==> IdIn(m, id)
  {
    if IdIn(m, id) {
      var p :| p in m && p.value.id == id;
      assert p in m + multiset{e};
    }
    if IdIn(m + multiset{e}, id) {
      var p :| p in m + multiset{e} && p.value.id == id;
      assert p in m;
    }
  }

  lemma NotedKeepsPunctual(d: nat, s: Timer, interval: Word)
    requires d > 0 && Punctual(d, s)
    ensures Punctual(d, Noted(s, interval)) && !IdIn(Pending(Noted(s, interval)), |s.created|)
  {
    var t, n := Noted(s, interval), |s.created|;
    NotedKeepsStructure(d, s, interval);
    assert Pending(t) == Pending(s);
    NoFirings(s.scheduled, n, n);
    NoFirings(s.fired, n, n);
    forall p | p in Pending(t) ensures KeyOk(t, p) {
      assert KeyOk(s, p);
    }
    forall id | 0 <= id < |t.created| ensures Balanced(t, id) {
      if id < n { assert Balanced(s, id); }
    }
  }

  lemma CreateKeepsPunctual(d: nat, s: Timer, interval: Word)
    requires d > 0 && Punctual(d, s)
    ensures Punctual(d, Step(d, s, Create(interval)).value)
  {
    var t, task := Noted(s, interval), Task(|s.created|, interval);
    NotedKeepsPunctual(d, s, interval);
    ScheduleKeepsPunctual(d, t, task);
  }

  lemma ScheduleKeepsPunctual(d: nat, s: Timer, task: Task)
    requires d > 0 && Punctual(d, s) && !IdIn(Pending(s), task.id)
    requires task.id < |s.created| && task.interval == s.created[task.id].interval
    ensures Punctual(d, Schedule(d, s, task)) && IdIn(Pending(Schedule(d, s, task)), task.id)
  {
    assert forall p :: p in Pending(s) ==> p.value.id != task.id;
    ScheduleKeepsStructure(d, s, task);
    ScheduleKeepsKeys(d, s, task);
    ScheduleKeepsAccounts(d, s, task);
    ScheduledPending(d, s, task);
    assert Pair(Deadline(task.interval, s.now), task) in Pending(Schedule(d, s, task));
  }

  lemma SamePendingSameAccounts(s: Timer, t: Timer)
    requires Accounts(s) && Pending(t) == Pending(s)
    requires t.created == s.created && t.scheduled == s.scheduled && t.fired == s.fired
    ensures Accounts(t)
  {
    forall id | 0 <= id < |t.created| ensures Balanced(t, id) {
      assert Balanced(s, id);
    }
  }

  lemma CheckKeepsPunctual(d: nat, s: Timer)
    requires d > 0 && Punctual(d, s)
    ensures Punctual(d, Step(d, s, CheckNow).value)
    ensures forall p :: p in Step(d, s, CheckNow).value.heap ==> s.now < p.key
  {
    var t := Step(d, s, CheckNow).value;
    CheckConserves(d, s.heap, s.now);
    CheckSplitsAtNow(d, s.heap, s.now);
    assert Pending(t) == Pending(s);
    CheckKeepsStructure(d, s);
    SamePendingSameAccounts(s, t);
    forall p | p in Pending(t) ensures KeyOk(t, p) {
      assert KeyOk(s, p);
    }
  }

  /** Calling a handed-out task takes its one entry away. */
  lemma CalledPending(d: nat, s: Timer, i: nat)
    requires d > 0 && Structure(d, s) && i < |s.waiting|
    ensures Pending(s) == Pending(Called(s, i)) + multiset{s.waiting[i]}
    ensures IdIn(Pending(s), s.waiting[i].value.id) && !IdIn(Pending(Called(s, i)), s.waiting[i].value.id)
  {
    var t, e := Called(s, i), s.waiting[i];
    assert s.waiting == s.waiting[..i] + [e] + s.waiting[i + 1..];
    assert e in Pending(s);
    CallKeepsStructure(d, s, i);
  }

  lemma CallKeepsPunctual(d: nat, s: Timer, i: nat)
    requires d > 0 && Punctual(d, s) && i < |s.waiting|
    ensures Punctual(d, Called(s, i)) && !IdIn(Pending(Called(s, i)), s.waiting[i].value.id)
  {
    var t, e := Called(s, i), s.waiting[i];
    CallKeepsStructure(d, s, i);
    CalledPending(d, s, i);
    forall p | p in Pending(t) ensures KeyOk(t, p) {
      assert p in Pending(s) && KeyOk(s, p);
    }
    forall id | 0 <= id < |t.created| ensures Balanced(t, id) {
      assert Balanced(s, id);
      FiringsAfterCall(s, i, id);
      if id != e.value.id { OtherIdUnchanged(Pending(t), e, id); }
    }
  }

  lemma ProxyExecKeepsPunctual(d: nat, s: Timer, i: nat, again: bool)
    requires d > 0 && Punctual(d, s) && i < |s.waiting|
    ensures Punctual(d, Step(d, s, ProxyExec(i, again)).value)
    ensures IdIn(Pending(Step(d, s, ProxyExec(i, again)).value), s.waiting[i].value.id) <==> again
  {
    var t, e := Called(s, i), s.waiting[i];
    CallKeepsPunctual(d, s, i);
    CallKeepsStructure(d, s, i);
    if again { ScheduleKeepsPunctual(d, t, e.value); }
  }

  lemma TickKeepsPunctual(d: nat, s: Timer, to: Word)
    requires d > 0 && Punctual(d, s) && s.now <= to
    ensures Punctual(d, s.(now := to))
  {
    var t := s.(now := to);
    assert Pending(t) == Pending(s);
    forall p | p in Pending(t) ensures Known(t, p) && KeyOk(t, p) {
      assert Known(s, p) && KeyOk(s, p);
    }
    SamePendingSameAccounts(s, t);
  }

  lemma StepKeepsPunctual(d: nat, s: Timer, e: Event)
    requires d > 0 && Punctual(d, s) && Step(d, s, e).Some?
    ensures Punctual(d, Step(d, s, e).value)
  {
    match e {
      case Tick(to) => TickKeepsPunctual(d, s, to);
      case Create(interval) => CreateKeepsPunctual(d, s, interval);
      case CheckNow => CheckKeepsPunctual(d, s);
      case ProxyExec(i, again) => ProxyExecKeepsPunctual(d, s, i, again);
    }
  }

  lemma {:induction false} AlwaysPunctual(d: nat, now: Word, es: seq<Event>)
    requires d > 0
    ensures var r := Exec((s: Timer, e: Event) => Step(d, s, e), NewTimer(now), es);
            r.Some? ==> Punctual(d, r.value)
    decreases |es|
  {
    var step := (s: Timer, e: Event) => Step(d, s, e);
    if es == [] {
      assert Pending(NewTimer(now)) == multiset{};
    } else {
      var before := Exec(step, NewTimer(now), es[..|es| - 1]);
      AlwaysPunctual(d, now, es[..|es| - 1]);
      if before.Some? && step(before.value, es[|es| - 1]).Some? {
        StepKeepsPunctual(d, before.value, es[|es| - 1]);
      }
    }
  }

  /** In any run that ends with a `check`, over a heap of any arity: a task that has been scheduled and
      not yet run since is handed out, and no longer in the heap, if and only if its latest
      scheduling plus its interval is not after the present time, provided that sum did not wrap. */
  lemma DueTaskIsHandedOut(d: nat, now: Word, es: seq<Event>, s: Timer, id: nat)
    requires d > 0
    requires Exec((s: Timer, e: Event) => Step(d, s, e), NewTimer(now), es + [CheckNow]) == Some(s)
    requires id < |s.created| && Times(s.scheduled, id) > Times(s.fired, id)
    requires LastAt(s.scheduled, id) + s.created[id].interval < U64
    ensures IdIn(multiset(s.waiting), id) <==> LastAt(s.scheduled, id) + s.created[id].interval <= s.now
    ensures IdIn(multiset(s.heap), id) <==> LastAt(s.scheduled, id) + s.created[id].interval > s.now
  {
    var step := (s: Timer, e: Event) => Step(d, s, e);
    assert (es + [CheckNow])[..|es|] == es;
    var b := Exec(step, NewTimer(now), es).value;
    AlwaysPunctual(d, now, es);
    CheckKeepsPunctual(d, b);
    assert Balanced(s, id);
    OnePlaceByKey(d, s, id);
  }

  /** After a check the one pending entry of a task is in the heap or handed out, by its key. */
  lemma OnePlaceByKey(d: nat, s: Timer, id: nat)
    requires d > 0 && Punctual(d, s) && (forall p :: p in s.heap ==> s.now < p.key)
    requires id < |s.created| && IdIn(Pending(s), id)
    requires LastAt(s.scheduled, id) + s.created[id].interval < U64
    ensures IdIn(multiset(s.waiting), id) <==> LastAt(s.scheduled, id) + s.created[id].interval <= s.now
    ensures IdIn(multiset(s.heap), id) <==> LastAt(s.scheduled, id) + s.created[id].interval > s.now
  {
    var due := LastAt(s.scheduled, id) + s.created[id].interval;
    forall p | p in multiset(s.heap) && p.value.id == id ensures p.key == due && due > s.now {
      KeyIsDue(d, s, p);
      assert p in s.heap;
    }
    forall p | p in multiset(s.waiting) && p.value.id == id ensures p.key == due && due <= s.now {
      KeyIsDue(d, s, p);
      assert p in s.waiting;
    }
    var q :| q in Pending(s) && q.value.id == id;
    assert q in multiset(s.heap) || q in multiset(s.waiting);
  }

  lemma KeyIsDue(d: nat, s: Timer, p: Entry)
    requires d > 0 && Punctual(d, s) && p in Pending(s)
    requires p.value.id < |s.created| && LastAt(s.scheduled, p.value.id) + s.created[p.value.id].interval < U64
    ensures p.key == LastAt(s.scheduled, p.value.id) + s.created[p.value.id].interval
  {
    assert Known(s, p) && KeyOk(s, p);
    DeadlineExactUnlessOverflow(p.value.interval, LastAt(s.scheduled, p.value.id));
  }

  // ----- histories and events -----

  /** The clock after some events. */
  function Clock(now: Word, es: seq<Event>): Word {
    if es == [] then now
    else if es[|es| - 1].Tick? then es[|es| - 1].to
    else Clock(now, es[..|es| - 1])
  }

  /** The tasks created by some events, with the time of the call. */
  function Creations(now: Word, es: seq<Event>): seq<Creation> {
    if es == [] then []
    else
      var init, e := es[..|es| - 1], es[|es| - 1];
      Creations(now, init) + if e.Create? then [Creation(Clock(now, init), e.interval)] else []
  }

  /** How many tasks some events run, and how many of those ask to run again. */
  function Executions(es: seq<Event>): nat {
    if es == [] then 0 else Executions(es[..|es| - 1]) + if es[|es| - 1].ProxyExec? then 1 else 0
  }

  function Repeats(es: seq<Event>): nat {
    if es == [] then 0
    else Repeats(es[..|es| - 1]) + if es[|es| - 1].ProxyExec? && es[|es| - 1].again then 1 else 0
  }

  /** The histories are those of the calls made: creations with the time and interval of the call, one
      firing per `proxy_exec`, and one scheduling per creation and per task that asked to run again. */
  lemma {:induction false} HistoriesAreTheCalls(d: nat, now: Word, es: seq<Event>, s: Timer)
    requires d > 0 && Exec((s: Timer, e: Event) => Step(d, s, e), NewTimer(now), es) == Some(s)
    ensures s.now == Clock(now, es) && s.created == Creations(now, es)
    ensures |s.fired| == Executions(es) && |s.scheduled| == |s.created| + Repeats(es)
    decreases |es|
  {
    var step := (s: Timer, e: Event) => Step(d, s, e);
    if es != [] {
      var init := es[..|es| - 1];
      HistoriesAreTheCalls(d, now, init, Exec(step, NewTimer(now), init).value);
    }
  }

  /** A scheduling whose deadline does not fit 64 bits. */
  predicate Wraps(created: seq<Creation>, e: Stamp) {
    e.id < |created| && e.at + created[e.id].interval >= U64
  }

  predicate SomeWraps(created: seq<Creation>, scheduled: seq<Stamp>) {
    exists j :: 0 <= j < |scheduled| && Wraps(created, scheduled[j])
  }

  lemma SomeWrapsSnoc(created: seq<Creation>, scheduled: seq<Stamp>, e: Stamp)
    ensures SomeWraps(created, scheduled + [e]) <==> SomeWraps(created, scheduled) || Wraps(created, e)
  {
    var more := scheduled + [e];
    assert more[|scheduled|] == e;
    if SomeWraps(created, scheduled) {
      var j :| 0 <= j < |scheduled| && Wraps(created, scheduled[j]);
      assert Wraps(created, more[j]);
    }
  }

  lemma MoreCreated(created: seq<Creation>, c: Creation, scheduled: seq<Stamp>)
    requires forall j :: 0 <= j < |scheduled| ==> scheduled[j].id < |created|
    ensures SomeWraps(created + [c], scheduled) <==> SomeWraps(created, scheduled)
  {
    forall j | 0 <= j < |scheduled| ensures Wraps(created + [c], scheduled[j]) <==> Wraps(created, scheduled[j]) {
    }
  }

  lemma StepWraps(d: nat, s: Timer, e: Event)
    requires d > 0 && Punctual(d, s) && Step(d, s, e).Some?
    ensures var t := Step(d, s, e).value;
            (s.overflowed <==> SomeWraps(s.created, s.scheduled)) ==>
            (t.overflowed <==> SomeWraps(t.created, t.scheduled))
  {
    match e {
      case Create(interval) =>
        var c := Creation(s.now, interval);
        MoreCreated(s.created, c, s.scheduled);
        SomeWrapsSnoc(s.created + [c], s.scheduled, Stamp(|s.created|, s.now));
      case ProxyExec(i, again) =>
        var task := s.waiting[i].value;
        assert s.waiting[i] in Pending(s) && Known(s, s.waiting[i]);
        SomeWrapsSnoc(s.created, s.scheduled, Stamp(task.id, s.now));
      case _ =>
    }
  }

  /** A run has overflowed exactly when some scheduling in it has a deadline of 2^64 or more. */
  lemma {:induction false} OverflowedIff(d: nat, now: Word, es: seq<Event>, s: Timer)
    requires d > 0 && Exec((s: Timer, e: Event) => Step(d, s, e), NewTimer(now), es) == Some(s)
    ensures s.overflowed <==> SomeWraps(s.created, s.scheduled)
    decreases |es|
  {
    var step := (s: Timer, e: Event) => Step(d, s, e);
    if es != [] {
      var init := es[..|es| - 1];
      var b := Exec(step, NewTimer(now), init).value;
      OverflowedIff(d, now, init, b);
      AlwaysPunctual(d, now, init);
      StepWraps(d, b, es[|es| - 1]);
    }
  }
}
