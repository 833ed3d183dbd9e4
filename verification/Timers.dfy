/** The timer manager over either heap. */
module Timers {
  import opened Runs
  import opened Heaps

  const U64: nat := 0x1_0000_0000_0000_0000

  /** An unsigned 64-bit integer. */
  type Word = x: nat | x < 0x1_0000_0000_0000_0000

  /** What a heap pair carries beside its deadline: the interval and the task's closure, here
      an identity that is fresh for every task created by a caller. */
  datatype Task = Task(id: nat, interval: Word)

  type Entry = Pair<Task>

  /** `msec + m_msecFunc()` in unsigned 64-bit arithmetic. */
  function Deadline(interval: Word, now: Word): Word {
    (interval + now) % U64
  }

  /** The pairs one `check` returns and the heap it leaves. */
  function Check<V>(d: nat, h: seq<Pair<V>>, now: int): (seq<Pair<V>>, seq<Pair<V>>)
    requires d > 0
    decreases |h|
  {
    if h != [] && h[0].key <= now
    then var (out, rest) := Check(d, RemoveMin(d, h), now); ([h[0]] + out, rest)
    else ([], h)
  }

  lemma CheckUnfolds<V>(d: nat, h: seq<Pair<V>>, now: int)
    requires d > 0 && h != [] && h[0].key <= now
    ensures Check(d, h, now).0 == [h[0]] + Check(d, RemoveMin(d, h), now).0
    ensures Check(d, h, now).1 == Check(d, RemoveMin(d, h), now).1
  {
  }

  lemma {:induction false} CheckConserves<V>(d: nat, h: seq<Pair<V>>, now: int)
    requires d > 0 && HeapOrdered(d, h)
    ensures HeapOrdered(d, Check(d, h, now).1)
    ensures multiset(Check(d, h, now).0) + multiset(Check(d, h, now).1) == multiset(h)
    decreases |h|
  {
    if h != [] && h[0].key <= now {
      RemoveMinCorrect(d, h);
      CheckConserves(d, RemoveMin(d, h), now);
      var (out, rest) := Check(d, RemoveMin(d, h), now);
      assert multiset([h[0]] + out) == multiset{h[0]} + multiset(out);
    }
  }

  lemma CheckedFromHeap<V>(d: nat, h: seq<Pair<V>>, now: int, p: Pair<V>)
    requires d > 0 && HeapOrdered(d, h)
    requires p in Check(d, h, now).0 || p in Check(d, h, now).1
    ensures p in h
  {
    CheckConserves(d, h, now);
    assert p in multiset(Check(d, h, now).0) || p in multiset(Check(d, h, now).1);
    assert p in multiset(h);
  }

  lemma {:induction false} CheckSplitsAtNow<V>(d: nat, h: seq<Pair<V>>, now: int)
    requires d > 0 && HeapOrdered(d, h)
    ensures forall p :: p in Check(d, h, now).0 ==> p.key <= now
    ensures forall p :: p in Check(d, h, now).1 ==> now < p.key
    decreases |h|
  {
    if h != [] {
      RemoveMinCorrect(d, h);
      if h[0].key <= now {
        CheckSplitsAtNow(d, RemoveMin(d, h), now);
      }
    }
  }

  lemma RemainingNotSmaller<V>(d: nat, h: seq<Pair<V>>, p: Pair<V>)
    requires d > 0 && h != [] && HeapOrdered(d, h) && p in RemoveMin(d, h)
    ensures h[0].key <= p.key
  {
    RemoveMinCorrect(d, h);
    assert p in multiset(RemoveMin(d, h));
    assert p in multiset(h);
    assert p in h;
  }

  lemma {:induction false} CheckSorts<V>(d: nat, h: seq<Pair<V>>, now: int)
    requires d > 0 && HeapOrdered(d, h)
    ensures var out := Check(d, h, now).0;
            forall i, j :: 0 <= i < j < |out| ==> out[i].key <= out[j].key
    decreases |h|
  {
    if h != [] && h[0].key <= now {
      var g := RemoveMin(d, h);
      RemoveMinCorrect(d, h);
      CheckSorts(d, g, now);
      var later := Check(d, g, now).0;
      forall j | 0 <= j < |later| ensures h[0].key <= later[j].key {
        CheckedFromHeap(d, g, now, later[j]);
        RemainingNotSmaller(d, h, later[j]);
      }
      CheckUnfolds(d, h, now);
      var out := Check(d, h, now).0;
      assert out[0] == h[0] && forall j :: 0 < j < |out| ==> out[j] == later[j - 1];
    }
  }

  /** `check` returns exactly the pairs due at `now`, in order of deadline, and leaves exactly
      the others, in a heap of any arity. */
  lemma CheckReturnsExactlyDue<V>(d: nat, h: seq<Pair<V>>, now: int)
    requires d > 0 && HeapOrdered(d, h)
    ensures var (out, rest) := Check(d, h, now);
            && HeapOrdered(d, rest)
            && multiset(out) + multiset(rest) == multiset(h)
            && (forall p :: p in out ==> p.key <= now)
            && (forall p :: p in rest ==> now < p.key)
            && (forall i, j :: 0 <= i < j < |out| ==> out[i].key <= out[j].key)
  {
    CheckConserves(d, h, now);
    CheckSplitsAtNow(d, h, now);
    CheckSorts(d, h, now);
  }

  // ----- whole runs -----

  /** A task with a time: when `proxy_exec` ran it, or when it was put into the heap. */
  datatype Stamp = Stamp(id: nat, at: Word)

  datatype Creation = Creation(at: Word, interval: Word)

  /** The manager's heap, the pairs `check` has handed out and `proxy_exec` has not yet run,
      the clock, and histories of creations, schedulings and firings. */
  datatype Timer = Timer(
    heap: seq<Entry>, waiting: seq<Entry>, now: Word,
    created: seq<Creation>, scheduled: seq<Stamp>, fired: seq<Stamp>, overflowed: bool)

  datatype Event =
    | Tick(to: Word)
    | Create(interval: Word)
    | CheckNow
    | ProxyExec(index: nat, again: bool)

  function NewTimer(now: Word): Timer {
    Timer([], [], now, [], [], [], false)
  }

  function Schedule(d: nat, s: Timer, task: Task): Timer
    requires d > 0
  {
    s.(heap := Push(d, s.heap, Pair(Deadline(task.interval, s.now), task)),
       scheduled := s.scheduled + [Stamp(task.id, s.now)],
       overflowed := s.overflowed || task.interval + s.now >= U64)
  }

  function Step(d: nat, s: Timer, e: Event): Option<Timer>
    requires d > 0
  {
    match e
    case Tick(to) => if to < s.now then None else Some(s.(now := to))
    case Create(interval) =>
      Some(Schedule(d, s.(created := s.created + [Creation(s.now, interval)]), Task(|s.created|, interval)))
    case CheckNow =>
      var (out, rest) := Check(d, s.heap, s.now);
      Some(s.(heap := rest, waiting := s.waiting + out))
    case ProxyExec(i, again) =>
      if i >= |s.waiting| then None
      else
        var task := s.waiting[i].value;
        var t := s.(waiting := s.waiting[..i] + s.waiting[i + 1..], fired := s.fired + [Stamp(task.id, s.now)]);
        Some(if again then Schedule(d, t, task) else t)
  }

  /** How often a task occurs in a history. */
  function Times(log: seq<Stamp>, id: nat): nat {
    if log == [] then 0
    else Times(log[..|log| - 1], id) + if log[|log| - 1].id == id then 1 else 0
  }

  /** The earliest time at which the next run of a task may happen. */
  function NotBefore(s: Timer, id: nat): nat
    requires id < |s.created|
  {
    s.created[id].at + (Times(s.fired, id) + 1) * s.created[id].interval
  }

  ghost function Pending(s: Timer): multiset<Entry> {
    multiset(s.heap) + multiset(s.waiting)
  }

  ghost predicate Unique(m: multiset<Entry>) {
    forall p, q :: p in m && q in m && p.value.id == q.value.id ==> p == q && m[p] == 1
  }

  ghost predicate Known(s: Timer, p: Entry) {
    p.value.id < |s.created| && p.value.interval == s.created[p.value.id].interval
  }

  /** The `j`-th firing was not too early. */
  ghost predicate OnTime(s: Timer, j: nat)
    requires j < |s.fired|
  {
    var id := s.fired[j].id;
    id < |s.created|
    && s.fired[j].at >= s.created[id].at + Times(s.fired[..j + 1], id) * s.created[id].interval
  }

  ghost predicate Structure(d: nat, s: Timer)
    requires d > 0
  {
    && HeapOrdered(d, s.heap) && Unique(Pending(s))
    && (forall p :: p in Pending(s) ==> Known(s, p))
    && (forall j :: 0 <= j < |s.fired| ==> s.fired[j].id < |s.created|)
  }

  ghost predicate Timely(s: Timer) {
    && (forall p :: p in s.heap ==> Known(s, p) && p.key >= NotBefore(s, p.value.id))
    && (forall p :: p in s.waiting ==> Known(s, p) && s.now >= NotBefore(s, p.value.id))
    && (forall j :: 0 <= j < |s.fired| ==> OnTime(s, j))
  }

  ghost predicate Inv(d: nat, s: Timer)
    requires d > 0
  {
    Structure(d, s) && (!s.overflowed ==> Timely(s))
  }

  lemma {:induction false} NoFirings(fired: seq<Stamp>, id: nat, n: nat)
    requires forall j :: 0 <= j < |fired| ==> fired[j].id < n
    requires n <= id
    ensures Times(fired, id) == 0
    decreases |fired|
  {
    if fired != [] {
      NoFirings(fired[..|fired| - 1], id, n);
    }
  }

  lemma InHeapInPending(s: Timer, p: Entry)
    ensures p in s.heap ==> p in Pending(s)
    ensures p in s.waiting ==> p in Pending(s)
    ensures p in Pending(s) ==> p in s.heap || p in s.waiting
  {
    assert p in s.heap <==> p in multiset(s.heap);
    assert p in s.waiting <==> p in multiset(s.waiting);
  }

  /** Scheduling a known task that is not pending keeps the structure. */
  lemma ScheduleKeepsStructure(d: nat, s: Timer, task: Task)
    requires d > 0 && Structure(d, s)
    requires task.id < |s.created| && task.interval == s.created[task.id].interval
    requires forall p :: p in Pending(s) ==> p.value.id != task.id
    ensures Structure(d, Schedule(d, s, task))
  {
    var e := Pair(Deadline(task.interval, s.now), task);
    PushCorrect(d, s.heap, e);
    var t := Schedule(d, s, task);
    assert Pending(t) == Pending(s) + multiset{e};
  }

  lemma ScheduleKeepsTimely(d: nat, s: Timer, task: Task)
    requires d > 0 && HeapOrdered(d, s.heap) && Timely(s)
    requires task.id < |s.created| && task.interval == s.created[task.id].interval
    requires s.now >= s.created[task.id].at + Times(s.fired, task.id) * task.interval
    ensures !Schedule(d, s, task).overflowed ==> Timely(Schedule(d, s, task))
  {
    var t := Schedule(d, s, task);
    if !t.overflowed {
      var e := Pair(Deadline(task.interval, s.now), task);
      PushCorrect(d, s.heap, e);
      assert e.key == s.now + task.interval;
      assert (Times(s.fired, task.id) + 1) * task.interval
          == Times(s.fired, task.id) * task.interval + task.interval;
      forall p | p in t.heap ensures Known(t, p) && p.key >= NotBefore(t, p.value.id) {
        assert p in multiset(t.heap);
        assert p == e || p in multiset(s.heap);
      }
      forall j | 0 <= j < |t.fired| ensures OnTime(t, j) {
        assert OnTime(s, j);
      }
    }
  }

  /** A creation noted in the history and not yet scheduled. */
  function Noted(s: Timer, interval: Word): Timer {
    s.(created := s.created + [Creation(s.now, interval)])
  }

  lemma NotedKeepsStructure(d: nat, s: Timer, interval: Word)
    requires d > 0 && Structure(d, s)
    ensures Structure(d, Noted(s, interval))
    ensures forall p :: p in Pending(Noted(s, interval)) ==> p.value.id != |s.created|
  {
    var t := Noted(s, interval);
    assert Pending(t) == Pending(s);
    forall p | p in Pending(t) ensures Known(t, p) && p.value.id != |s.created| {
      assert Known(s, p);
    }
  }

  lemma NotedKeepsTimely(s: Timer, interval: Word)
    requires Timely(s)
    ensures Timely(Noted(s, interval))
  {
    var t := Noted(s, interval);
    forall id | 0 <= id < |s.created| ensures t.created[id] == s.created[id] && NotBefore(t, id) == NotBefore(s, id) {
    }
    forall p | p in t.heap ensures Known(t, p) && p.key >= NotBefore(t, p.value.id) {
      assert Known(s, p) && p.key >= NotBefore(s, p.value.id);
    }
    forall p | p in t.waiting ensures Known(t, p) && t.now >= NotBefore(t, p.value.id) {
      assert Known(s, p) && s.now >= NotBefore(s, p.value.id);
    }
    forall j | 0 <= j < |t.fired| ensures OnTime(t, j) {
      assert OnTime(s, j);
    }
  }

  lemma CreateKeepsInv(d: nat, s: Timer, interval: Word)
    requires d > 0 && Inv(d, s)
    ensures Inv(d, Step(d, s, Create(interval)).value)
  {
    var n := |s.created|;
    NotedKeepsStructure(d, s, interval);
    ScheduleKeepsStructure(d, Noted(s, interval), Task(n, interval));
    if !s.overflowed {
      NotedKeepsTimely(s, interval);
      NoFirings(s.fired, n, n);
      ScheduleKeepsTimely(d, Noted(s, interval), Task(n, interval));
    }
  }

  lemma CheckKeepsStructure(d: nat, s: Timer)
    requires d > 0 && Structure(d, s)
    ensures Structure(d, Step(d, s, CheckNow).value)
  {
    var t := Step(d, s, CheckNow).value;
    CheckReturnsExactlyDue(d, s.heap, s.now);
    assert Pending(t) == Pending(s);
    forall p | p in Pending(t) ensures Known(t, p) {
      assert Known(s, p);
    }
  }

  lemma CheckKeepsTimely(d: nat, s: Timer)
    requires d > 0 && HeapOrdered(d, s.heap) && Timely(s)
    ensures Timely(Step(d, s, CheckNow).value)
  {
    var (out, rest) := Check(d, s.heap, s.now);
    var t := Step(d, s, CheckNow).value;
    CheckSplitsAtNow(d, s.heap, s.now);
    forall p | p in t.heap ensures Known(t, p) && p.key >= NotBefore(t, p.value.id) {
      CheckedFromHeap(d, s.heap, s.now, p);
      assert Known(s, p) && p.key >= NotBefore(s, p.value.id);
    }
    forall p | p in t.waiting ensures Known(t, p) && t.now >= NotBefore(t, p.value.id) {
      if p in out { CheckedFromHeap(d, s.heap, s.now, p); }
      assert Known(s, p) && s.now >= NotBefore(s, p.value.id);
    }
    forall j | 0 <= j < |t.fired| ensures OnTime(t, j) {
      assert OnTime(s, j);
    }
  }

  /** `proxy_exec` up to the point where the task has been called. */
  function Called(s: Timer, i: nat): Timer
    requires i < |s.waiting|
  {
    s.(waiting := s.waiting[..i] + s.waiting[i + 1..],
       fired := s.fired + [Stamp(s.waiting[i].value.id, s.now)])
  }

  lemma FiringsAfterCall(s: Timer, i: nat, id: nat)
    requires i < |s.waiting|
    ensures Times(Called(s, i).fired, id)
         == Times(s.fired, id) + if id == s.waiting[i].value.id then 1 else 0
  {
    assert Called(s, i).fired[..|s.fired|] == s.fired;
  }

  lemma CallKeepsStructure(d: nat, s: Timer, i: nat)
    requires d > 0 && Structure(d, s) && i < |s.waiting|
    ensures Structure(d, Called(s, i))
    ensures Known(s, s.waiting[i])
    ensures forall p :: p in Pending(Called(s, i)) ==> p in Pending(s) && p.value.id != s.waiting[i].value.id
  {
    var t, e := Called(s, i), s.waiting[i];
    assert s.waiting == s.waiting[..i] + [e] + s.waiting[i + 1..];
    assert Pending(s) == Pending(t) + multiset{e};
    assert e in Pending(s);
  }

  lemma CallKeepsTimely(d: nat, s: Timer, i: nat)
    requires d > 0 && Structure(d, s) && Timely(s) && i < |s.waiting|
    ensures Timely(Called(s, i))
    ensures Known(s, s.waiting[i])
    ensures var task := s.waiting[i].value;
            s.now >= s.created[task.id].at + Times(Called(s, i).fired, task.id) * task.interval
  {
    var t, e := Called(s, i), s.waiting[i];
    CallKeepsStructure(d, s, i);
    assert e in s.waiting;
    forall p | p in t.heap ensures Known(t, p) && p.key >= NotBefore(t, p.value.id) {
      InHeapInPending(t, p);
      FiringsAfterCall(s, i, p.value.id);
    }
    forall p | p in t.waiting ensures Known(t, p) && t.now >= NotBefore(t, p.value.id) {
      InHeapInPending(t, p);
      FiringsAfterCall(s, i, p.value.id);
    }
    FiringsAfterCall(s, i, e.value.id);
    forall j | 0 <= j < |t.fired| ensures OnTime(t, j) {
      if j < |s.fired| { EarlierStaysOnTime(s, i, j); }
      else { assert t.fired[..j + 1] == t.fired; }
    }
  }

  lemma EarlierStaysOnTime(s: Timer, i: nat, j: nat)
    requires i < |s.waiting| && j < |s.fired| && OnTime(s, j)
    ensures OnTime(Called(s, i), j)
  {
    assert Called(s, i).fired[..j + 1] == s.fired[..j + 1];
  }

  lemma ProxyExecKeepsInv(d: nat, s: Timer, i: nat, again: bool)
    requires d > 0 && Inv(d, s) && i < |s.waiting|
    ensures Inv(d, Step(d, s, ProxyExec(i, again)).value)
  {
    var t := Called(s, i);
    CallKeepsStructure(d, s, i);
    if !s.overflowed {
      CallKeepsTimely(d, s, i);
    }
    if again {
      ScheduleKeepsStructure(d, t, s.waiting[i].value);
      if !s.overflowed {
        ScheduleKeepsTimely(d, t, s.waiting[i].value);
      }
    }
  }

  lemma StepKeepsInv(d: nat, s: Timer, e: Event)
    requires d > 0 && Inv(d, s) && Step(d, s, e).Some?
    ensures Inv(d, Step(d, s, e).value)
  {
    match e {
      case Tick(to) => TickKeepsInv(d, s, to);
      case Create(interval) => CreateKeepsInv(d, s, interval);
      case CheckNow =>
        CheckKeepsStructure(d, s);
        if !s.overflowed { CheckKeepsTimely(d, s); }
      case ProxyExec(i, again) => ProxyExecKeepsInv(d, s, i, again);
    }
  }

  lemma TickKeepsInv(d: nat, s: Timer, to: Word)
    requires d > 0 && Inv(d, s) && s.now <= to
    ensures Inv(d, s.(now := to))
  {
    var t := s.(now := to);
    assert Pending(t) == Pending(s);
    forall p | p in Pending(t) ensures Known(t, p) {
      assert Known(s, p);
    }
    if !t.overflowed {
      forall p | p in t.waiting ensures Known(t, p) && t.now >= NotBefore(t, p.value.id) {
        assert Known(s, p) && s.now >= NotBefore(s, p.value.id);
      }
      forall p | p in t.heap ensures Known(t, p) && p.key >= NotBefore(t, p.value.id) {
        assert Known(s, p) && p.key >= NotBefore(s, p.value.id);
      }
      forall j | 0 <= j < |t.fired| ensures OnTime(t, j) {
        assert OnTime(s, j);
      }
    }
  }

  lemma {:induction false} RunKeepsInv(d: nat, now: Word, es: seq<Event>)
    requires d > 0
    ensures var r := Exec((s: Timer, e: Event) => Step(d, s, e), NewTimer(now), es);
            r.Some? ==> Inv(d, r.value)
    decreases |es|
  {
    var step := (s: Timer, e: Event) => Step(d, s, e);
    if es == [] {
      assert Pending(NewTimer(now)) == multiset{};
    } else {
      var before := Exec(step, NewTimer(now), es[..|es| - 1]);
      RunKeepsInv(d, now, es[..|es| - 1]);
      if before.Some? && step(before.value, es[|es| - 1]).Some? {
        StepKeepsInv(d, before.value, es[|es| - 1]);
      }
    }
  }

  /** In any run over a heap of any arity, with a clock that never goes back and no 64-bit
      overflow, the `k`-th run of a task is never before its creation plus `k` intervals. */
  lemma NeverFiresEarly(d: nat, now: Word, es: seq<Event>, s: Timer, j: nat)
    requires d > 0
    requires Exec((s: Timer, e: Event) => Step(d, s, e), NewTimer(now), es) == Some(s)
    requires j < |s.fired| && !s.overflowed
    ensures var id, k := s.fired[j].id, Times(s.fired[..j + 1], s.fired[j].id);
            id < |s.created| && s.fired[j].at >= s.created[id].at + k * s.created[id].interval
  {
    RunKeepsInv(d, now, es);
    assert OnTime(s, j);
  }

  /** A deadline is one interval from now exactly when the 64-bit sum does not wrap, and otherwise
      2^64 less than that. */
  lemma DeadlineExactUnlessOverflow(interval: Word, now: Word)
    ensures Deadline(interval, now) == now + interval <==> now + interval < U64
    ensures now + interval >= U64 ==> Deadline(interval, now) == now + interval - U64
  {
  }

  /** When it wraps, a task created at the last representable instant runs at that instant,
      one interval too early. */
  lemma OverflowFiresEarly()
    ensures var r := Exec((s: Timer, e: Event) => Step(2, s, e), NewTimer(U64 - 1),
                          [Create(1), CheckNow, ProxyExec(0, false)]);
            && r.Some? && r.value.overflowed && r.value.fired == [Stamp(0, U64 - 1)]
            && r.value.created == [Creation(U64 - 1, 1)]
  {
    var step := (s: Timer, e: Event) => Step(2, s, e);
    var s0 := NewTimer(U64 - 1);
    var entry := Pair(0, Task(0, 1));
    var s1 := step(s0, Create(1)).value;
    assert [] + [entry] == [entry];
    assert s1.heap == [entry];
    var s2 := step(s1, CheckNow).value;
    assert RemoveMin(2, [entry]) == [];
    assert [entry] + [] == [entry];
    assert Check(2, [entry], U64 - 1).0 == [entry];
    assert s2.waiting == [entry];
    var s3 := step(s2, ProxyExec(0, false)).value;
    assert s3.fired == [Stamp(0, U64 - 1)] && s3.created == [Creation(U64 - 1, 1)];
    ExecSnoc(step, s0, [], Create(1));
    assert [Create(1)] == [] + [Create(1)];
    ExecSnoc(step, s0, [Create(1)], CheckNow);
    assert [Create(1), CheckNow] == [Create(1)] + [CheckNow];
    ExecSnoc(step, s0, [Create(1), CheckNow], ProxyExec(0, false));
    assert [Create(1), CheckNow, ProxyExec(0, false)] == [Create(1), CheckNow] + [ProxyExec(0, false)];
  }

  // ----- the manager as it is coded -----

  class TimerManager {
    const heap: MinHeap<Task>

    ghost predicate Valid()
      reads heap
    {
      heap.Valid()
    }

    constructor (arity: nat)
      requires arity > 0
      ensures Valid() && fresh(heap) && heap.data == [] && heap.arity == arity
    {
      heap := new MinHeap<Task>(arity);
    }

    /** `now` is the value the time getter returns. */
    method CreateTask(task: Task, now: Word)
      requires Valid()
      modifies heap
      ensures Valid() && heap.data == Push(heap.arity, old(heap.data), Pair(Deadline(task.interval, now), task))
      ensures multiset(heap.data) == multiset(old(heap.data)) + multiset{
                Pair(if now + task.interval < U64 then now + task.interval else now + task.interval - U64, task)}
    {
      var deadline := (task.interval + now) % U64;
      DeadlineExactUnlessOverflow(task.interval, now);
      heap.PushPair(Pair(deadline, task));
    }

    method CheckDue(now: nat) returns (waitList: seq<Entry>)
      requires Valid()
      modifies heap
      ensures Valid() && (waitList, heap.data) == Check(heap.arity, old(heap.data), now)
      ensures multiset(waitList) + multiset(heap.data) == multiset(old(heap.data))
      ensures forall p :: p in waitList ==> p.key <= now
      ensures forall p :: p in heap.data ==> now < p.key
      ensures forall i, j :: 0 <= i < j < |waitList| ==> waitList[i].key <= waitList[j].key
    {
      CheckReturnsExactlyDue(heap.arity, heap.data, now);
      waitList := Drain(now);
    }

    /** The loop of `check`. */
    method Drain(now: nat) returns (waitList: seq<Entry>)
      requires Valid()
      modifies heap
      ensures Valid() && (waitList, heap.data) == Check(heap.arity, old(heap.data), now)
    {
      waitList := [];
      var min := heap.MinPair();
      while min.Some? && min.value.key <= now
        invariant Valid() && min == (if heap.data == [] then None else Some(heap.data[0]))
        invariant waitList + Check(heap.arity, heap.data, now).0 == Check(heap.arity, old(heap.data), now).0
        invariant Check(heap.arity, heap.data, now).1 == Check(heap.arity, old(heap.data), now).1
        decreases |heap.data|
      {
        CheckUnfolds(heap.arity, heap.data, now);
        var pair := heap.ExtractMinPair();
        ghost var later := Check(heap.arity, heap.data, now).0;
        assert waitList + ([pair.value] + later) == (waitList + [pair.value]) + later;
        waitList := waitList + [pair.value];
        min := heap.MinPair();
      }
      assert waitList + [] == waitList;
    }

    /** Calls the task, whose answer is given, and schedules it again if it asks so.  An empty
        task has no answer and makes the call throw. */
    method ProxyExecPair(pair: Entry, answer: Option<bool>, now: Word) returns (threw: bool)
      requires Valid()
      modifies heap
      ensures Valid() && (threw <==> answer.None?)
      ensures heap.data == if answer == Some(true)
                then Push(heap.arity, old(heap.data), Pair(Deadline(pair.value.interval, now), pair.value))
                else old(heap.data)
      ensures answer == Some(true) ==>
                multiset(heap.data) == multiset(old(heap.data)) + multiset{
                  Pair(if now + pair.value.interval < U64 then now + pair.value.interval
                       else now + pair.value.interval - U64, pair.value)}
    {
      if answer.None? {
        return true;
      }
      if answer.value {
        CreateTask(pair.value, now);
      }
      threw := false;
    }
  }
}
