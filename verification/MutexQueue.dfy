/** The double-buffered queue with many producers and one consumer. */
module MutexQueue {
  import opened Runs
  import CircularQueue

  // ----- every interleaving of producers with the consumer's separate steps -----

  /** The consumer tests `m_front` without the lock, swaps the buffers under the lock, and
      takes from `m_front` after releasing it. */
  datatype Consumer = Idle | Swapping(multi: bool) | Taking(multi: bool)

  /** The two buffers, the consumer, and histories: `pushed` lists the producers' elements in
      the order they held the lock, `taken` what the consumer has removed and not put back,
      and `held` the consumer's last `takeMulti` batch, if it made no take since. */
  datatype Queue<T> = Queue(
    front: seq<T>, tail: seq<T>, consumer: Consumer,
    pushed: seq<T>, taken: seq<T>, held: Option<seq<T>>)

  datatype Event<T> = Push(v: T) | BeginTake(multi: bool) | Swap | FinishTake | PutBack

  function NewQueue<T>(): Queue<T> {
    Queue([], [], Idle, [], [], None)
  }

  function Step<T>(q: Queue<T>, e: Event<T>): Option<Queue<T>> {
    match e
    case Push(v) => Some(q.(tail := q.tail + [v], pushed := q.pushed + [v]))
    case BeginTake(multi) =>
      if !q.consumer.Idle? then None
      else Some(q.(held := None, consumer := if q.front == [] then Swapping(multi) else Taking(multi)))
    case Swap =>
      if !q.consumer.Swapping? then None
      else Some(q.(front := q.tail, tail := q.front, consumer := Taking(q.consumer.multi)))
    case FinishTake =>
      if !q.consumer.Taking? then None
      else if q.front == [] then Some(q.(consumer := Idle))
      else if q.consumer.multi then
        Some(q.(front := [], taken := q.taken + q.front, held := Some(q.front), consumer := Idle))
      else
        Some(q.(front := q.front[1..], taken := q.taken + [q.front[0]], consumer := Idle))
    case PutBack =>
      if !q.consumer.Idle? || q.held.None? || |q.taken| < |q.held.value| then None
      else Some(q.(tail := q.held.value + q.tail, held := None,
                   taken := q.taken[..|q.taken| - |q.held.value|]))
  }

  ghost predicate Inv<T(!new)>(q: Queue<T>) {
    && q.taken + q.front + q.tail == q.pushed
    && (q.consumer.Swapping? ==> q.front == [])
    && (q.held.Some? ==>
          && q.front == [] && q.consumer.Idle? && |q.held.value| <= |q.taken|
          && q.held.value == q.taken[|q.taken| - |q.held.value|..])
  }

  lemma StepKeepsInv<T(!new)>(q: Queue<T>, e: Event<T>)
    requires Inv(q) && Step(q, e).Some?
    ensures Inv(Step(q, e).value)
  {
    var t := Step(q, e).value;
    match e {
      case Push(v) =>
        assert q.taken + q.front + (q.tail + [v]) == (q.taken + q.front + q.tail) + [v];
      case Swap =>
        assert q.taken + q.tail + [] == q.taken + q.front + q.tail;
      case FinishTake =>
        if q.front != [] && !q.consumer.multi {
          assert [q.front[0]] + q.front[1..] == q.front;
          assert q.taken + [q.front[0]] + q.front[1..] == q.taken + q.front;
        }
      case PutBack =>
        var n := |q.taken| - |q.held.value|;
        assert q.taken == q.taken[..n] + q.held.value;
        assert t.taken + t.front + t.tail == q.taken + q.front + q.tail;
      case _ =>
    }
  }

  /** In every run, what the consumer has taken followed by the two buffers is exactly what was
      pushed, in lock order; this also holds when whole batches are put back. */
  lemma TakenThenQueuedIsPushed<T(!new)>(es: seq<Event<T>>, q: Queue<T>)
    requires Exec(Step, NewQueue(), es) == Some(q)
    ensures q.taken + q.front + q.tail == Pushes(es)
  {
    RunKeepsInv(es);
    PushedIsThePushes(es, q);
  }

  /** The elements a schedule pushes, in its order. */
  function Pushes<T>(es: seq<Event<T>>): seq<T> {
    if es == [] then []
    else
      var e := es[|es| - 1];
      Pushes(es[..|es| - 1]) + if e.Push? then [e.v] else []
  }

  lemma {:induction false} PushedIsThePushes<T(!new)>(es: seq<Event<T>>, q: Queue<T>)
    requires Exec(Step, NewQueue(), es) == Some(q)
    ensures q.pushed == Pushes(es)
    decreases |es|
  {
    if es != [] {
      PushedIsThePushes(es[..|es| - 1], Exec(Step, NewQueue(), es[..|es| - 1]).value);
    }
  }

  /** What the next take removes: the oldest element, or all of `m_front`, or all of `m_tail` if
      `m_front` is empty. */
  function NextTaken<T>(q: Queue<T>, multi: bool): seq<T> {
    var front := if q.front == [] then q.tail else q.front;
    if multi || front == [] then front else front[..1]
  }

  /** A take made from any reachable state, without interference, removes just that. */
  lemma TakeRemovesOldest<T(!new)>(run: seq<Event<T>>, q: Queue<T>, multi: bool)
    requires Exec(Step, NewQueue(), run) == Some(q) && q.consumer.Idle?
    ensures var r := Exec(Step, q, (if q.front == [] then [BeginTake(multi), Swap] else [BeginTake(multi)]) + [FinishTake]);
            && r.Some? && r.value.consumer.Idle?
            && r.value.taken == q.taken + NextTaken(q, multi)
            && NextTaken(q, multi) + (r.value.front + r.value.tail) == q.front + q.tail
  {
    var q1 := Step(q, BeginTake(multi)).value;
    if q.front == [] {
      var q2 := Step(q1, Swap).value;
      ExecTwo(Step, q, BeginTake(multi), q1, Swap, q2);
      ExecSnoc(Step, q, [BeginTake(multi), Swap], FinishTake);
    } else {
      ExecTwo(Step, q, BeginTake(multi), q1, FinishTake, Step(q1, FinishTake).value);
      var es: seq<Event<T>> := [BeginTake(multi)];
      assert es + [FinishTake] == [BeginTake(multi), FinishTake];
    }
  }

  lemma RunKeepsInv<T(!new)>(es: seq<Event<T>>)
    ensures var r := Exec(Step, NewQueue(), es); r.Some? ==> Inv(r.value)
  {
    forall x: Queue<T>, e: Event<T> | Inv(x) && Step(x, e).Some?
      ensures Inv(Step(x, e).value)
    {
      StepKeepsInv(x, e);
    }
    InvariantOverRun(Step, Inv<T>, NewQueue(), es);
  }

  function PushAll<T>(vs: seq<T>): seq<Event<T>> {
    seq(|vs|, i requires 0 <= i < |vs| => Push(vs[i]))
  }

  lemma {:induction false} PushesAppend<T(!new)>(q: Queue<T>, vs: seq<T>)
    ensures Exec(Step, q, PushAll(vs)) == Some(q.(tail := q.tail + vs, pushed := q.pushed + vs))
    decreases |vs|
  {
    if vs == [] {
      assert q.tail + vs == q.tail && q.pushed + vs == q.pushed;
    } else {
      var n := |vs| - 1;
      PushesAppend(q, vs[..n]);
      assert PushAll(vs)[..n] == PushAll(vs[..n]);
      assert vs == vs[..n] + [vs[n]];
      assert q.tail + vs[..n] + [vs[n]] == q.tail + vs;
      assert q.pushed + vs[..n] + [vs[n]] == q.pushed + vs;
    }
  }

  /** Putting back the batch of a `takeMulti` restores the logical queue as it was before the
      take, followed by whatever producers pushed in between. */
  lemma PutBackRestores<T(!new)>(es: seq<Event<T>>, q: Queue<T>, vs: seq<T>)
    requires Exec(Step, NewQueue(), es) == Some(q) && q.held.Some?
    ensures var r := Exec(Step, q, PushAll(vs) + [PutBack]);
            && r.Some?
            && r.value.front + r.value.tail == q.held.value + (q.front + q.tail) + vs
            && r.value.pushed == q.pushed + vs
  {
    assert Inv(q) by { RunKeepsInv(es); }
    PutBackStep(q, vs);
    PushesAppend(q, vs);
    ExecSnoc(Step, q, PushAll(vs), PutBack);
  }

  lemma PutBackStep<T(!new)>(q: Queue<T>, vs: seq<T>)
    requires Inv(q) && q.held.Some?
    ensures var r := Step(q.(tail := q.tail + vs, pushed := q.pushed + vs), PutBack);
            && r.Some?
            && r.value.front + r.value.tail == q.held.value + (q.front + q.tail) + vs
            && r.value.pushed == q.pushed + vs
  {
    assert q.held.value + (q.tail + vs) == q.held.value + ([] + q.tail) + vs;
  }

  // ----- the container as it is coded, each operation without interference -----

  class MutexQue<T> {
    var front: seq<T>
    var tail: seq<T>

    function Logical(): seq<T>
      reads this
    {
      front + tail
    }

    constructor ()
      ensures Logical() == []
    {
      front, tail := [], [];
    }

    /** The elements come back in front of `m_tail`, so in front of the whole queue exactly
        when `m_front` and the returned elements commute, in particular when it is empty. */
    method AppendFromDeque(deq: seq<T>)
      modifies this`tail
      ensures Logical() == front + deq + old(tail)
      ensures Logical() == deq + old(Logical()) <==> front + deq == deq + front
    {
      tail := deq + tail;
      assert front + (deq + old(tail)) == (front + deq) + old(tail);
      assert deq + (front + old(tail)) == (deq + front) + old(tail);
      SameSuffix(front + deq, deq + front, old(tail));
    }

    method PushBack(t: T)
      modifies this`tail
      ensures Logical() == old(Logical()) + [t]
    {
      tail := tail + [t];
    }

    method TakeOne(res: Option<T>) returns (out: Option<T>)
      modifies this
      ensures old(Logical()) == [] ==> out == res && Logical() == []
      ensures old(Logical()) != [] ==> out == Some(old(Logical())[0]) && Logical() == old(Logical())[1..]
    {
      out := res;
      if front == [] {
        front, tail := tail, front;
        if front == [] {
          return;
        }
      }
      out := Some(front[0]);
      front := front[1..];
    }

    /** With nothing queued the caller's deque is left as it was. */
    method TakeMulti(res: seq<T>) returns (out: seq<T>)
      modifies this
      ensures front == []
      ensures old(Logical()) == [] ==> out == res && Logical() == []
      ensures old(Logical()) != [] ==> out != [] && out + Logical() == old(Logical())
      ensures old(Logical()) != [] ==> out == if old(front) != [] then old(front) else old(tail)
    {
      out := res;
      if front == [] {
        front, tail := tail, front;
        if front == [] {
          return;
        }
      }
      out := front;
      front := [];
    }
  }

  lemma SameSuffix<T>(a: seq<T>, b: seq<T>, c: seq<T>)
    requires |a| == |b|
    ensures a + c == b + c <==> a == b
  {
    if a + c == b + c {
      assert a == (a + c)[..|a|] && b == (b + c)[..|b|];
    }
  }

  /** The variant over ring buffers, whose element type is always `int`. */
  class MutexQueCircle {
    const front: CircularQueue.CircularQueue<int>
    const tail: CircularQueue.CircularQueue<int>

    ghost predicate Valid()
      reads this, front, tail
    {
      front != tail && front.Valid() && tail.Valid()
    }

    ghost function Logical(): seq<int>
      requires Valid()
      reads this, front, tail
    {
      front.Contents() + tail.Contents()
    }

    constructor ()
      ensures Valid() && Logical() == [] && fresh(front) && fresh(tail)
    {
      front := new CircularQueue.CircularQueue<int>(128, 0);
      tail := new CircularQueue.CircularQueue<int>(128, 0);
    }

    method PushBack(t: int)
      requires Valid()
      modifies tail
      ensures Valid() && Logical() == old(Logical()) + [t]
    {
      tail.PushBack(t);
    }

    method TakeOne(res: Option<int>) returns (out: Option<int>)
      requires Valid()
      modifies front, tail
      ensures Valid()
      ensures old(Logical()) == [] ==> out == res && Logical() == []
      ensures old(Logical()) != [] ==> out == Some(old(Logical())[0]) && Logical() == old(Logical())[1..]
    {
      out := res;
      var empty := front.IsEmpty();
      if empty {
        front.Swap(tail);
        empty := front.IsEmpty();
        if empty {
          return;
        }
      }
      var v := front.Front();
      out := Some(v);
      var popped := front.PopFront();
    }
  }
}
