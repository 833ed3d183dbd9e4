/** The growing ring buffer, against a plain first-in-first-out sequence. */
module CircularQueue {
  import opened Runs

  const MIN_CAPACITY: nat := 16

  /** The vector and the two indices: `head` is the oldest element, `current` the next free
      place. */
  datatype Ring<T> = Ring(vec: seq<T>, head: nat, current: nat)

  /** Both indices are places of the vector. */
  predicate Ok<T>(r: Ring<T>) {
    2 <= |r.vec| && r.head < |r.vec| && r.current < |r.vec|
  }

  /** What the ring stores, oldest first. */
  function Elements<T>(r: Ring<T>): seq<T>
    requires Ok(r)
  {
    if r.head <= r.current then r.vec[r.head..r.current]
    else r.vec[r.head..] + r.vec[..r.current]
  }

  function Filled<T>(x: T, n: nat): seq<T> {
    seq(n, _ => x)
  }

  /** `add`.  `filler` is the value-initialised element that `resize` appends. */
  function Add<T>(r: Ring<T>, v: T, filler: T): Ring<T>
    requires Ok(r)
  {
    var n := |r.vec|;
    var vec := r.vec[r.current := v];
    if r.head < r.current then
      if r.current == n - 1 then
        if r.head == 0 then Ring(vec + Filled(filler, n), 0, n) else Ring(vec, r.head, 0)
      else Ring(vec, r.head, r.current + 1)
    else if r.head == r.current then
      if r.current == n - 1 then Ring(vec, r.head, 0) else Ring(vec, r.head, r.current + 1)
    else if r.current == r.head - 1 then
      Ring(vec[r.head..] + vec[..r.head] + Filled(filler, n), 0, n)
    else Ring(vec, r.head, r.current + 1)
  }

  /** `pop` on a ring that is not empty. */
  function Pop<T>(r: Ring<T>): (T, Ring<T>)
    requires Ok(r) && r.head != r.current
  {
    (r.vec[r.head],
     r.(head := if r.head > r.current && r.head == |r.vec| - 1 then 0 else r.head + 1))
  }

  function Size<T>(r: Ring<T>): int {
    if r.current >= r.head then r.current - r.head else |r.vec| - (r.head - r.current)
  }

  /** Elements moved by one `add`: growth moves every stored element once. */
  function GrowthMoves<T>(r: Ring<T>): nat
    requires Ok(r)
  {
    if (r.head < r.current == |r.vec| - 1 && r.head == 0) || (r.head > r.current == r.head - 1)
    then |r.vec| else 0
  }

  /** Equal indices mean empty and never full; `size` counts the stored elements. */
  lemma IndicesDescribeContents<T>(r: Ring<T>)
    requires Ok(r)
    ensures r.head == r.current <==> Elements(r) == []
    ensures Size(r) == |Elements(r)| < |r.vec|
  {
  }

  /** Every insertion case appends, and the vector grows, to twice its size, exactly when the
      new element fills it. */
  lemma AddAppends<T>(r: Ring<T>, v: T, filler: T)
    requires Ok(r)
    ensures Ok(Add(r, v, filler))
    ensures Elements(Add(r, v, filler)) == Elements(r) + [v]
    ensures if |Elements(r)| + 1 == |r.vec|
            then |Add(r, v, filler).vec| == 2 * |r.vec| && GrowthMoves(r) == |Elements(r)| + 1
            else |Add(r, v, filler).vec| == |r.vec| && GrowthMoves(r) == 0
  {
    var t := Add(r, v, filler);
    var vec := r.vec[r.current := v];
    if r.head <= r.current {
      assert vec[r.head..r.current + 1] == r.vec[r.head..r.current] + [v];
      if r.current == |r.vec| - 1 {
        assert vec[r.head..] == vec[r.head..r.current + 1];
        assert vec[..0] == [] && vec[r.head..] + [] == vec[r.head..];
      }
    } else {
      assert vec[..r.current + 1] == r.vec[..r.current] + [v];
      assert vec[r.head..] == r.vec[r.head..];
    }
  }

  /** Every removal case takes the oldest element and keeps the vector. */
  lemma PopTakesOldest<T>(r: Ring<T>)
    requires Ok(r) && r.head != r.current
    ensures var (v, t) := Pop(r); Ok(t) && Elements(r) == [v] + Elements(t) && t.vec == r.vec
  {
  }

  // ----- whole runs -----

  datatype Op<T> = Push(v: T) | Take | Clear

  /** A ring under a sequence of operations: what `Take` returned, and the elements moved by growth. */
  datatype Run<T> = Run(ring: Ring<T>, out: seq<Option<T>>, moves: nat)

  function InitialCapacity(presize: nat): (n: nat)
    ensures n >= presize && n >= 16 && (n == presize || n == 16)
  {
    if presize < MIN_CAPACITY then MIN_CAPACITY else presize
  }

  /** A queue created with the requested size. */
  function Create<T>(presize: nat, filler: T): Run<T> {
    Run(Ring(Filled(filler, InitialCapacity(presize)), 0, 0), [], 0)
  }

  function Apply<T>(q: Run<T>, op: Op<T>, filler: T): Option<Run<T>> {
    if !Ok(q.ring) then None else
    match op
    case Push(v) =>
      Some(q.(ring := Add(q.ring, v, filler), moves := q.moves + GrowthMoves(q.ring)))
    case Take =>
      Some(if q.ring.head == q.ring.current then q.(out := q.out + [None])
           else q.(ring := Pop(q.ring).1, out := q.out + [Some(Pop(q.ring).0)]))
    case Clear => Some(q.(ring := Ring(Filled(filler, |q.ring.vec|), 0, 0)))
  }

  /** A plain first-in-first-out queue under the same operations, with the number of pushes and the
      largest length. */
  datatype Plain<T> = Plain(queue: seq<T>, out: seq<Option<T>>, pushes: nat, peak: nat)

  function PlainRun<T>(ops: seq<Op<T>>): Plain<T> {
    if ops == [] then Plain([], [], 0, 0) else PlainApply(PlainRun(ops[..|ops| - 1]), ops[|ops| - 1])
  }

  function PlainApply<T>(p: Plain<T>, op: Op<T>): Plain<T> {
    match op
    case Push(v) => Plain(p.queue + [v], p.out, p.pushes + 1, Max(p.peak, |p.queue| + 1))
    case Take =>
      if p.queue == [] then p.(out := p.out + [None])
      else p.(queue := p.queue[1..], out := p.out + [Some(p.queue[0])])
    case Clear => p.(queue := [])
  }

  function Max(a: nat, b: nat): (m: nat)
    ensures m >= a && m >= b && (m == a || m == b)
  {
    if a < b then b else a
  }

  ghost predicate RunInv<T>(q: Run<T>, p: Plain<T>, initial: nat) {
    && Ok(q.ring) && Elements(q.ring) == p.queue && q.out == p.out
    && 16 <= initial && q.moves + initial == |q.ring.vec|
    && (|q.ring.vec| == initial || |q.ring.vec| <= 2 * p.peak)
    && |p.queue| <= p.peak <= p.pushes
  }

  lemma ApplyKeepsRunInv<T>(q: Run<T>, p: Plain<T>, initial: nat, op: Op<T>, filler: T)
    requires RunInv(q, p, initial)
    ensures Apply(q, op, filler).Some? && RunInv(Apply(q, op, filler).value, PlainApply(p, op), initial)
  {
    IndicesDescribeContents(q.ring);
    match op {
      case Push(v) => AddAppends(q.ring, v, filler);
      case Take => if q.ring.head != q.ring.current { PopTakesOldest(q.ring); }
      case Clear =>
    }
  }

  /** Over any mix of operations on a new queue: every operation is possible, the ring holds
      and returns what a plain queue would, total moves stay within twice the pushes, and the
      capacity within the larger of the initial capacity and twice the peak size. */
  lemma RingRefinesQueue<T(!new)>(presize: nat, filler: T, ops: seq<Op<T>>)
    ensures var run, p := Exec((q: Run<T>, op) => Apply(q, op, filler), Create(presize, filler), ops), PlainRun(ops);
            && run.Some?
            && var q := run.value;
            && Ok(q.ring) && Elements(q.ring) == p.queue && q.out == p.out
            && Size(q.ring) == |p.queue| < |q.ring.vec|
            && q.moves <= 2 * p.pushes
            && |q.ring.vec| <= Max(Max(16, presize), 2 * p.peak)
  {
    RunKeepsInv(presize, filler, ops);
    var step := (q: Run<T>, op: Op<T>) => Apply(q, op, filler);
    IndicesDescribeContents(Exec(step, Create(presize, filler), ops).value.ring);
  }

  lemma {:induction false} RunKeepsInv<T(!new)>(presize: nat, filler: T, ops: seq<Op<T>>)
    ensures var run := Exec((q: Run<T>, op) => Apply(q, op, filler), Create(presize, filler), ops);
            run.Some? && RunInv(run.value, PlainRun(ops), InitialCapacity(presize))
    decreases |ops|
  {
    if ops != [] {
      var init := ops[..|ops| - 1];
      RunKeepsInv(presize, filler, init);
      var step := (q: Run<T>, op: Op<T>) => Apply(q, op, filler);
      ApplyKeepsRunInv(Exec(step, Create(presize, filler), init).value, PlainRun(init), InitialCapacity(presize),
                       ops[|ops| - 1], filler);
    }
  }

  // ----- the container as it is coded -----

  class CircularQueue<T> {
    var vec: seq<T>
    var head: nat
    var current: nat
    const filler: T

    function State(): Ring<T>
      reads this
    {
      Ring(vec, head, current)
    }

    ghost predicate Valid()
      reads this
    {
      Ok(State())
    }

    ghost function Contents(): seq<T>
      requires Valid()
      reads this
    {
      Elements(State())
    }

    constructor (presize: nat, filler: T)
      ensures Valid() && Contents() == []
      ensures |vec| == (if presize < 16 then 16 else presize) && this.filler == filler
      ensures State() == Create(presize, filler).ring
    {
      vec := Filled(filler, if presize < MIN_CAPACITY then MIN_CAPACITY else presize);
      head, current := 0, 0;
      this.filler := filler;
    }

    method PushBack(v: T)
      requires Valid()
      modifies this
      ensures Valid() && State() == Add(old(State()), v, filler)
      ensures Contents() == old(Contents()) + [v]
    {
      AddAppends(State(), v, filler);
      if head < current {
        vec := vec[current := v];
        if current == |vec| - 1 {
          if head == 0 {
            current := current + 1;
            vec := vec + Filled(filler, |vec|);
          } else {
            current := 0;
          }
        } else {
          current := current + 1;
        }
      } else if head == current {
        vec := vec[current := v];
        current := if current == |vec| - 1 then 0 else current + 1;
      } else {
        vec := vec[current := v];
        if current == head - 1 {
          var tmp := Rotated();
          head := 0;
          current := |vec|;
          vec := tmp + Filled(filler, |tmp|);
        } else {
          current := current + 1;
        }
      }
    }

    /** The two copy loops of the wrapped growth branch. */
    method Rotated() returns (tmp: seq<T>)
      requires head <= |vec|
      ensures tmp == vec[head..] + vec[..head]
    {
      tmp := [];
      for i := head to |vec|
        invariant tmp == vec[head..i]
      {
        tmp := tmp + [vec[i]];
      }
      for i := 0 to head
        invariant tmp == vec[head..] + vec[..i]
      {
        tmp := tmp + [vec[i]];
      }
    }

    method PopFront() returns (res: Option<T>)
      requires Valid()
      modifies this
      ensures Valid() && vec == old(vec)
      ensures old(Contents()) == [] ==> res == None && Contents() == []
      ensures old(Contents()) != [] ==> res == Some(old(Contents())[0]) && Contents() == old(Contents())[1..]
    {
      IndicesDescribeContents(State());
      if head != current {
        PopTakesOldest(State());
      }
      if head < current {
        res := Some(vec[head]);
        head := head + 1;
      } else if head == current {
        res := None;
      } else {
        res := Some(vec[head]);
        head := if head == |vec| - 1 then 0 else head + 1;
      }
    }

    method Front() returns (v: T)
      requires Valid() && Contents() != []
      ensures v == Contents()[0]
    {
      v := vec[head];
    }

    method IsEmpty() returns (b: bool)
      requires Valid()
      ensures b <==> Contents() == []
    {
      b := head == current;
    }

    method Count() returns (n: nat)
      requires Valid()
      ensures n == |Contents()|
    {
      n := if current >= head then current - head else |vec| - (head - current);
    }

    method Clear()
      requires Valid()
      modifies this
      ensures Valid() && Contents() == [] && |vec| == old(|vec|)
    {
      var capacity := |vec|;
      current, head := 0, 0;
      vec := Filled(filler, capacity);
    }

    method Swap(other: CircularQueue<T>)
      requires Valid() && other.Valid()
      modifies this, other
      ensures State() == old(other.State()) && other.State() == old(State())
    {
      vec, other.vec := other.vec, vec;
      current, other.current := other.current, current;
      head, other.head := other.head, head;
    }
  }
}
