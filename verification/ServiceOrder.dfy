/** The order in which one thread's operations on one service take effect. */
module ServiceOrder {
  import opened Runs
  import opened TaskRuntime
  import opened ServiceTable
  import Schedule

  /** The operations of one thread on one key, in sequence order. */
  function Of(ts: seq<Task>, caller: Thread, key: nat): seq<Op> {
    if ts == [] then []
    else (if Matches(ts[0], caller, key) then [ts[0].op] else []) + Of(ts[1..], caller, key)
  }

  lemma {:induction false} OfConcat(a: seq<Task>, b: seq<Task>, caller: Thread, key: nat)
    ensures Of(a + b, caller, key) == Of(a, caller, key) + Of(b, caller, key)
  {
    if a == [] {
      assert a + b == b;
    } else {
      assert (a + b)[0] == a[0] && (a + b)[1..] == a[1..] + b;
      OfConcat(a[1..], b, caller, key);
      var first := if Matches(a[0], caller, key) then [a[0].op] else [];
      assert Of(a + b, caller, key) == first + Of(a[1..] + b, caller, key);
      assert first + (Of(a[1..], caller, key) + Of(b, caller, key)) == (first + Of(a[1..], caller, key)) + Of(b, caller, key);
    }
  }

  lemma OfOne(t: Task, caller: Thread, key: nat)
    ensures Of([t], caller, key) == if Matches(t, caller, key) then [t.op] else []
  {
    assert [t][1..] == [];
  }

  lemma {:induction false} OfNone(ts: seq<Task>, caller: Thread, key: nat)
    requires forall t :: t in ts ==> !Matches(t, caller, key)
    ensures Of(ts, caller, key) == []
  {
    if ts != [] {
      assert ts[0] in ts;
      OfNone(ts[1..], caller, key);
    }
  }

  /** The deletions a worker is inside of, outermost first. */
  function Deleting(stack: seq<Frame>): seq<Task> {
    if stack == [] then []
    else
      var n := |stack| - 1;
      Deleting(stack[..n]) + if stack[n].InDelete? then [stack[n].cfg] else []
  }

  lemma {:induction false} DeletingFrom(stack: seq<Frame>, t: Task)
    requires t in Deleting(stack)
    ensures exists a :: 0 <= a < |stack| && stack[a] == InDelete(t)
  {
    var n := |stack| - 1;
    if t in Deleting(stack[..n]) {
      DeletingFrom(stack[..n], t);
      var a :| 0 <= a < n && stack[..n][a] == InDelete(t);
      assert stack[a] == InDelete(t);
    } else {
      assert stack[n] == InDelete(t);
    }
  }

  lemma DeletingSnoc(stack: seq<Frame>, f: Frame)
    ensures Deleting(stack + [f]) == Deleting(stack) + if f.InDelete? then [f.cfg] else []
  {
    assert (stack + [f])[..|stack|] == stack;
  }

  /** None of the thread's deletions of the key is in progress. */
  lemma NotDeleting(x: Worker, caller: Thread, key: nat)
    requires !IsDeletingFor(x, caller, key)
    ensures Of(Deleting(x.stack), caller, key) == []
  {
    forall t | t in Deleting(x.stack) ensures !Matches(t, caller, key) {
      DeletingFrom(x.stack, t);
      var a :| 0 <= a < |x.stack| && x.stack[a] == InDelete(t);
      assert x.stack[a] in x.stack;
    }
    OfNone(Deleting(x.stack), caller, key);
  }

  // ----- what every step keeps, for one thread and one key -----

  /** Those in effect, then the one being deleted with, then those waiting. */
  ghost predicate InOrder(issued: seq<Task>, effects: seq<Task>, x: Worker, caller: Thread, key: nat) {
    Of(issued, caller, key)
      == Of(effects, caller, key) + Of(Deleting(x.stack), caller, key) + Of(Pending(x), caller, key)
  }

  /** The two sequences differ at some position. */
  ghost predicate Differ(a: seq<Op>, b: seq<Op>) {
    exists p :: 0 <= p < |a| && p < |b| && a[p] != b[p]
  }

  ghost predicate Ordered(
      issued: seq<Task>, effects: seq<Task>, crossed: set<(Thread, nat)>, x: Worker, caller: Thread, key: nat)
  {
    if (caller, key) in crossed then Differ(Of(effects, caller, key), Of(issued, caller, key))
    else InOrder(issued, effects, x, caller, key)
  }

  lemma StillDiffer(a: seq<Op>, b: seq<Op>, a': seq<Op>, b': seq<Op>)
    requires Differ(a, b)
    ensures Differ(a + a', b + b') && Differ(a + a', b) && Differ(a, b + b')
  {
    var p :| 0 <= p < |a| && p < |b| && a[p] != b[p];
    assert (a + a')[p] == a[p] && (b + b')[p] == b[p];
  }

  /** New calls and new effects never undo a difference. */
  lemma CrossedStaysCrossed(issued: seq<Task>, effects: seq<Task>, t: Task, caller: Thread, key: nat)
    requires Differ(Of(effects, caller, key), Of(issued, caller, key))
    ensures Differ(Of(effects + [t], caller, key), Of(issued, caller, key))
    ensures Differ(Of(effects, caller, key), Of(issued + [t], caller, key))
    ensures Differ(Of(effects + [t], caller, key), Of(issued + [t], caller, key))
  {
    OfConcat(issued, [t], caller, key);
    OfConcat(effects, [t], caller, key);
    StillDiffer(Of(effects, caller, key), Of(issued, caller, key), Of([t], caller, key), Of([t], caller, key));
  }

  /** Ordered for every thread and every key of shard `i`. */
  ghost predicate OrderOk(
      issued: seq<Task>, effects: seq<Task>, crossed: set<(Thread, nat)>, x: Worker, i: nat, n: nat)
    requires n > 0
  {
    forall caller: Thread, key: nat :: key % n == i ==> Ordered(issued, effects, crossed, x, caller, key)
  }

  ghost predicate OrderInv(s: Runtime) {
    && |s.workers| > 0
    && forall i :: 0 <= i < |s.workers| ==>
         OrderOk(s.issued, s.effects, s.crossed, s.workers[i], i, |s.workers|)
  }

  /** A worker whose deletions and waiting operations are as before is as ordered as before. */
  lemma SameQueueSameOrder(
      issued: seq<Task>, effects: seq<Task>, crossed: set<(Thread, nat)>, x: Worker, y: Worker, i: nat, n: nat)
    requires n > 0 && OrderOk(issued, effects, crossed, x, i, n)
    requires Deleting(y.stack) == Deleting(x.stack)
    requires Pending(y) == Pending(x) || exists t: Task :: !t.Config? && Pending(y) == Pending(x) + [t]
    ensures OrderOk(issued, effects, crossed, y, i, n)
  {
    forall caller: Thread, key: nat | key % n == i ensures Ordered(issued, effects, crossed, y, caller, key) {
      assert Ordered(issued, effects, crossed, x, caller, key);
      if Pending(y) != Pending(x) {
        var t: Task :| !t.Config? && Pending(y) == Pending(x) + [t];
        OfConcat(Pending(x), [t], caller, key);
        OfOne(t, caller, key);
      }
    }
  }

  /** A table operation of another shard does not show in this one's order. */
  lemma OtherShardKeepsOrder(
      issued: seq<Task>, effects: seq<Task>, crossed: set<(Thread, nat)>,
      issued': seq<Task>, effects': seq<Task>, crossed': set<(Thread, nat)>,
      t: Task, x: Worker, i: nat, n: nat)
    requires n > 0 && OrderOk(issued, effects, crossed, x, i, n)
    requires t.Config? && t.op.key % n != i
    requires issued' == issued || issued' == issued + [t]
    requires effects' == effects || effects' == effects + [t]
    requires crossed' == crossed || crossed' == crossed + {(t.caller, t.op.key)}
    ensures OrderOk(issued', effects', crossed', x, i, n)
  {
    forall caller: Thread, key: nat | key % n == i ensures Ordered(issued', effects', crossed', x, caller, key) {
      assert Ordered(issued, effects, crossed, x, caller, key);
      assert key != t.op.key;
      OfConcat(issued, [t], caller, key);
      OfConcat(effects, [t], caller, key);
      OfOne(t, caller, key);
      assert Of(issued', caller, key) == Of(issued, caller, key);
      assert Of(effects', caller, key) == Of(effects, caller, key);
    }
  }

  lemma SendPlainKeepsOrder(s: Runtime, w: nat, t: Task)
    requires w < |s.workers| && OrderInv(s) && !t.Config?
    ensures OrderInv(Send(s, w, t))
  {
    var x := s.workers[w];
    assert Pending(Accept(x, t)) == Pending(x) + [t];
    SameQueueSameOrder(s.issued, s.effects, s.crossed, x, Accept(x, t), w, |s.workers|);
  }

  lemma AcceptOpOrdered(
      issued: seq<Task>, effects: seq<Task>, crossed: set<(Thread, nat)>, x: Worker, t: Task, caller: Thread, key: nat)
    requires Ordered(issued, effects, crossed, x, caller, key)
    ensures Ordered(issued + [t], effects, crossed, Accept(x, t), caller, key)
  {
    if (caller, key) in crossed {
      CrossedStaysCrossed(issued, effects, t, caller, key);
    } else {
      assert Pending(Accept(x, t)) == Pending(x) + [t];
      OfConcat(Pending(x), [t], caller, key);
      OfConcat(issued, [t], caller, key);
    }
  }

  lemma AcceptOpKeepsOrder(
      issued: seq<Task>, effects: seq<Task>, crossed: set<(Thread, nat)>, x: Worker, t: Task, i: nat, n: nat)
    requires n > 0 && OrderOk(issued, effects, crossed, x, i, n)
    ensures OrderOk(issued + [t], effects, crossed, Accept(x, t), i, n)
  {
    forall caller: Thread, key: nat | key % n == i
      ensures Ordered(issued + [t], effects, crossed, Accept(x, t), caller, key)
    {
      AcceptOpOrdered(issued, effects, crossed, x, t, caller, key);
    }
  }

  lemma SendIssueKeepsOrder(s: Runtime, w: nat, t: Task)
    requires w < |s.workers| && OrderInv(s) && t.Config? && t.op.key % |s.workers| == w
    requires Owner(t.op, |s.workers|) == w && t.caller != OnWorker(w)
    ensures OrderInv(Send(Noted(s, t.caller, t.op), w, t))
  {
    var r := Send(Noted(s, t.caller, t.op), w, t);
    AcceptOpKeepsOrder(s.issued, s.effects, s.crossed, s.workers[w], t, w, |s.workers|);
    forall i | 0 <= i < |r.workers| && i != w
      ensures OrderOk(r.issued, r.effects, r.crossed, r.workers[i], i, |r.workers|)
    {
      OtherShardKeepsOrder(s.issued, s.effects, s.crossed, r.issued, r.effects, r.crossed,
                           t, s.workers[i], i, |s.workers|);
    }
  }

  lemma BeginPlainKeepsOrder(s: Runtime, w: nat, t: Task)
    requires w < |s.workers| && OrderInv(s) && !t.Config? && Begin(s, w, t).Some?
    ensures OrderInv(Begin(s, w, t).value)
  {
    var x, y := s.workers[w], Begin(s, w, t).value.workers[w];
    DeletingSnoc(x.stack, y.stack[|x.stack|]);
    SameQueueSameOrder(s.issued, s.effects, s.crossed, x, y, w, |s.workers|);
  }

  /** A table operation that begins is in effect at once or is the innermost deletion. */
  lemma BeginOpShape(s: Runtime, w: nat, t: Task)
    requires w < |s.workers| && t.Config? && Begin(s, w, t).Some?
    ensures var r := Begin(s, w, t).value;
            if t.op.Del?
            then r.effects == s.effects && Deleting(r.workers[w].stack) == Deleting(s.workers[w].stack) + [t]
            else r.effects == s.effects + [t] && Deleting(r.workers[w].stack) == Deleting(s.workers[w].stack)
  {
    var x := s.workers[w];
    DeletingSnoc(x.stack, InDelete(t));
    DeletingSnoc(x.stack, InFind);
  }

  /** Where none of the thread's operations on that key is ahead of it, it comes next either way. */
  lemma BeginOpMoves(s: Runtime, w: nat, t: Task, caller: Thread, key: nat)
    requires w < |s.workers| && t.Config? && Begin(s, w, t).Some?
    requires Matches(t, caller, key) ==> Of(Deleting(s.workers[w].stack), caller, key) == []
    ensures var r := Begin(s, w, t).value;
            Of(r.effects, caller, key) + Of(Deleting(r.workers[w].stack), caller, key)
              == Of(s.effects, caller, key) + Of(Deleting(s.workers[w].stack), caller, key) + Of([t], caller, key)
  {
    BeginOpShape(s, w, t);
    NextInOrder(s.effects, Deleting(s.workers[w].stack), t, caller, key);
  }

  lemma NextInOrder(effects: seq<Task>, deleting: seq<Task>, t: Task, caller: Thread, key: nat)
    requires Matches(t, caller, key) ==> Of(deleting, caller, key) == []
    ensures Of(effects + [t], caller, key) + Of(deleting, caller, key)
         == Of(effects, caller, key) + Of(deleting, caller, key) + Of([t], caller, key)
    ensures Of(effects, caller, key) + Of(deleting + [t], caller, key)
         == Of(effects, caller, key) + Of(deleting, caller, key) + Of([t], caller, key)
  {
    OfOne(t, caller, key);
    OfConcat(deleting, [t], caller, key);
    OfConcat(effects, [t], caller, key);
  }

  /** The order on the worker that begins `t`, once `t` has left the front of what waits there. */
  lemma BeginOpKeepsOrder(s: Runtime, w: nat, t: Task, caller: Thread, key: nat)
    requires w < |s.workers| && t.Config? && Begin(s, w, t).Some?
    requires Matches(t, caller, key) ==> Of(Deleting(s.workers[w].stack), caller, key) == []
    requires Of(s.issued, caller, key)
          == Of(s.effects, caller, key) + Of(Deleting(s.workers[w].stack), caller, key)
             + (Of([t], caller, key) + Of(Pending(s.workers[w]), caller, key))
    ensures InOrder(s.issued, Begin(s, w, t).value.effects, Begin(s, w, t).value.workers[w], caller, key)
  {
    var r := Begin(s, w, t).value;
    BeginFrame(s, w, t);
    BeginOpMoves(s, w, t, caller, key);
    assert Pending(r.workers[w]) == Pending(s.workers[w]);
    assert Of(s.effects, caller, key) + Of(Deleting(s.workers[w].stack), caller, key)
             + (Of([t], caller, key) + Of(Pending(s.workers[w]), caller, key))
        == (Of(s.effects, caller, key) + Of(Deleting(s.workers[w].stack), caller, key) + Of([t], caller, key))
             + Of(Pending(s.workers[w]), caller, key);
  }

  /** Beginning `t` leaves the other shards' order alone; `before` is the state ahead of the call
      that issued `t`, or the present one. */
  lemma BeginOpElsewhere(before: Runtime, s: Runtime, w: nat, t: Task)
    requires w < |s.workers| && t.Config? && t.op.key % |s.workers| == w && Begin(s, w, t).Some?
    requires s.effects == before.effects
    requires s.issued == before.issued || s.issued == before.issued + [t]
    requires s.crossed == before.crossed || s.crossed == before.crossed + {(t.caller, t.op.key)}
    requires forall i :: 0 <= i < |s.workers| && i != w ==>
               OrderOk(before.issued, before.effects, before.crossed, s.workers[i], i, |s.workers|)
    ensures var r := Begin(s, w, t).value;
            forall i :: 0 <= i < |r.workers| && i != w ==>
              OrderOk(r.issued, r.effects, r.crossed, r.workers[i], i, |s.workers|)
  {
    var r := Begin(s, w, t).value;
    BeginFrame(s, w, t);
    BeginOpShape(s, w, t);
    forall i | 0 <= i < |r.workers| && i != w
      ensures OrderOk(r.issued, r.effects, r.crossed, r.workers[i], i, |s.workers|)
    {
      OtherShardKeepsOrder(before.issued, before.effects, before.crossed, r.issued, r.effects, r.crossed,
                           t, s.workers[i], i, |s.workers|);
    }
  }

  // ----- an operation run at once on the caller's own shard -----

  lemma {:induction false} OfDeletingIsDel(stack: seq<Frame>, caller: Thread, key: nat)
    requires forall f :: f in stack && f.InDelete? ==> f.cfg.Config? && f.cfg.op.Del?
    requires Of(Deleting(stack), caller, key) != []
    ensures Of(Deleting(stack), caller, key)[0] == Del(key)
  {
    var n := |stack| - 1;
    var top := if stack[n].InDelete? then [stack[n].cfg] else [];
    OfConcat(Deleting(stack[..n]), top, caller, key);
    if stack[n].InDelete? {
      assert stack[n] in stack;
      OfOne(stack[n].cfg, caller, key);
    }
    if Of(Deleting(stack[..n]), caller, key) != [] {
      assert forall f :: f in stack[..n] ==> f in stack;
      OfDeletingIsDel(stack[..n], caller, key);
    }
  }

  lemma {:induction false} SomeDeleting(stack: seq<Frame>, f: Frame, caller: Thread, key: nat)
    requires f in stack && f.InDelete? && Matches(f.cfg, caller, key)
    ensures Of(Deleting(stack), caller, key) != []
  {
    var n := |stack| - 1;
    var top := if stack[n].InDelete? then [stack[n].cfg] else [];
    OfConcat(Deleting(stack[..n]), top, caller, key);
    if f == stack[n] {
      OfOne(f.cfg, caller, key);
    } else {
      SomeDeleting(stack[..n], f, caller, key);
    }
  }

  /** From inside its own deletion of the service, a thread's operation overtakes the deletion. */
  lemma CrossingDiffers(s: Runtime, w: nat, t: Task, caller: Thread, key: nat)
    requires w < |s.workers| && t.Config? && Matches(t, caller, key) && ShardOk(s.workers[w], w, |s.workers|)
    requires InOrder(s.issued, s.effects, s.workers[w], caller, key)
    requires IsDeletingFor(s.workers[w], caller, key) && !t.op.Del?
    ensures Differ(Of(s.effects + [t], caller, key), Of(s.issued + [t], caller, key))
  {
    var x := s.workers[w];
    var f :| f in x.stack && f.InDelete? && Matches(f.cfg, caller, key);
    SomeDeleting(x.stack, f, caller, key);
    forall g | g in x.stack && g.InDelete? ensures g.cfg.Config? && g.cfg.op.Del? {
      assert FrameOk(g, x, w, |s.workers|);
    }
    OfDeletingIsDel(x.stack, caller, key);
    OfConcat(s.effects, [t], caller, key);
    OfConcat(s.issued, [t], caller, key);
    OfOne(t, caller, key);
    var p := |Of(s.effects, caller, key)|;
    assert Of(s.effects + [t], caller, key)[p] == t.op;
    assert Of(s.issued + [t], caller, key)[p] == Del(key);
  }

  /** The order of one thread and key on the worker that runs `t` at once. */
  lemma NestedOrdered(s: Runtime, w: nat, t: Task, caller: Thread, key: nat)
    requires w < |s.workers| && ShardOk(s.workers[w], w, |s.workers|)
    requires t.Config? && t.caller == OnWorker(w) && Owner(t.op, |s.workers|) == w
    requires Begin(Noted(s, t.caller, t.op), w, t).Some?
    requires Ordered(s.issued, s.effects, s.crossed, s.workers[w], caller, key)
    ensures var r := Begin(Noted(s, t.caller, t.op), w, t).value;
            Ordered(r.issued, r.effects, r.crossed, r.workers[w], caller, key)
  {
    var x := s.workers[w];
    var s1 := Noted(s, t.caller, t.op);
    BeginFrame(s1, w, t);
    BeginOpShape(s1, w, t);
    if (caller, key) in s.crossed {
      CrossedStaysCrossed(s.issued, s.effects, t, caller, key);
    } else if Matches(t, caller, key) && IsDeletingFor(x, caller, key) {
      CrossingDiffers(s, w, t, caller, key);
    } else {
      NestedIsNext(s, w, t, caller, key);
      BeginOpKeepsOrder(s1, w, t, caller, key);
    }
  }

  /** Without a deletion of its own in the way, nothing of the thread's on that key is ahead. */
  lemma NestedIsNext(s: Runtime, w: nat, t: Task, caller: Thread, key: nat)
    requires w < |s.workers| && ShardOk(s.workers[w], w, |s.workers|) && t.Config? && t.caller == OnWorker(w)
    requires InOrder(s.issued, s.effects, s.workers[w], caller, key)
    requires Matches(t, caller, key) ==> !IsDeletingFor(s.workers[w], caller, key)
    ensures Matches(t, caller, key) ==> Of(Deleting(s.workers[w].stack), caller, key) == []
    ensures Of(s.issued + [t], caller, key)
         == Of(s.effects, caller, key) + Of(Deleting(s.workers[w].stack), caller, key)
            + (Of([t], caller, key) + Of(Pending(s.workers[w]), caller, key))
  {
    var x := s.workers[w];
    OfConcat(s.issued, [t], caller, key);
    OfOne(t, caller, key);
    if Matches(t, caller, key) {
      NotDeleting(x, caller, key);
      OfNone(Pending(x), caller, key);
    }
  }

  lemma NestedIssueKeepsOrder(s: Runtime, w: nat, t: Task)
    requires w < |s.workers| && TableInv(s) && OrderInv(s)
    requires t.Config? && t.caller == OnWorker(w) && t.op.key % |s.workers| == w && Owner(t.op, |s.workers|) == w
    requires Begin(Noted(s, t.caller, t.op), w, t).Some?
    ensures OrderInv(Begin(Noted(s, t.caller, t.op), w, t).value)
  {
    var s1, n := Noted(s, t.caller, t.op), |s.workers|;
    var r := Begin(s1, w, t).value;
    BeginFrame(s1, w, t);
    BeginOpElsewhere(s, s1, w, t);
    assert ShardOk(s.workers[w], w, n) && OrderOk(s.issued, s.effects, s.crossed, s.workers[w], w, n);
    forall caller: Thread, key: nat | key % n == w
      ensures Ordered(r.issued, r.effects, r.crossed, r.workers[w], caller, key)
    {
      NestedOrdered(s, w, t, caller, key);
    }
    assert OrderOk(r.issued, r.effects, r.crossed, r.workers[w], w, n);
  }

  // ----- an operation taken from the queue -----

  lemma TakenOrdered(s: Runtime, w: nat, caller: Thread, key: nat)
    requires Step(s, StartNext(w)).Some? && s.workers[w].batch[0].Config?
    requires Ordered(s.issued, s.effects, s.crossed, s.workers[w], caller, key)
    ensures var r := Step(s, StartNext(w)).value;
            Ordered(r.issued, r.effects, r.crossed, r.workers[w], caller, key)
  {
    var x := s.workers[w];
    var t, y := x.batch[0], Taken(x);
    var s1 := Put(s, w, y);
    BeginFrame(s1, w, t);
    BeginOpShape(s1, w, t);
    if (caller, key) in s.crossed {
      CrossedStaysCrossed(s.issued, s.effects, t, caller, key);
    } else {
      assert x.batch == [t] + x.batch[1..];
      assert Pending(x) == [t] + Pending(y);
      OfConcat([t], Pending(y), caller, key);
      BeginOpKeepsOrder(s1, w, t, caller, key);
    }
  }

  lemma StartNextKeepsOrder(s: Runtime, w: nat)
    requires TableInv(s) && OrderInv(s) && Step(s, StartNext(w)).Some?
    ensures OrderInv(Step(s, StartNext(w)).value)
  {
    var x, n := s.workers[w], |s.workers|;
    var t, y := x.batch[0], Taken(x);
    var s1 := Put(s, w, y);
    assert x.batch == [t] + x.batch[1..];
    assert Pending(x) == [t] + Pending(y);
    if t.Config? {
      var r := Begin(s1, w, t).value;
      assert t in Pending(x) && ShardOk(x, w, n);
      BeginFrame(s1, w, t);
      BeginOpElsewhere(s, s1, w, t);
      assert OrderOk(s.issued, s.effects, s.crossed, x, w, n);
      forall caller: Thread, key: nat | key % n == w
        ensures Ordered(r.issued, r.effects, r.crossed, r.workers[w], caller, key)
      {
        TakenOrdered(s, w, caller, key);
      }
      assert OrderOk(r.issued, r.effects, r.crossed, r.workers[w], w, n);
    } else {
      DropPlainKeepsOrder(s.issued, s.effects, s.crossed, x, y, t, w, n);
      BeginPlainKeepsOrder(s1, w, t);
    }
  }

  lemma DropPlainKeepsOrder(
      issued: seq<Task>, effects: seq<Task>, crossed: set<(Thread, nat)>,
      x: Worker, y: Worker, t: Task, i: nat, n: nat)
    requires n > 0 && OrderOk(issued, effects, crossed, x, i, n) && !t.Config?
    requires y.stack == x.stack && Pending(x) == [t] + Pending(y)
    ensures OrderOk(issued, effects, crossed, y, i, n)
  {
    forall caller: Thread, key: nat | key % n == i ensures Ordered(issued, effects, crossed, y, caller, key) {
      assert Ordered(issued, effects, crossed, x, caller, key);
      OfConcat([t], Pending(y), caller, key);
      OfOne(t, caller, key);
      assert [] + Of(Pending(y), caller, key) == Of(Pending(y), caller, key);
    }
  }

  // ----- a deletion that returns -----

  /** The deletion that returns was the only one of its key. */
  lemma ReturnedKeyIsFree(s: Runtime, w: nat)
    requires TableInv(s) && Step(s, ReturnTop(w)).Some?
    ensures var top := s.workers[w].stack[|s.workers[w].stack| - 1];
            top.InDelete? ==> top.cfg.Config? && top.cfg.op.key % |s.workers| == w
                              && !IsDeleting(Step(s, ReturnTop(w)).value.workers[w], top.cfg.op.key)
  {
    var x := s.workers[w];
    var last := |x.stack| - 1;
    assert ShardOk(x, w, |s.workers|);
    assert x.stack[last] in x.stack;
    assert FrameOk(x.stack[last], x, w, |s.workers|);
    var y := Step(s, ReturnTop(w)).value.workers[w];
    if x.stack[last].InDelete? {
      forall f | f in y.stack && f.InDelete? && f.cfg.Config?
        ensures f.cfg.op.key != x.stack[last].cfg.op.key
      {
        var a :| 0 <= a < last && x.stack[a] == f;
      }
    }
  }

  lemma ErasedKeepsOrder(
      issued: seq<Task>, effects: seq<Task>, crossed: set<(Thread, nat)>,
      x: Worker, y: Worker, cfg: Task, caller: Thread, key: nat)
    requires Ordered(issued, effects, crossed, x, caller, key) && Pending(y) == Pending(x)
    requires Deleting(x.stack) == Deleting(y.stack) + [cfg]
    requires Matches(cfg, caller, key) ==> !IsDeleting(y, key)
    ensures Ordered(issued, effects + [cfg], crossed, y, caller, key)
  {
    if (caller, key) in crossed {
      CrossedStaysCrossed(issued, effects, cfg, caller, key);
    } else {
      OfConcat(Deleting(y.stack), [cfg], caller, key);
      OfConcat(effects, [cfg], caller, key);
      OfOne(cfg, caller, key);
      if Matches(cfg, caller, key) {
        NotDeleting(y, caller, key);
      }
    }
  }

  lemma EraseKeepsOrder(s: Runtime, w: nat)
    requires TableInv(s) && OrderInv(s) && Step(s, ReturnTop(w)).Some?
    requires s.workers[w].stack[|s.workers[w].stack| - 1].InDelete?
    ensures OrderInv(Step(s, ReturnTop(w)).value)
  {
    var r, n := Step(s, ReturnTop(w)).value, |s.workers|;
    var x, y := s.workers[w], r.workers[w];
    var cfg := x.stack[|x.stack| - 1].cfg;
    ReturnedKeyIsFree(s, w);
    assert Deleting(x.stack) == Deleting(y.stack) + [cfg];
    assert Pending(y) == Pending(x);
    assert OrderOk(s.issued, s.effects, s.crossed, x, w, n);
    forall caller: Thread, key: nat | key % n == w ensures Ordered(r.issued, r.effects, r.crossed, y, caller, key) {
      ErasedKeepsOrder(s.issued, s.effects, s.crossed, x, y, cfg, caller, key);
    }
    assert OrderOk(r.issued, r.effects, r.crossed, y, w, n);
    forall i | 0 <= i < n && i != w ensures OrderOk(r.issued, r.effects, r.crossed, r.workers[i], i, n) {
      OtherShardKeepsOrder(s.issued, s.effects, s.crossed, r.issued, r.effects, r.crossed, cfg, s.workers[i], i, n);
    }
  }

  lemma ReturnKeepsOrder(s: Runtime, w: nat)
    requires TableInv(s) && OrderInv(s) && Step(s, ReturnTop(w)).Some?
    ensures OrderInv(Step(s, ReturnTop(w)).value)
  {
    var x, y := s.workers[w], Step(s, ReturnTop(w)).value.workers[w];
    var top := x.stack[|x.stack| - 1];
    if top.InDelete? {
      EraseKeepsOrder(s, w);
    } else {
      assert Pending(y) == Pending(x);
      assert x.stack == y.stack + [top];
      DeletingSnoc(y.stack, top);
      SameQueueSameOrder(s.issued, s.effects, s.crossed, x, y, w, |s.workers|);
    }
  }

  lemma RequeueKeepsOrder(s: Runtime, w: nat)
    requires OrderInv(s) && Step(s, Requeue(w)).Some?
    ensures OrderInv(Step(s, Requeue(w)).value)
  {
    var x := s.workers[w];
    var y := Accept(Requeued(x), Pump);
    var below := x.stack[..|x.stack| - 1];
    assert x.stack == below + [InPump(false)];
    DeletingSnoc(below, InPump(false));
    DeletingSnoc(below, InPump(true));
    assert Pending(y) == Pending(x) + [Pump];
    SameQueueSameOrder(s.issued, s.effects, s.crossed, x, y, w, |s.workers|);
  }

  lemma StepKeepsOrder(s: Runtime, e: Event)
    requires QueueInv(s) && TableInv(s) && OrderInv(s) && Step(s, e).Some?
    ensures OrderInv(Step(s, e).value)
  {
    var n := |s.workers|;
    match e {
      case AddTask(_, id, index) => SendPlainKeepsOrder(s, Clamp(n, index), User(id));
      case AddTaskAsap(caller, id, index) =>
        var w := Clamp(n, index);
        if caller == OnWorker(w) { BeginPlainKeepsOrder(s, w, User(id)); } else { SendPlainKeepsOrder(s, w, User(id)); }
      case Issue(caller, op) =>
        var w, t := Owner(op, n), Config(caller, op);
        OwnerIsRemainder(op, n);
        if caller == OnWorker(w) { NestedIssueKeepsOrder(s, w, t); } else { SendIssueKeepsOrder(s, w, t); }
      case StartPump => SendPlainKeepsOrder(s, s.started, Pump);
      case SetExit =>
      case StartNext(w) => StartNextKeepsOrder(s, w);
      case Requeue(w) => RequeueKeepsOrder(s, w);
      case ReturnTop(w) => ReturnKeepsOrder(s, w);
      case _ =>
        LoopStepKeepsQueue(s.workers[e.w], s.exit, e);
        SameQueueSameOrder(s.issued, s.effects, s.crossed, s.workers[e.w],
                           LoopStep(s.workers[e.w], s.exit, e).value, e.w, n);
    }
  }

  // ----- whole runs -----

  ghost predicate Inv(s: Runtime) {
    QueueInv(s) && TableInv(s) && OrderInv(s)
  }

  lemma AlwaysInv(n: nat, es: seq<Event>)
    requires n > 0
    ensures var r := Exec(Step, NewRuntime(n), es); r.Some? ==> Inv(r.value)
  {
    forall x: Runtime, e: Event | Inv(x) && Step(x, e).Some? ensures Inv(Step(x, e).value) {
      StepKeepsQueue(x, e);
      StepKeepsTable(x, e);
      StepKeepsOrder(x, e);
    }
    InvariantOverRun(Step, Inv, NewRuntime(n), es);
  }

  /** In every run, the operations of one thread on one service take effect in the order in which
      the thread issued them, whether queued or run at once, and none twice, if and only if the
      thread never operated on the service from inside the `before` callback of its own deletion
      of that service. */
  lemma EffectsFollowIssueOrderIff(n: nat, es: seq<Event>, s: Runtime, caller: Thread, key: nat)
    requires n > 0 && Exec(Step, NewRuntime(n), es) == Some(s)
    ensures Of(s.effects, caller, key) <= Of(s.issued, caller, key) <==> (caller, key) !in s.crossed
  {
    AlwaysInv(n, es);
    var i := key % |s.workers|;
    assert OrderOk(s.issued, s.effects, s.crossed, s.workers[i], i, |s.workers|);
    assert Ordered(s.issued, s.effects, s.crossed, s.workers[i], caller, key);
  }

  /** A task on the only worker adds a service and begins to delete it ... */
  const PREPARE: seq<Event> := [AddTask(External(0), 7, 0), Loop(0), Poll(0), AfterSwap(0)]
  const ENTER: seq<Event> := [StartNext(0), Issue(OnWorker(0), Add(0, 1))]
  /** ... and adds it again from inside the deletion's `before` callback. */
  const CROSS: seq<Event> := [Issue(OnWorker(0), Del(0)), Issue(OnWorker(0), Add(0, 2))]

  lemma Prepared() returns (s: Runtime)
    ensures Exec(Step, NewRuntime(1), PREPARE) == Some(s)
    ensures |s.workers| == 1 && s.flat == map[] && s.crossed == {}
    ensures var x := s.workers[0]; x.pc.Running? && x.batch == [User(7)] && x.stack == [] && x.services == map[]
  {
    var s0 := NewRuntime(1);
    assert s0.workers == [IDLE_WORKER];
    var s1 := Step(s0, PREPARE[0]).value;
    assert s1.workers[0] == Accept(IDLE_WORKER, User(7));
    assert s1.workers[0].tail == [User(7)];
    var s2 := Step(s1, PREPARE[1]).value;
    var s3 := Step(s2, PREPARE[2]).value;
    s := Step(s3, PREPARE[3]).value;
    ExecTwo(Step, s0, PREPARE[0], s1, PREPARE[1], s2);
    ExecTwo(Step, s2, PREPARE[2], s3, PREPARE[3], s);
    ExecConcat(Step, s0, [PREPARE[0], PREPARE[1]], [PREPARE[2], PREPARE[3]]);
    assert PREPARE == [PREPARE[0], PREPARE[1]] + [PREPARE[2], PREPARE[3]];
  }

  lemma Entered(s: Runtime) returns (t: Runtime)
    requires |s.workers| == 1 && s.flat == map[] && s.crossed == {}
    requires var x := s.workers[0]; x.pc.Running? && x.batch == [User(7)] && x.stack == [] && x.services == map[]
    ensures Exec(Step, s, ENTER) == Some(t)
    ensures |t.workers| == 1 && t.crossed == {} && t.workers[0].stack == [InUser(7)] && t.workers[0].services == map[0 := 1]
  {
    var s1 := Step(s, ENTER[0]).value;
    assert s1.workers[0].stack == [InUser(7)];
    assert !IsDeletingFor(s1.workers[0], OnWorker(0), 0);
    t := Step(s1, ENTER[1]).value;
    ExecTwo(Step, s, ENTER[0], s1, ENTER[1], t);
  }

  lemma Crossed(s: Runtime) returns (t: Runtime)
    requires |s.workers| == 1 && s.crossed == {} && s.workers[0].stack == [InUser(7)] && s.workers[0].services == map[0 := 1]
    ensures Exec(Step, s, CROSS) == Some(t)
    ensures t.crossed == {(OnWorker(0), 0)}
  {
    var del := Config(OnWorker(0), Del(0));
    assert !IsDeleting(s.workers[0], 0) && !IsDeletingFor(s.workers[0], OnWorker(0), 0);
    var s1 := Step(s, CROSS[0]).value;
    assert s1.workers[0].stack == [InUser(7), InDelete(del)];
    assert InDelete(del) in s1.workers[0].stack;
    assert IsDeletingFor(s1.workers[0], OnWorker(0), 0);
    t := Step(s1, CROSS[1]).value;
    ExecTwo(Step, s, CROSS[0], s1, CROSS[1], t);
  }

  /** Such a run exists: the second addition takes effect before the deletion issued ahead of it. */
  lemma OrderCanBeCrossed() returns (s: Runtime)
    ensures Exec(Step, NewRuntime(1), PREPARE + ENTER + CROSS) == Some(s)
    ensures !(Of(s.effects, OnWorker(0), 0) <= Of(s.issued, OnWorker(0), 0))
  {
    var p := Prepared();
    var q := Entered(p);
    s := Crossed(q);
    ExecConcat(Step, NewRuntime(1), PREPARE, ENTER);
    ExecConcat(Step, NewRuntime(1), PREPARE + ENTER, CROSS);
    EffectsFollowIssueOrderIff(1, PREPARE + ENTER + CROSS, s, OnWorker(0), 0);
  }
}
