/** One whole round of `processEvents`, without interference from other threads or the kernel. */
module IoRounds {
  import opened Runs
  import opened IoService

  lemma RunKeeps(s: Service, es: seq<Event>)
    requires Inv(s)
    ensures Exec(Step, s, es).Some? ==> Inv(Exec(Step, s, es).value)
  {
    forall x: Service, e: Event | Inv(x) && Step(x, e).Some? ensures Inv(Step(x, e).value) {
      StepKeepsCounts(x, e);
      StepKeepsPlaced(x, e);
      StepKeepsStored(x, e);
    }
    InvariantOverRun(Step, Inv, s, es);
  }

  /** What the invariant says of the next request and the next event. */
  lemma NextIsKnown(s: Service, es: seq<Event>, t: Service)
    requires Inv(s) && Exec(Step, s, es) == Some(t)
    ensures t.batch != [] ==> t.batch[0] in t.requests
    ensures t.events != [] ==> t.events[0] in t.contexts
  {
    RunKeeps(s, es);
    if t.batch != [] {
      assert t.batch[0] in multiset(t.batch);
      OnePlace(t, t.batch[0]);
    }
    if t.events != [] {
      assert t.events[0] in multiset(t.events);
      assert t.events[0] in InFlight(t);
    }
  }

  function Prepares(frees: seq<bool>): seq<Event> {
    seq(|frees|, i requires 0 <= i < |frees| => Prepare(frees[i]))
  }

  function Collects(n: nat): seq<Event> {
    seq(n, _ => Collect)
  }

  function Handles(answers: seq<bool>): seq<Event> {
    seq(|answers|, i requires 0 <= i < |answers| => Handle(answers[i]))
  }

  // ----- the requests -----

  ghost predicate Prepared(s: Service, k: nat, t: Service)
    requires k <= |s.batch|
  {
    && t.phase.Preparing? && t.size == s.size && t.queue == s.queue && |s.sq| <= |t.sq|
    && t.batch == s.batch[k..] && t.processed == s.processed + s.batch[..k]
    && t.cq == s.cq && t.events == s.events && t.handled == s.handled && t.answers == s.answers
  }

  lemma PrepareNext(s: Service, k: nat, t: Service, free: bool)
    requires k < |s.batch| && Prepared(s, k, t) && t.batch[0] in t.requests
    ensures Step(t, Prepare(free)).Some? && Prepared(s, k + 1, Step(t, Prepare(free)).value)
  {
    assert s.processed + s.batch[..k] + [s.batch[k]] == s.processed + s.batch[..k + 1];
  }

  lemma {:induction false} PrepareSome(s: Service, frees: seq<bool>, k: nat)
    requires Inv(s) && s.phase.Preparing? && k <= |frees| && k <= |s.batch|
    ensures var r := Exec(Step, s, Prepares(frees)[..k]); r.Some? && Prepared(s, k, r.value)
  {
    if k == 0 {
      assert s.batch[..0] == [] && s.processed + [] == s.processed;
    } else {
      PrepareSome(s, frees, k - 1);
      var init := Prepares(frees)[..k - 1];
      var t := Exec(Step, s, init).value;
      NextIsKnown(s, init, t);
      PrepareNext(s, k - 1, t, frees[k - 1]);
      SnocPrepare(s, frees, k);
    }
  }

  lemma SnocPrepare(s: Service, frees: seq<bool>, k: nat)
    requires 0 < k <= |frees| && Exec(Step, s, Prepares(frees)[..k - 1]).Some?
    ensures Exec(Step, s, Prepares(frees)[..k])
         == Step(Exec(Step, s, Prepares(frees)[..k - 1]).value, Prepare(frees[k - 1]))
  {
    assert Prepares(frees)[..k] == Prepares(frees)[..k - 1] + [Prepare(frees[k - 1])];
    ExecSnoc(Step, s, Prepares(frees)[..k - 1], Prepare(frees[k - 1]));
  }

  /** From the round's beginning every queued request is prepared or refused, in order, whether or not
      ring entries are free; then the ring is entered if and only if it has a size. */
  lemma RequestsOfARound(size: nat, es: seq<Event>, s: Service, frees: seq<bool>)
    requires Exec(Step, NewService(size), es) == Some(s) && s.phase.Idle? && |frees| == |s.queue|
    ensures var r := Exec(Step, s, [TakeRequests] + Prepares(frees) + [EndPrepare]);
            && r.Some? && |s.sq| <= |r.value.sq|
            && r.value.queue == [] && r.value.batch == [] && r.value.processed == s.processed + s.queue
            && r.value.cq == s.cq && r.value.events == [] && r.value.handled == s.handled && r.value.answers == s.answers
            && (r.value.phase.Submitting? <==> s.size > 0) && (r.value.phase.Idle? <==> s.size == 0)
  {
    BetweenRounds(size, es, s);
    var t := TakeAll(s);
    var u := PrepareAll(t, frees);
    ExecConcat(Step, s, [TakeRequests], Prepares(frees));
    ExecSnoc(Step, s, [TakeRequests] + Prepares(frees), EndPrepare);
  }

  lemma TakeAll(s: Service) returns (t: Service)
    requires Inv(s) && s.phase.Idle?
    ensures t == s.(batch := s.queue, queue := [], phase := Preparing)
    ensures Exec(Step, s, [TakeRequests]) == Some(t) && Inv(t)
  {
    t := Step(s, TakeRequests).value;
    ExecSnoc(Step, s, [], TakeRequests);
    assert [] + [TakeRequests] == [TakeRequests];
    RunKeeps(s, [TakeRequests]);
  }

  lemma PrepareAll(t: Service, frees: seq<bool>) returns (u: Service)
    requires Inv(t) && t.phase.Preparing? && |frees| == |t.batch|
    ensures Exec(Step, t, Prepares(frees)) == Some(u)
    ensures u.batch == [] && u.processed == t.processed + t.batch
    ensures u.queue == t.queue && u.cq == t.cq && u.events == t.events && |t.sq| <= |u.sq|
    ensures u.handled == t.handled && u.answers == t.answers
    ensures Step(u, EndPrepare) == Some(u.(phase := if t.size > 0 then Submitting else Idle))
  {
    PrepareSome(t, frees, |frees|);
    assert Prepares(frees)[..|frees|] == Prepares(frees);
    u := Exec(Step, t, Prepares(frees)).value;
    LastPrepared(t, u);
  }

  lemma BetweenRounds(size: nat, es: seq<Event>, s: Service)
    requires Exec(Step, NewService(size), es) == Some(s)
    ensures Inv(s)
    ensures s.phase.Idle? ==> s.batch == [] && s.events == []
  {
    AlwaysInv(size, es);
  }

  lemma LastPrepared(t: Service, u: Service)
    requires Prepared(t, |t.batch|, u)
    ensures u.batch == [] && u.processed == t.processed + t.batch
    ensures u.queue == t.queue && u.cq == t.cq && u.events == t.events && |t.sq| <= |u.sq|
    ensures u.handled == t.handled && u.answers == t.answers
    ensures Step(u, EndPrepare) == Some(u.(phase := if t.size > 0 then Submitting else Idle))
  {
    assert t.batch[..|t.batch|] == t.batch;
  }

  // ----- the completions -----

  lemma {:induction false} CollectAll(s: Service, n: nat)
    requires s.phase == Collecting(0) && n <= |s.cq|
    ensures Exec(Step, s, Collects(n)) == Some(s.(events := s.events + s.cq[..n], phase := Collecting(n)))
    decreases n
  {
    if n == 0 {
      assert s.events + s.cq[..0] == s.events;
    } else {
      CollectAll(s, n - 1);
      assert Collects(n)[..n - 1] == Collects(n - 1);
      assert s.cq[..n - 1] + [s.cq[n - 1]] == s.cq[..n];
      assert s.events + s.cq[..n - 1] + [s.cq[n - 1]] == s.events + s.cq[..n];
    }
  }

  ghost predicate Handled(s: Service, answers: seq<bool>, k: nat, t: Service)
    requires k <= |answers| && k <= |s.events|
  {
    && t.phase.Handling? && t.cq == s.cq && t.events == s.events[k..]
    && t.handled == s.handled + s.events[..k] && t.answers == s.answers + answers[..k]
  }

  lemma HandleNext(s: Service, answers: seq<bool>, k: nat, t: Service)
    requires k < |answers| && k < |s.events| && Handled(s, answers, k, t) && t.events[0] in t.contexts
    ensures Step(t, Handle(answers[k])).Some? && Handled(s, answers, k + 1, Step(t, Handle(answers[k])).value)
  {
    assert s.handled + s.events[..k] + [s.events[k]] == s.handled + s.events[..k + 1];
    assert s.answers + answers[..k] + [answers[k]] == s.answers + answers[..k + 1];
  }

  lemma {:induction false} HandleSome(s: Service, answers: seq<bool>, k: nat)
    requires Inv(s) && s.phase.Handling? && k <= |answers| && k <= |s.events|
    ensures var r := Exec(Step, s, Handles(answers)[..k]); r.Some? && Handled(s, answers, k, r.value)
  {
    if k == 0 {
      assert s.handled + s.events[..0] == s.handled && s.answers + answers[..0] == s.answers;
    } else {
      HandleSome(s, answers, k - 1);
      var init := Handles(answers)[..k - 1];
      var t := Exec(Step, s, init).value;
      NextIsKnown(s, init, t);
      HandleNext(s, answers, k - 1, t);
      SnocHandle(s, answers, k);
    }
  }

  lemma SnocHandle(s: Service, answers: seq<bool>, k: nat)
    requires 0 < k <= |answers| && Exec(Step, s, Handles(answers)[..k - 1]).Some?
    ensures Exec(Step, s, Handles(answers)[..k])
         == Step(Exec(Step, s, Handles(answers)[..k - 1]).value, Handle(answers[k - 1]))
  {
    assert Handles(answers)[..k] == Handles(answers)[..k - 1] + [Handle(answers[k - 1])];
    ExecSnoc(Step, s, Handles(answers)[..k - 1], Handle(answers[k - 1]));
  }

  /** The two system calls of a round; either can fail and end it. */
  lemma SystemCalls(s: Service, k: int, ok: bool)
    requires s.phase.Submitting? && k <= |s.sq|
    ensures k < 0 ==> Step(s, EnterKernel(k)) == Some(s.(phase := Idle))
    ensures k >= 0 ==>
              Exec(Step, s, [EnterKernel(k), WaitCqe(ok)])
              == Some(s.(sq := s.sq[k..], kernel := s.kernel + multiset(s.sq[..k]),
                         phase := if ok then Collecting(0) else Idle))
  {
    if k >= 0 {
      var t := Step(s, EnterKernel(k)).value;
      ExecTwo(Step, s, EnterKernel(k), t, WaitCqe(ok), Step(t, WaitCqe(ok)).value);
    }
  }

  /** Once the completions are to be collected, the round copies all of them, takes them off the ring,
      handles each once in ring order, and is back at its beginning with the ring's completions empty. */
  lemma CompletionsOfARound(s: Service, answers: seq<bool>)
    requires Inv(s) && s.phase == Collecting(0) && s.events == [] && |answers| == |s.cq|
    ensures var r := Exec(Step, s, Collects(|s.cq|) + [Advance] + Handles(answers) + [EndRound]);
            && r.Some? && r.value.phase.Idle? && r.value.cq == [] && r.value.events == []
            && r.value.handled == s.handled + s.cq && r.value.answers == s.answers + answers
  {
    var es := Collects(|s.cq|) + [Advance];
    var t := CollectedAndAdvanced(s);
    RunKeeps(s, es);
    var u := HandleAll(t, answers);
    ExecConcat(Step, s, es, Handles(answers));
    ExecSnoc(Step, s, es + Handles(answers), EndRound);
  }

  lemma HandleAll(t: Service, answers: seq<bool>) returns (u: Service)
    requires Inv(t) && t.phase.Handling? && |answers| == |t.events|
    ensures Exec(Step, t, Handles(answers)) == Some(u) && u.cq == t.cq
    ensures u.handled == t.handled + t.events && u.events == [] && u.answers == t.answers + answers
    ensures Step(u, EndRound) == Some(u.(phase := Idle))
  {
    HandleSome(t, answers, |answers|);
    assert Handles(answers)[..|answers|] == Handles(answers);
    u := Exec(Step, t, Handles(answers)).value;
    LastHandled(t, answers, u);
  }

  lemma LastHandled(t: Service, answers: seq<bool>, u: Service)
    requires |answers| == |t.events| && Handled(t, answers, |answers|, u)
    ensures u.handled == t.handled + t.events && u.events == [] && u.answers == t.answers + answers
    ensures Step(u, EndRound) == Some(u.(phase := Idle))
  {
    assert t.events[..|t.events|] == t.events && answers[..|answers|] == answers;
  }

  lemma CollectedAndAdvanced(s: Service) returns (t: Service)
    requires s.phase == Collecting(0) && s.events == []
    ensures Exec(Step, s, Collects(|s.cq|) + [Advance]) == Some(t)
    ensures t.phase.Handling? && t.cq == [] && t.events == s.cq
    ensures t.handled == s.handled && t.answers == s.answers
  {
    var n := |s.cq|;
    CollectAll(s, n);
    assert s.cq[..n] == s.cq && [] + s.cq == s.cq;
    var u := s.(events := s.cq, phase := Collecting(n));
    t := AdvanceAll(u);
    ExecSnoc(Step, s, Collects(n), Advance);
  }

  lemma AdvanceAll(u: Service) returns (t: Service)
    requires u.phase == Collecting(|u.cq|)
    ensures Step(u, Advance) == Some(t)
    ensures t.phase.Handling? && t.cq == [] && t.events == u.events
    ensures t.handled == u.handled && t.answers == u.answers
  {
    t := Step(u, Advance).value;
  }

  /** A whole round from any reachable state between rounds, with system calls that succeed: every event
      of it is possible, and it handles every completion that was there, once and in order. */
  lemma RoundServesAll(size: nat, es: seq<Event>, s: Service, frees: seq<bool>, k: nat, answers: seq<bool>)
    requires Exec(Step, NewService(size), es) == Some(s) && s.phase.Idle? && s.size > 0
    requires |frees| == |s.queue| && k <= |s.sq| && |answers| == |s.cq|
    ensures var first := [TakeRequests] + Prepares(frees) + [EndPrepare];
            var last := Collects(|s.cq|) + [Advance] + Handles(answers) + [EndRound];
            var r := Exec(Step, s, first + [EnterKernel(k), WaitCqe(true)] + last);
            && r.Some? && r.value.phase.Idle? && r.value.cq == []
            && r.value.handled == s.handled + s.cq && r.value.answers == s.answers + answers
  {
    var first := [TakeRequests] + Prepares(frees) + [EndPrepare];
    var last := Collects(|s.cq|) + [Advance] + Handles(answers) + [EndRound];
    BetweenRounds(size, es, s);
    RequestsOfARound(size, es, s, frees);
    var t := Exec(Step, s, first).value;
    SystemCalls(t, k, true);
    ExecConcat(Step, s, first, [EnterKernel(k), WaitCqe(true)]);
    RunKeeps(s, first + [EnterKernel(k), WaitCqe(true)]);
    CompletionsOfARound(Exec(Step, t, [EnterKernel(k), WaitCqe(true)]).value, answers);
    ExecConcat(Step, s, first + [EnterKernel(k), WaitCqe(true)], last);
  }
}
