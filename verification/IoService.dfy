/** The life cycle of an I/O request: queued by any thread, prepared as a ring entry and handled by
    the service's own thread, and completed in between by the kernel, which returns each submitted
    entry once and in any order.

    The ring's user data is the address of the request's stored context, so it is identified with
    the request's uid here.  Callers give distinct uids, equal to `general.uid`.
 */
module IoService {
  import opened Runs

  datatype Kind = Open | Connect | Accept | Read | Write | Recv | Send | Disconnect | Close | Hosting | Other

  /** A request's stored context; `callback` identifies its `onEvents` function, if it has one. */
  datatype Context = Context(kind: Kind, callback: Option<nat>)

  /** Where the service's thread stands in one round of `processEvents`. */
  datatype Phase = Idle | Preparing | Submitting | WaitingCqe | Collecting(count: nat) | Handling

  datatype Call = Call(uid: nat, callback: nat)

  /** The submit queue and the batch being prepared, the stored contexts, the ring (prepared
      entries, entries inside the kernel, completions), the events handed to the handler, and
      `m_size` and `m_used`.  The rest are histories: every request submitted, the numbers of
      entries prepared and completions consumed, the requests processed, refused and handled, the
      callbacks called, and what each handled request's callback, if any, answered. */
  datatype Service = Service(
    queue: seq<nat>, batch: seq<nat>, contexts: map<nat, Context>,
    sq: seq<nat>, kernel: multiset<nat>, cq: seq<nat>, events: seq<nat>,
    size: nat, used: int, phase: Phase,
    requests: map<nat, Context>, prepared: nat, consumed: nat,
    processed: seq<nat>, refused: seq<nat>, handled: seq<nat>, called: seq<Call>, answers: seq<bool>)

  datatype Event =
    | Submit(uid: nat, context: Context)
    | TakeRequests
    | Prepare(sqeFree: bool)
    | EndPrepare
    | EnterKernel(accepted: int)
    | WaitCqe(ok: bool)
    | Collect
    | Advance
    | Handle(answer: bool)
    | EndRound
    | Complete(uid: nat)

  function NewService(size: nat): Service {
    Service([], [], map[], [], multiset{}, [], [], size, 0, Idle, map[], 0, 0, [], [], [], [], [])
  }

  /** Kinds that `submitRequest_Private` turns away before asking for a ring entry. */
  predicate Refused(kind: Kind) {
    kind.Other? || kind.Hosting? || kind.Disconnect?
  }

  /** `submitRequest_Private`: the context is stored first, and stays stored if the request is then
      refused. */
  function PrepareOne(s: Service, sqeFree: bool): Service
    requires s.batch != [] && s.batch[0] in s.requests
  {
    var uid := s.batch[0];
    var t := s.(batch := s.batch[1..], contexts := s.contexts[uid := s.requests[uid]],
                processed := s.processed + [uid]);
    if Refused(s.requests[uid].kind) || !sqeFree
    then t.(refused := s.refused + [uid])
    else t.(sq := s.sq + [uid], used := s.used + 1, prepared := s.prepared + 1)
  }

  /** The handler: calls the callback, and forgets the context unless the callback keeps it. */
  function HandleOne(s: Service, answer: bool): Service
    requires s.events != [] && s.events[0] in s.contexts
  {
    var uid := s.events[0];
    var callback := s.contexts[uid].callback;
    var t := s.(events := s.events[1..], handled := s.handled + [uid], answers := s.answers + [answer],
                called := if callback.Some? then s.called + [Call(uid, callback.value)] else s.called);
    if callback.None? || answer then t.(contexts := s.contexts - {uid}) else t
  }

  function Step(s: Service, e: Event): Option<Service> {
    match e
    case Submit(uid, context) =>
      if uid in s.requests then None
      else Some(s.(queue := s.queue + [uid], requests := s.requests[uid := context]))
    case TakeRequests =>
      if !s.phase.Idle? then None else Some(s.(batch := s.queue, queue := [], phase := Preparing))
    case Prepare(sqeFree) =>
      if !s.phase.Preparing? || s.batch == [] || s.batch[0] !in s.requests then None
      else Some(PrepareOne(s, sqeFree))
    case EndPrepare =>
      if !s.phase.Preparing? || s.batch != [] then None
      else Some(s.(phase := if s.size <= 0 then Idle else Submitting))
    case EnterKernel(k) =>
      if !s.phase.Submitting? || k > |s.sq| then None else Some(EnterRing(s, k))
    case WaitCqe(ok) =>
      if !s.phase.WaitingCqe? then None else Some(s.(phase := if ok then Collecting(0) else Idle))
    case Collect =>
      if !s.phase.Collecting? || s.phase.count >= |s.cq| then None
      else Some(s.(events := s.events + [s.cq[s.phase.count]], phase := Collecting(s.phase.count + 1)))
    case Advance =>
      if !s.phase.Collecting? || s.phase.count > |s.cq| then None
      else Some(s.(cq := s.cq[s.phase.count..], used := s.used - s.phase.count,
                   consumed := s.consumed + s.phase.count, phase := Handling))
    case Handle(answer) =>
      if !s.phase.Handling? || s.events == [] || s.events[0] !in s.contexts then None
      else Some(HandleOne(s, answer))
    case EndRound =>
      if !s.phase.Handling? || s.events != [] then None else Some(s.(phase := Idle))
    case Complete(uid) =>
      if uid !in s.kernel then None
      else Some(s.(kernel := s.kernel - multiset{uid}, cq := s.cq + [uid]))
  }

  /** `io_uring_submit` hands the first `k` prepared entries to the kernel, or fails. */
  function EnterRing(s: Service, k: int): Service
    requires k <= |s.sq|
  {
    if k < 0 then s.(phase := Idle)
    else s.(sq := s.sq[k..], kernel := s.kernel + multiset(s.sq[..k]), phase := WaitingCqe)
  }

  /** Completions already copied to `events` but not yet taken off the completion queue. */
  function Copied(s: Service): nat {
    if s.phase.Collecting? then s.phase.count else 0
  }

  /** Prepared entries whose callback has not run. */
  ghost function InFlight(s: Service): multiset<nat>
    requires Copied(s) <= |s.cq|
  {
    multiset(s.sq) + s.kernel + multiset(s.cq[Copied(s)..]) + multiset(s.events)
  }

  /** Everything the service knows of, wherever it is. */
  ghost function Everywhere(s: Service): multiset<nat>
    requires Copied(s) <= |s.cq|
  {
    multiset(s.queue) + multiset(s.batch) + InFlight(s) + multiset(s.handled) + multiset(s.refused)
  }

  /** Each request's own callback, for the handled requests that have one. */
  function CallsOf(handled: seq<nat>, requests: map<nat, Context>): seq<Call> {
    if handled == [] then []
    else
      var uid := handled[|handled| - 1];
      CallsOf(handled[..|handled| - 1], requests)
        + if uid in requests && requests[uid].callback.Some? then [Call(uid, requests[uid].callback.value)] else []
  }

  ghost predicate Counts(s: Service) {
    && Copied(s) <= |s.cq|
    && s.used == |s.sq| + |s.kernel| + |s.cq|
    && s.prepared == s.used + s.consumed
    && (s.phase.Idle? || s.phase.Preparing? || s.phase.Submitting? || s.phase.WaitingCqe? ==> s.events == [])
    && (!s.phase.Preparing? ==> s.batch == [])
    && s.consumed + Copied(s) == |s.handled| + |s.events|
  }

  /** Every request ever submitted is in exactly one place. */
  ghost predicate Placed(s: Service) {
    Copied(s) <= |s.cq| && Everywhere(s) == multiset(s.requests.Keys)
  }

  ghost predicate Stored(s: Service) {
    && Copied(s) <= |s.cq|
    && (forall u :: u in s.contexts ==> u in s.requests && s.contexts[u] == s.requests[u])
    && (forall u :: u in InFlight(s) ==> u in s.contexts)
    && (forall u :: u in s.refused ==> u in s.contexts)
    && s.called == CallsOf(s.handled, s.requests)
  }

  ghost predicate Inv(s: Service) {
    Counts(s) && Placed(s) && Stored(s)
  }

  // ----- counting -----

  lemma StepKeepsCounts(s: Service, e: Event)
    requires Counts(s) && Step(s, e).Some?
    ensures Counts(Step(s, e).value)
  {
    match e {
      case Complete(uid) => CompleteKeepsCounts(s, uid);
      case Advance =>
      case _ =>
    }
  }

  lemma CompleteKeepsCounts(s: Service, uid: nat)
    requires Counts(s) && uid in s.kernel
    ensures Counts(Step(s, Complete(uid)).value)
  {
    assert |s.kernel - multiset{uid}| == |s.kernel| - 1;
  }

  // ----- places -----

  lemma Halves(a: seq<nat>, k: nat)
    requires k <= |a|
    ensures multiset(a) == multiset(a[..k]) + multiset(a[k..])
  {
    assert a == a[..k] + a[k..];
  }

  lemma SubmitKeepsPlaced(s: Service, uid: nat, context: Context)
    requires Placed(s) && Step(s, Submit(uid, context)).Some?
    ensures Placed(Step(s, Submit(uid, context)).value)
  {
    var t := Step(s, Submit(uid, context)).value;
    assert t.requests.Keys == s.requests.Keys + {uid};
    NewMember(s.requests.Keys, uid);
    assert multiset(t.queue) == multiset(s.queue) + multiset{uid};
    assert InFlight(t) == InFlight(s);
    AddedFirst(multiset(s.queue), multiset(s.batch), InFlight(s), multiset(s.handled), multiset(s.refused), uid);
  }

  lemma AddedFirst(a: multiset<nat>, b: multiset<nat>, c: multiset<nat>, d: multiset<nat>, e: multiset<nat>, u: nat)
    ensures (a + multiset{u}) + b + c + d + e == (a + b + c + d + e) + multiset{u}
  {
  }

  lemma NewMember(keys: set<nat>, uid: nat)
    requires uid !in keys
    ensures multiset(keys + {uid}) == multiset(keys) + multiset{uid}
  {
  }

  lemma PrepareKeepsPlaced(s: Service, sqeFree: bool)
    requires Placed(s) && s.batch != [] && s.batch[0] in s.requests
    ensures Placed(PrepareOne(s, sqeFree))
  {
    var t := PrepareOne(s, sqeFree);
    Halves(s.batch, 1);
    assert s.batch[..1] == [s.batch[0]];
    assert Everywhere(t) == Everywhere(s);
  }

  lemma EnterKeepsPlaced(s: Service, k: int)
    requires Placed(s) && s.phase.Submitting? && 0 <= k <= |s.sq|
    ensures Placed(EnterRing(s, k))
  {
    var t := EnterRing(s, k);
    Halves(s.sq, k);
    assert Everywhere(t) == Everywhere(s);
  }

  lemma CollectKeepsPlaced(s: Service)
    requires Placed(s) && Step(s, Collect).Some?
    ensures Placed(Step(s, Collect).value)
  {
    var t, c := Step(s, Collect).value, s.phase.count;
    Halves(s.cq[c..], 1);
    assert s.cq[c..][..1] == [s.cq[c]] && s.cq[c..][1..] == s.cq[c + 1..];
    assert Everywhere(t) == Everywhere(s);
  }

  lemma HandleKeepsPlaced(s: Service, answer: bool)
    requires Placed(s) && s.events != [] && s.events[0] in s.contexts
    ensures Placed(HandleOne(s, answer))
  {
    var t := HandleOne(s, answer);
    Halves(s.events, 1);
    assert s.events[..1] == [s.events[0]];
    assert Everywhere(t) == Everywhere(s);
  }

  lemma CompleteKeepsPlaced(s: Service, uid: nat)
    requires Placed(s) && Step(s, Complete(uid)).Some?
    ensures Placed(Step(s, Complete(uid)).value)
  {
    var t := Step(s, Complete(uid)).value;
    assert t.cq[Copied(s)..] == s.cq[Copied(s)..] + [uid];
    MovedInFlight(multiset(s.sq), s.kernel, multiset(s.cq[Copied(s)..]), multiset(s.events), uid);
    assert InFlight(t) == InFlight(s);
  }

  lemma MovedInFlight(a: multiset<nat>, b: multiset<nat>, c: multiset<nat>, d: multiset<nat>, uid: nat)
    requires uid in b
    ensures a + (b - multiset{uid}) + (c + multiset{uid}) + d == a + b + c + d
  {
  }

  lemma StepKeepsPlaced(s: Service, e: Event)
    requires Counts(s) && Placed(s) && Step(s, e).Some?
    ensures Placed(Step(s, e).value)
  {
    match e {
      case Submit(uid, context) => SubmitKeepsPlaced(s, uid, context);
      case Prepare(sqeFree) => PrepareKeepsPlaced(s, sqeFree);
      case EnterKernel(k) => if k >= 0 { EnterKeepsPlaced(s, k); } else { OthersKeepPlaced(s, e); }
      case Collect => CollectKeepsPlaced(s);
      case Handle(answer) => HandleKeepsPlaced(s, answer);
      case Complete(uid) => CompleteKeepsPlaced(s, uid);
      case _ => OthersKeepPlaced(s, e);
    }
  }

  /** The remaining events change no more than the service thread's position. */
  predicate MovesNothing(e: Event) {
    e.TakeRequests? || e.EndPrepare? || e.WaitCqe? || e.Advance? || e.EndRound? || (e.EnterKernel? && e.accepted < 0)
  }

  lemma OthersKeepInFlight(s: Service, e: Event)
    requires Copied(s) <= |s.cq| && Step(s, e).Some? && MovesNothing(e)
    ensures var t := Step(s, e).value;
            && Copied(t) <= |t.cq| && InFlight(t) == InFlight(s)
            && t == s.(queue := t.queue, batch := t.batch, cq := t.cq, used := t.used, consumed := t.consumed, phase := t.phase)
  {
    var t := Step(s, e).value;
    assert t.cq[Copied(t)..] == s.cq[Copied(s)..];
  }

  lemma OthersKeepPlaced(s: Service, e: Event)
    requires Counts(s) && Placed(s) && Step(s, e).Some? && MovesNothing(e)
    ensures Placed(Step(s, e).value)
  {
    var t := Step(s, e).value;
    OthersKeepInFlight(s, e);
    assert multiset(t.queue) + multiset(t.batch) == multiset(s.queue) + multiset(s.batch);
  }

  // ----- stored contexts and calls -----

  /** A request in one place is in no other. */
  lemma OnePlace(s: Service, u: nat)
    requires Placed(s)
    ensures Everywhere(s)[u] <= 1
    ensures u in Everywhere(s) <==> u in s.requests
  {
    assert Everywhere(s)[u] == multiset(s.requests.Keys)[u];
  }

  lemma {:induction false} CallsOfExtended(handled: seq<nat>, requests: map<nat, Context>, uid: nat, context: Context)
    requires uid !in handled
    ensures CallsOf(handled, requests[uid := context]) == CallsOf(handled, requests)
    decreases |handled|
  {
    if handled != [] {
      CallsOfExtended(handled[..|handled| - 1], requests, uid, context);
    }
  }

  lemma SubmitKeepsStored(s: Service, uid: nat, context: Context)
    requires Placed(s) && Stored(s) && Step(s, Submit(uid, context)).Some?
    ensures Stored(Step(s, Submit(uid, context)).value)
  {
    var t := Step(s, Submit(uid, context)).value;
    assert uid !in s.handled by {
      OnePlace(s, uid);
      assert uid !in multiset(s.handled);
    }
    CallsOfExtended(s.handled, s.requests, uid, context);
    assert InFlight(t) == InFlight(s);
  }

  lemma PrepareKeepsStored(s: Service, sqeFree: bool)
    requires Placed(s) && Stored(s) && s.batch != [] && s.batch[0] in s.requests
    ensures Stored(PrepareOne(s, sqeFree))
  {
    var t := PrepareOne(s, sqeFree);
    forall u | u in InFlight(t) ensures u in t.contexts {
      assert u == s.batch[0] || u in InFlight(s);
    }
  }

  /** The event being handled is in flight once, and is neither refused nor in flight elsewhere. */
  lemma HandledIsAlone(s: Service)
    requires Placed(s) && s.events != []
    ensures s.events[0] !in s.refused
    ensures s.events[0] !in multiset(s.sq) + s.kernel + multiset(s.cq[Copied(s)..]) + multiset(s.events[1..])
  {
    var uid := s.events[0];
    OnePlace(s, uid);
    Halves(s.events, 1);
    assert s.events[..1] == [uid];
    var others := multiset(s.sq) + s.kernel + multiset(s.cq[Copied(s)..]) + multiset(s.events[1..]);
    assert InFlight(s) == others + multiset{uid};
    assert Everywhere(s)[uid] >= others[uid] + 1 + multiset(s.refused)[uid];
  }

  lemma HandleKeepsStored(s: Service, answer: bool)
    requires Placed(s) && Stored(s) && s.events != [] && s.events[0] in s.contexts
    ensures Stored(HandleOne(s, answer))
  {
    var t, uid := HandleOne(s, answer), s.events[0];
    HandledIsAlone(s);
    forall u | u in InFlight(t) ensures u in t.contexts {
      assert u != uid;
      assert u in s.contexts by { Halves(s.events, 1); assert u in InFlight(s); }
    }
    assert t.handled[..|s.handled|] == s.handled;
  }

  lemma StepKeepsStored(s: Service, e: Event)
    requires Inv(s) && Step(s, e).Some?
    ensures Stored(Step(s, e).value)
  {
    match e {
      case Submit(uid, context) => SubmitKeepsStored(s, uid, context);
      case Prepare(sqeFree) => PrepareKeepsStored(s, sqeFree);
      case Handle(answer) => HandleKeepsStored(s, answer);
      case _ =>
        QuietStep(s, e);
        QuietRecords(s, e);
        SameFlightSameStored(s, Step(s, e).value);
    }
  }

  lemma SameFlightSameStored(s: Service, t: Service)
    requires Stored(s) && Copied(t) <= |t.cq| && InFlight(t) == InFlight(s)
    requires t.contexts == s.contexts && t.requests == s.requests && t.refused == s.refused
    requires t.handled == s.handled && t.called == s.called
    ensures Stored(t)
  {
  }

  lemma CompleteInFlight(s: Service, uid: nat)
    requires Copied(s) <= |s.cq| && Step(s, Complete(uid)).Some?
    ensures InFlight(Step(s, Complete(uid)).value) == InFlight(s)
  {
    var t := Step(s, Complete(uid)).value;
    assert t.cq[Copied(s)..] == s.cq[Copied(s)..] + [uid];
    assert multiset(t.cq[Copied(s)..]) == multiset(s.cq[Copied(s)..]) + multiset{uid};
    assert s.kernel == t.kernel + multiset{uid};
  }

  lemma CollectInFlight(s: Service)
    requires Copied(s) <= |s.cq| && Step(s, Collect).Some?
    ensures InFlight(Step(s, Collect).value) == InFlight(s)
  {
    var c := s.phase.count;
    Halves(s.cq[c..], 1);
    assert s.cq[c..][..1] == [s.cq[c]] && s.cq[c..][1..] == s.cq[c + 1..];
  }

  // ----- which contexts are stored -----

  /** A handled request whose callback asked to keep the context. */
  ghost predicate Kept(s: Service, u: nat) {
    exists j :: 0 <= j < |s.handled| && j < |s.answers| && s.handled[j] == u && !s.answers[j]
                && u in s.requests && s.requests[u].callback.Some?
  }

  ghost predicate StoredExactly(s: Service) {
    && Copied(s) <= |s.cq| && |s.answers| == |s.handled|
    && forall u :: u in s.contexts <==> u in s.refused || u in InFlight(s) || Kept(s, u)
  }

  /** Handling forgets a context unless the request has a callback and it answers false, and
      touches no other. */
  lemma HandleForgets(s: Service, answer: bool)
    requires s.events != [] && s.events[0] in s.contexts
    ensures var uid, t := s.events[0], HandleOne(s, answer);
            && (uid in t.contexts <==> s.contexts[uid].callback.Some? && !answer)
            && forall u :: u != uid ==> (u in t.contexts <==> u in s.contexts)
                                        && (u in t.contexts ==> t.contexts[u] == s.contexts[u])
  {
  }

  lemma KeptAfterHandle(s: Service, answer: bool, u: nat)
    requires s.events != [] && s.events[0] in s.contexts && |s.answers| == |s.handled|
    ensures var uid := s.events[0];
            Kept(HandleOne(s, answer), u) <==>
              Kept(s, u) || (u == uid && !answer && uid in s.requests && s.requests[uid].callback.Some?)
  {
    var t, n := HandleOne(s, answer), |s.handled|;
    if Kept(s, u) {
      var j :| 0 <= j < n && s.handled[j] == u && !s.answers[j];
      assert t.handled[j] == u && !t.answers[j];
    }
    if Kept(t, u) {
      var j :| 0 <= j < n + 1 && t.handled[j] == u && !t.answers[j];
      if j < n { assert s.handled[j] == u && !s.answers[j]; }
    }
    assert t.handled[n] == s.events[0] && t.answers[n] == answer;
  }

  lemma HandleKeepsExactly(s: Service, answer: bool)
    requires Placed(s) && Stored(s) && StoredExactly(s) && s.events != [] && s.events[0] in s.contexts
    ensures StoredExactly(HandleOne(s, answer))
  {
    var uid, t := s.events[0], HandleOne(s, answer);
    HandledIsAlone(s);
    HandleForgets(s, answer);
    forall u ensures u in t.contexts <==> u in t.refused || u in InFlight(t) || Kept(t, u) {
      KeptAfterHandle(s, answer, u);
      InFlightAfterHandle(s, answer, u);
    }
  }

  lemma InFlightAfterHandle(s: Service, answer: bool, u: nat)
    requires Placed(s) && s.events != [] && s.events[0] in s.contexts
    ensures u in InFlight(HandleOne(s, answer)) <==> u in InFlight(s) && u != s.events[0]
    ensures u == s.events[0] ==> u in s.requests && !Kept(s, u)
  {
    HandledIsAlone(s);
    HandledOnlyOnce(s);
    Halves(s.events, 1);
    assert s.events[..1] == [s.events[0]];
  }

  lemma HandledOnlyOnce(s: Service)
    requires Placed(s) && s.events != []
    ensures s.events[0] !in s.handled && s.events[0] in s.requests
  {
    var uid := s.events[0];
    OnePlace(s, uid);
    assert uid in multiset(s.events);
    assert Everywhere(s)[uid] >= multiset(s.events)[uid] + multiset(s.handled)[uid];
  }

  lemma SubmitKeepsExactly(s: Service, uid: nat, context: Context)
    requires Placed(s) && StoredExactly(s) && Step(s, Submit(uid, context)).Some?
    ensures StoredExactly(Step(s, Submit(uid, context)).value)
  {
    var t := Step(s, Submit(uid, context)).value;
    OnePlace(s, uid);
    assert uid !in s.handled by { assert uid !in multiset(s.handled); }
    assert InFlight(t) == InFlight(s);
    forall u ensures Kept(t, u) <==> Kept(s, u) {
      NewRequestNotKept(s, uid, context, u);
    }
  }

  lemma NewRequestNotKept(s: Service, uid: nat, context: Context, u: nat)
    requires uid !in s.requests && uid !in s.handled
    ensures Kept(Step(s, Submit(uid, context)).value, u) <==> Kept(s, u)
  {
    var t := Step(s, Submit(uid, context)).value;
    if Kept(t, u) {
      var j :| 0 <= j < |t.handled| && j < |t.answers| && t.handled[j] == u && !t.answers[j];
      assert u in s.handled && u != uid;
    }
  }

  lemma PrepareKeepsExactly(s: Service, sqeFree: bool)
    requires StoredExactly(s) && s.batch != [] && s.batch[0] in s.requests
    ensures StoredExactly(PrepareOne(s, sqeFree))
  {
    var t := PrepareOne(s, sqeFree);
    forall u ensures u in t.contexts <==> u in t.refused || u in InFlight(t) || Kept(t, u) {
      SameAnswersSameKept(s, t, u);
      PreparedOrRefused(s, sqeFree, u);
    }
  }

  lemma SameAnswersSameKept(s: Service, t: Service, u: nat)
    requires t.handled == s.handled && t.answers == s.answers && t.requests == s.requests
    ensures Kept(t, u) <==> Kept(s, u)
  {
  }

  lemma PreparedOrRefused(s: Service, sqeFree: bool, u: nat)
    requires Copied(s) <= |s.cq| && s.batch != [] && s.batch[0] in s.requests
    ensures var t := PrepareOne(s, sqeFree);
            && Copied(t) <= |t.cq|
            && (u in t.refused || u in InFlight(t) <==> u in s.refused || u in InFlight(s) || u == s.batch[0])
  {
    var t := PrepareOne(s, sqeFree);
    if t.sq == s.sq {
      assert InFlight(t) == InFlight(s);
    } else {
      assert multiset(t.sq) == multiset(s.sq) + multiset{s.batch[0]};
    }
  }

  lemma SameFlightSameExactly(s: Service, t: Service)
    requires StoredExactly(s) && Copied(t) <= |t.cq| && InFlight(t) == InFlight(s)
    requires t.contexts == s.contexts && t.requests == s.requests && t.refused == s.refused
    requires t.handled == s.handled && t.answers == s.answers
    ensures StoredExactly(t)
  {
    forall u ensures Kept(t, u) <==> Kept(s, u) {
    }
  }

  predicate Quiet(e: Event) {
    !e.Submit? && !e.Prepare? && !e.Handle?
  }

  /** The other events leave what is in flight and all the records of requests alone. */
  lemma QuietStep(s: Service, e: Event)
    requires Copied(s) <= |s.cq| && Step(s, e).Some? && Quiet(e)
    ensures Copied(Step(s, e).value) <= |Step(s, e).value.cq|
    ensures InFlight(Step(s, e).value) == InFlight(s)
  {
    match e {
      case Collect => CollectInFlight(s);
      case Complete(uid) => CompleteInFlight(s, uid);
      case EnterKernel(k) => if k >= 0 { EnterInFlight(s, k); } else { OthersKeepInFlight(s, e); }
      case _ => OthersKeepInFlight(s, e);
    }
  }

  lemma EnterInFlight(s: Service, k: nat)
    requires Copied(s) <= |s.cq| && s.phase.Submitting? && k <= |s.sq|
    ensures InFlight(EnterRing(s, k)) == InFlight(s)
  {
    Halves(s.sq, k);
  }

  lemma QuietRecords(s: Service, e: Event)
    requires Step(s, e).Some? && Quiet(e)
    ensures var t := Step(s, e).value;
            && t.contexts == s.contexts && t.requests == s.requests && t.refused == s.refused
            && t.handled == s.handled && t.answers == s.answers && t.called == s.called
  {
  }

  lemma StepKeepsExactly(s: Service, e: Event)
    requires Inv(s) && StoredExactly(s) && Step(s, e).Some?
    ensures StoredExactly(Step(s, e).value)
  {
    match e {
      case Submit(uid, context) => SubmitKeepsExactly(s, uid, context);
      case Prepare(sqeFree) => PrepareKeepsExactly(s, sqeFree);
      case Handle(answer) => HandleKeepsExactly(s, answer);
      case _ =>
        QuietStep(s, e);
        QuietRecords(s, e);
        SameFlightSameExactly(s, Step(s, e).value);
    }
  }

  // ----- which requests reach the ring -----

  /** The kinds the ring is given. */
  predicate Preparable(kind: Kind) {
    || kind.Open? || kind.Connect? || kind.Accept? || kind.Read?
    || kind.Write? || kind.Recv? || kind.Send? || kind.Close?
  }

  /** One request prepared or refused: prepared exactly if its kind is one of the eight the ring knows
      and an entry is free. */
  lemma PrepareDecides(s: Service, sqeFree: bool)
    requires s.batch != [] && s.batch[0] in s.requests
    ensures var uid, t := s.batch[0], PrepareOne(s, sqeFree); var kind := s.requests[uid].kind;
            && Preparable(kind) == !(kind.Disconnect? || kind.Hosting? || kind.Other?)
            && (if Preparable(kind) && sqeFree
                then t.sq == s.sq + [uid] && t.refused == s.refused
                else t.sq == s.sq && t.refused == s.refused + [uid])
            && uid in t.contexts && t.contexts[uid] == s.requests[uid]
  {
  }

  /** After the requests of a round, the service goes on to submit if and only if its ring has a size. */
  lemma RoundSubmitsIff(s: Service)
    requires s.phase.Preparing? && s.batch == []
    ensures var r := Step(s, EndPrepare);
            r.Some? && (r.value.phase.Submitting? <==> s.size > 0) && (r.value.phase.Idle? <==> s.size == 0)
  {
  }

  ghost predicate KindsOk(s: Service) {
    && Copied(s) <= |s.cq|
    && (forall u :: u in InFlight(s) ==> u in s.requests && Preparable(s.requests[u].kind))
    && (forall u :: u in s.handled ==> u in s.requests && Preparable(s.requests[u].kind))
  }

  lemma StepKeepsKinds(s: Service, e: Event)
    requires Inv(s) && KindsOk(s) && Step(s, e).Some?
    ensures KindsOk(Step(s, e).value)
  {
    match e {
      case Submit(uid, context) => SubmitKeepsKinds(s, uid, context);
      case Prepare(sqeFree) => PrepareKeepsKinds(s, sqeFree);
      case Handle(answer) => HandleKeepsKinds(s, answer);
      case _ =>
        QuietStep(s, e);
        QuietRecords(s, e);
    }
  }

  lemma SubmitKeepsKinds(s: Service, uid: nat, context: Context)
    requires KindsOk(s) && Step(s, Submit(uid, context)).Some?
    ensures KindsOk(Step(s, Submit(uid, context)).value)
  {
    assert InFlight(Step(s, Submit(uid, context)).value) == InFlight(s);
  }

  lemma PrepareKeepsKinds(s: Service, sqeFree: bool)
    requires KindsOk(s) && s.batch != [] && s.batch[0] in s.requests
    ensures KindsOk(PrepareOne(s, sqeFree))
  {
    forall u | u in InFlight(PrepareOne(s, sqeFree)) ensures u in s.requests && Preparable(s.requests[u].kind) {
      assert u in InFlight(s) || u == s.batch[0];
    }
  }

  lemma HandleKeepsKinds(s: Service, answer: bool)
    requires Placed(s) && KindsOk(s) && s.events != [] && s.events[0] in s.contexts
    ensures KindsOk(HandleOne(s, answer))
  {
    assert s.events[0] in multiset(s.events);
    assert s.events[0] in InFlight(s);
    forall u | u in InFlight(HandleOne(s, answer)) ensures u in InFlight(s) {
      InFlightAfterHandle(s, answer, u);
    }
  }

  // ----- whole runs -----

  lemma AlwaysExact(size: nat, es: seq<Event>)
    ensures var r := Exec(Step, NewService(size), es);
            r.Some? ==> Inv(r.value) && StoredExactly(r.value) && KindsOk(r.value)
  {
    forall s: Service, e: Event | Whole(s) && Step(s, e).Some? ensures Whole(Step(s, e).value) {
      StepKeepsCounts(s, e);
      StepKeepsPlaced(s, e);
      StepKeepsStored(s, e);
      StepKeepsExactly(s, e);
      StepKeepsKinds(s, e);
    }
    assert Everywhere(NewService(size)) == multiset{} && InFlight(NewService(size)) == multiset{};
    InvariantOverRun(Step, Whole, NewService(size), es);
  }

  ghost predicate Whole(s: Service) {
    Inv(s) && StoredExactly(s) && KindsOk(s)
  }

  /** In every reachable state where an event is handled, its context is stored afterwards if and only
      if the request has a callback and it answered false; no other context changes. */
  lemma ContextForgottenIff(size: nat, es: seq<Event>, s: Service, answer: bool, t: Service)
    requires Exec(Step, NewService(size), es) == Some(s) && Step(s, Handle(answer)) == Some(t)
    ensures var uid := s.events[0];
            && uid in s.requests
            && (uid in t.contexts <==> s.requests[uid].callback.Some? && !answer)
            && forall u :: u != uid ==> (u in t.contexts <==> u in s.contexts)
                                        && (u in t.contexts ==> t.contexts[u] == s.contexts[u])
  {
    AlwaysInv(size, es);
    HandleForgets(s, answer);
  }

  /** Over any run the stored contexts are exactly those of the refused requests, of the entries in
      flight, and of the handled requests whose callback answered false; only the eight kinds the
      ring knows are ever in flight or handled. */
  lemma StoredContextsAreExact(size: nat, es: seq<Event>, s: Service, u: nat)
    requires Exec(Step, NewService(size), es) == Some(s)
    ensures Copied(s) <= |s.cq| && |s.answers| == |s.handled|
    ensures u in s.contexts <==>
              || u in s.refused
              || u in InFlight(s)
              || exists j :: 0 <= j < |s.handled| && s.handled[j] == u && !s.answers[j]
                             && u in s.requests && s.requests[u].callback.Some?
    ensures u in InFlight(s) || u in s.handled ==> u in s.requests && Preparable(s.requests[u].kind)
  {
    AlwaysExact(size, es);
    if Kept(s, u) {
      var j :| 0 <= j < |s.handled| && s.handled[j] == u && !s.answers[j];
    }
  }

  /** The uids submitted by some events, with their contexts, and the answers of the callbacks. */
  function Submitted(es: seq<Event>): seq<nat> {
    if es == [] then []
    else Submitted(es[..|es| - 1]) + if es[|es| - 1].Submit? then [es[|es| - 1].uid] else []
  }

  function Answered(es: seq<Event>): seq<bool> {
    if es == [] then []
    else Answered(es[..|es| - 1]) + if es[|es| - 1].Handle? then [es[|es| - 1].answer] else []
  }

  /** Requests are prepared or refused in the order in which they were submitted, none twice, and the
      history of answers is that of the handled events. */
  lemma {:induction false} ProcessedInSubmissionOrder(size: nat, es: seq<Event>, s: Service)
    requires Exec(Step, NewService(size), es) == Some(s)
    ensures s.processed + s.batch + s.queue == Submitted(es)
    ensures s.answers == Answered(es)
    decreases |es|
  {
    if es != [] {
      var init := es[..|es| - 1];
      var b := Exec(Step, NewService(size), init).value;
      ProcessedInSubmissionOrder(size, init, b);
      AlwaysInv(size, init);
      StepKeepsSubmissionOrder(b, es[|es| - 1]);
    }
  }

  lemma StepKeepsSubmissionOrder(s: Service, e: Event)
    requires Counts(s) && Step(s, e).Some?
    ensures var t := Step(s, e).value;
            && t.processed + t.batch + t.queue
               == s.processed + s.batch + s.queue + (if e.Submit? then [e.uid] else [])
            && t.answers == s.answers + if e.Handle? then [e.answer] else []
  {
    var t := Step(s, e).value;
    match e {
      case Submit(uid, _) =>
        assert s.processed + s.batch + (s.queue + [uid]) == s.processed + s.batch + s.queue + [uid];
      case TakeRequests =>
        assert s.batch == [];
        assert s.processed + s.queue + [] == s.processed + [] + s.queue;
      case Prepare(_) => assert s.processed + s.batch == t.processed + t.batch;
      case _ => assert t.processed == s.processed && t.batch == s.batch && t.queue == s.queue;
    }
  }

  lemma AlwaysInv(size: nat, es: seq<Event>)
    ensures var r := Exec(Step, NewService(size), es); r.Some? ==> Inv(r.value)
  {
    forall s: Service, e: Event | Inv(s) && Step(s, e).Some? ensures Inv(Step(s, e).value) {
      StepKeepsCounts(s, e);
      StepKeepsPlaced(s, e);
      StepKeepsStored(s, e);
    }
    assert Everywhere(NewService(size)) == multiset{};
    InvariantOverRun(Step, Inv, NewService(size), es);
  }

  /** Over any run, entries prepared minus completions consumed is `m_used`, which counts the
      entries in the ring and so never goes below zero. */
  lemma UsedCountsRingEntries(size: nat, es: seq<Event>, s: Service)
    requires Exec(Step, NewService(size), es) == Some(s)
    ensures s.used == s.prepared - s.consumed == |s.sq| + |s.kernel| + |s.cq|
  {
    AlwaysInv(size, es);
  }

  /** Every entry whose callback has not run names a stored context, the one it was submitted
      with; so the handler never meets a missing context. */
  lemma InFlightContextIsLive(size: nat, es: seq<Event>, s: Service, uid: nat)
    requires Exec(Step, NewService(size), es) == Some(s)
    requires uid in s.sq || uid in s.kernel || uid in s.cq[if Copied(s) <= |s.cq| then Copied(s) else 0..] || uid in s.events
    ensures uid in s.contexts && uid in s.requests && s.contexts[uid] == s.requests[uid]
    ensures s.phase.Handling? && s.events != [] ==> forall answer :: Step(s, Handle(answer)).Some?
  {
    AlwaysInv(size, es);
    assert uid in multiset(s.sq) || uid in s.kernel || uid in multiset(s.cq[Copied(s)..]) || uid in multiset(s.events);
    assert uid in InFlight(s);
    if s.events != [] {
      assert s.events[0] in multiset(s.events);
      assert s.events[0] in InFlight(s);
    }
  }

  /** Each completion is handled once and runs the callback its own request was submitted with;
      a refused request's is never run and its context stays stored; and every request is in
      exactly one place: waiting, in flight, handled or refused. */
  lemma EachCompletionRunsItsCallbackOnce(size: nat, es: seq<Event>, s: Service)
    requires Exec(Step, NewService(size), es) == Some(s)
    ensures s.called == CallsOf(s.handled, s.requests)
    ensures forall i, j :: 0 <= i < j < |s.handled| ==> s.handled[i] != s.handled[j]
    ensures s.consumed + Copied(s) == |s.handled| + |s.events|
    ensures forall u :: u in s.refused ==> u in s.contexts && u !in s.handled
    ensures Copied(s) <= |s.cq| && Everywhere(s) == multiset(s.requests.Keys)
  {
    AlwaysInv(size, es);
    forall i, j | 0 <= i < j < |s.handled| ensures s.handled[i] != s.handled[j] {
      OnePlace(s, s.handled[i]);
      TwiceInSequence(s.handled, i, j);
    }
    forall u | u in s.refused ensures u !in s.handled {
      OnePlace(s, u);
      assert u in multiset(s.refused);
      assert multiset(s.refused)[u] + multiset(s.handled)[u] <= Everywhere(s)[u];
    }
  }

  lemma TwiceInSequence(a: seq<nat>, i: nat, j: nat)
    requires i < j < |a|
    ensures a[i] == a[j] ==> multiset(a)[a[i]] >= 2
  {
    Halves(a, j);
    assert a[i] == a[..j][i];
    assert a[i] in multiset(a[..j]);
    assert a[j] == a[j..][0];
    assert a[j] in multiset(a[j..]);
  }

  // ----- the service's own code -----

  /** A queued closure: the uid with the context it captured. */
  datatype Request = Request(uid: nat, context: Context)

  /** The queued closures stand for the abstract queue. */
  ghost predicate Captured(closures: seq<Request>, uids: seq<nat>, requests: map<nat, Context>) {
    && |closures| == |uids|
    && forall i :: 0 <= i < |uids| ==>
         closures[i].uid == uids[i] && uids[i] in requests && closures[i].context == requests[uids[i]]
  }

  /** The fields the service's thread works on.  `g` is the whole abstract state; each operation
      returns the events it performed, which lead from the old state to the new one. */
  class IoServiceObject {
    var submitQueue: seq<Request>
    var contexts: map<nat, Context>
    var sq: seq<nat>
    var used: int
    const size: nat
    ghost var g: Service

    ghost predicate Valid()
      reads this
    {
      && Captured(submitQueue, g.queue, g.requests)
      && g.contexts == contexts && g.sq == sq && g.used == used && g.size == size
    }

    constructor (size: nat)
      ensures Valid() && g == NewService(size)
    {
      submitQueue, contexts, sq, used := [], map[], [], 0;
      this.size := size;
      g := NewService(size);
    }

    method SubmitRequest(uid: nat, context: Context)
      requires Valid() && uid !in g.requests
      modifies this
      ensures Valid() && Step(old(g), Submit(uid, context)) == Some(g)
    {
      submitQueue := submitQueue + [Request(uid, context)];
      g := Step(g, Submit(uid, context)).value;
    }

    method SubmitRequestPrivate(uid: nat, context: Context, sqeFree: bool) returns (ok: bool)
      requires Valid() && g.phase.Preparing? && g.batch != [] && g.batch[0] == uid
      requires uid in g.requests && g.requests[uid] == context
      modifies this`contexts, this`sq, this`used, this`g
      ensures Valid() && Step(old(g), Prepare(sqeFree)) == Some(g)
      ensures contexts == old(contexts)[uid := context]
      ensures ok <==> sqeFree && !context.kind.Other? && !context.kind.Hosting? && !context.kind.Disconnect?
      ensures sq == (if ok then old(sq) + [uid] else old(sq)) && used == old(used) + if ok then 1 else 0
    {
      contexts := contexts[uid := context];
      g := Step(g, Prepare(sqeFree)).value;
      if context.kind.Other? || context.kind.Hosting? || context.kind.Disconnect? {
        return false;
      }
      if !sqeFree {
        return false;
      }
      sq := sq + [uid];
      used := used + 1;
      return true;
    }

    /** `working_request`; `sqeFree` says whether the ring has an entry free for a request. */
    method WorkingRequest(sqeFree: nat -> bool) returns (ghost es: seq<Event>)
      requires Valid() && g.phase.Idle?
      modifies this
      ensures Valid() && Exec(Step, old(g), es) == Some(g)
      ensures g.phase.Preparing? && g.batch == [] && submitQueue == []
    {
      ghost var g0 := g;
      var results := submitQueue;
      submitQueue := [];
      g := Step(g, TakeRequests).value;
      ExecSnoc(Step, g0, [], TakeRequests);
      es := [] + [TakeRequests];
      for i := 0 to |results|
        invariant Valid() && submitQueue == [] && g.phase.Preparing?
        invariant Captured(results[i..], g.batch, g.requests)
        invariant Exec(Step, g0, es) == Some(g)
      {
        ghost var before := g;
        var fn := results[i];
        assert results[i..][0] == fn;
        var ok := SubmitRequestPrivate(fn.uid, fn.context, sqeFree(fn.uid));
        ExecSnoc(Step, g0, es, Prepare(sqeFree(fn.uid)));
        es := es + [Prepare(sqeFree(fn.uid))];
        CapturedTail(results[i..], before.batch, g.requests);
        assert results[i..][1..] == results[i + 1..];
      }
    }

    lemma CapturedTail(closures: seq<Request>, uids: seq<nat>, requests: map<nat, Context>)
      requires Captured(closures, uids, requests) && uids != []
      ensures Captured(closures[1..], uids[1..], requests)
    {
    }

    /** The handler on one event; `answer` is what its callback, if any, returns. */
    method HandleEvent(uid: nat, answer: bool)
      requires Valid() && g.phase.Handling? && g.events != [] && g.events[0] == uid && uid in contexts
      modifies this
      ensures Valid() && Step(old(g), Handle(answer)) == Some(g)
      ensures contexts == if old(contexts)[uid].callback.Some? && !answer then old(contexts) else old(contexts) - {uid}
    {
      var bret := true;
      if contexts[uid].callback.Some? {
        bret := answer;
      }
      if bret {
        contexts := contexts - {uid};
      }
      g := Step(g, Handle(answer)).value;
    }
  }
}
