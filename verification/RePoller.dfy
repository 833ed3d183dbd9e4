/** One tick of the poller: custom events and epoll events are merged per descriptor, and the
    registered callbacks are called by walking one of two ordered maps. */
module RePoller {
  import opened Runs

  /** An event mask as the set of its bits, so that the bitwise OR of two masks is their union. */
  type Bit = b: nat | b < 32
  type Mask = set<Bit>

  /** A descriptor, a C `int`; those below -1 are the poller's own. */
  type Fd = x: int | -0x8000_0000 <= x < 0x8000_0000

  datatype EpollEvent = EpollEvent(fd: Fd, mask: Mask)

  /** What `epoll_wait` gives: an error, an interruption, or events. */
  datatype Wait = Failed | Interrupted | Ready(events: seq<EpollEvent>)

  /** A callback, named by a number, called for a descriptor with an event mask. */
  datatype Call = Call(fd: Fd, callback: nat, mask: Mask)

  // ----- merging -----

  function MergeOne(m: map<Fd, Mask>, e: EpollEvent): map<Fd, Mask> {
    m[e.fd := if e.fd in m then m[e.fd] + e.mask else e.mask]
  }

  function Merge(m: map<Fd, Mask>, es: seq<EpollEvent>): map<Fd, Mask> {
    if es == [] then m else MergeOne(Merge(m, es[..|es| - 1]), es[|es| - 1])
  }

  function OneOr(e: EpollEvent, fd: Fd): Mask {
    if e.fd == fd then e.mask else {}
  }

  /** The bitwise OR of everything reported for a descriptor. */
  function OrAll(es: seq<EpollEvent>, fd: Fd): Mask {
    if es == [] then {}
    else OrAll(es[..|es| - 1], fd) + OneOr(es[|es| - 1], fd)
  }

  predicate Reported(es: seq<EpollEvent>, fd: Fd) {
    exists i :: 0 <= i < |es| && es[i].fd == fd
  }

  function CustomMask(m: map<Fd, Mask>, fd: Fd): Mask {
    if fd in m then m[fd] else {}
  }

  /** A descriptor is pending after the merge exactly when it has a custom event or was reported,
      with the OR of its custom event and all its reports. */
  lemma {:induction false} MergeIsOr(m: map<Fd, Mask>, es: seq<EpollEvent>, fd: Fd)
    ensures fd in Merge(m, es) <==> fd in m || Reported(es, fd)
    ensures fd in Merge(m, es) ==> Merge(m, es)[fd] == CustomMask(m, fd) + OrAll(es, fd)
    decreases |es|
  {
    if es != [] {
      var n := |es| - 1;
      var init := es[..n];
      MergeIsOr(m, init, fd);
      assert Reported(es, fd) <==> Reported(init, fd) || es[n].fd == fd by {
        if Reported(init, fd) {
          var i :| 0 <= i < |init| && init[i].fd == fd;
          assert es[i].fd == fd;
        }
        if Reported(es, fd) && es[n].fd != fd {
          var i :| 0 <= i < |es| && es[i].fd == fd;
          assert init[i].fd == fd;
        }
      }
      if fd !in Merge(m, init) {
        NotReported(init, fd);
      }
    }
  }

  lemma {:induction false} NotReported(es: seq<EpollEvent>, fd: Fd)
    requires !Reported(es, fd)
    ensures OrAll(es, fd) == {}
    decreases |es|
  {
    if es != [] {
      var init := es[..|es| - 1];
      assert forall i :: 0 <= i < |init| ==> init[i] == es[i];
      NotReported(init, fd);
    }
  }

  lemma {:induction false} OrAllConcat(a: seq<EpollEvent>, b: seq<EpollEvent>, fd: Fd)
    ensures OrAll(a + b, fd) == OrAll(a, fd) + OrAll(b, fd)
    decreases |b|
  {
    if b == [] {
      assert a + b == a;
    } else {
      var n := |b| - 1;
      assert (a + b)[..|a| + n] == a + b[..n];
      OrAllConcat(a, b[..n], fd);
    }
  }

  /** Taking a report out of the middle takes its mask out of the OR. */
  lemma OrAllWithout(es: seq<EpollEvent>, j: nat, fd: Fd)
    requires j < |es|
    ensures OrAll(es, fd) == OrAll(es[..j] + es[j + 1..], fd) + OneOr(es[j], fd)
  {
    var a, b, e := es[..j], es[j + 1..], es[j];
    assert es == (a + [e]) + b;
    OrAllConcat(a + [e], b, fd);
    OrAllConcat(a, b, fd);
    assert (a + [e])[..|a|] == a;
  }

  lemma WithoutOne(es: seq<EpollEvent>, j: nat)
    requires j < |es|
    ensures multiset(es) == multiset(es[..j] + es[j + 1..]) + multiset{es[j]}
  {
    assert es == es[..j] + [es[j]] + es[j + 1..];
  }

  lemma RemoveBoth(es: seq<EpollEvent>, fs: seq<EpollEvent>) returns (j: nat)
    requires es != [] && multiset(es) == multiset(fs)
    ensures j < |fs| && fs[j] == es[|es| - 1]
    ensures multiset(es[..|es| - 1]) == multiset(fs[..j] + fs[j + 1..])
  {
    var n := |es| - 1;
    assert es[n] in multiset(es);
    assert es[n] in fs;
    j :| 0 <= j < |fs| && fs[j] == es[n];
    WithoutOne(es, n);
    WithoutOne(fs, j);
    assert es[..n] + es[n + 1..] == es[..n];
    Cancel(multiset(es[..n]), multiset(fs[..j] + fs[j + 1..]), multiset{es[n]});
  }

  lemma Cancel(a: multiset<EpollEvent>, b: multiset<EpollEvent>, c: multiset<EpollEvent>)
    requires a + c == b + c
    ensures a == b
  {
    assert a == (a + c) - c && b == (b + c) - c;
  }

  lemma {:induction false} OrAllIgnoresOrder(es: seq<EpollEvent>, fs: seq<EpollEvent>, fd: Fd)
    requires multiset(es) == multiset(fs)
    ensures OrAll(es, fd) == OrAll(fs, fd)
    decreases |es|
  {
    if es == [] {
      assert |multiset(fs)| == 0;
    } else {
      var j := RemoveBoth(es, fs);
      OrAllIgnoresOrder(es[..|es| - 1], fs[..j] + fs[j + 1..], fd);
      OrAllWithout(fs, j, fd);
    }
  }

  lemma ReportedIgnoresOrder(es: seq<EpollEvent>, fs: seq<EpollEvent>, fd: Fd)
    requires multiset(es) == multiset(fs) && Reported(es, fd)
    ensures Reported(fs, fd)
  {
    var i :| 0 <= i < |es| && es[i].fd == fd;
    assert es[i] in multiset(es);
    assert es[i] in fs;
    var k :| 0 <= k < |fs| && fs[k] == es[i];
  }

  /** The merged map does not depend on the order in which epoll reported its events. */
  lemma MergeIgnoresOrder(m: map<Fd, Mask>, es: seq<EpollEvent>, fs: seq<EpollEvent>)
    requires multiset(es) == multiset(fs)
    ensures Merge(m, es) == Merge(m, fs)
  {
    forall fd: Fd
      ensures fd in Merge(m, es) <==> fd in Merge(m, fs)
      ensures fd in Merge(m, es) ==> Merge(m, es)[fd] == Merge(m, fs)[fd]
    {
      MergeIsOr(m, es, fd);
      MergeIsOr(m, fs, fd);
      OrAllIgnoresOrder(es, fs, fd);
      if Reported(es, fd) { ReportedIgnoresOrder(es, fs, fd); }
      if Reported(fs, fd) { ReportedIgnoresOrder(fs, es, fd); }
    }
  }

  // ----- ordered maps -----

  lemma {:induction false} LeastExists(s: set<Fd>)
    requires s != {}
    ensures exists k :: k in s && forall x :: x in s ==> k <= x
    decreases |s|
  {
    assert |s| != 0;
    var a :| a in s;
    var rest := s - {a};
    var k := a;
    if rest != {} {
      LeastExists(rest);
      var b :| b in rest && forall x :: x in rest ==> b <= x;
      k := if a < b then a else b;
    }
    forall x | x in s ensures k <= x {
      assert x == a || x in rest;
    }
    assert k in s;
  }

  function Least(s: set<Fd>): (k: Fd)
    requires s != {}
    ensures k in s && forall x :: x in s ==> k <= x
  {
    LeastExists(s);
    var k :| k in s && forall x :: x in s ==> k <= x;
    k
  }

  /** The keys of an ordered map in the order of its iterators. */
  function Ascending(s: set<Fd>): seq<Fd>
    decreases |s|
  {
    if s == {} then [] else [Least(s)] + Ascending(s - {Least(s)})
  }

  ghost predicate StrictlyAscending(keys: seq<Fd>) {
    forall i, j :: 0 <= i < j < |keys| ==> keys[i] < keys[j]
  }

  lemma {:induction false} AscendingCorrect(s: set<Fd>)
    ensures StrictlyAscending(Ascending(s))
    ensures forall x :: x in Ascending(s) <==> x in s
    decreases |s|
  {
    if s != {} {
      var k := Least(s);
      AscendingCorrect(s - {k});
      var rest := Ascending(s - {k});
      assert forall j :: 0 <= j < |rest| ==> rest[j] in rest;
    }
  }

  /** Two ascending sequences of the same keys are the same. */
  lemma {:induction false} AscendingUnique(a: seq<Fd>, b: seq<Fd>)
    requires StrictlyAscending(a) && StrictlyAscending(b)
    requires forall x :: x in a <==> x in b
    ensures a == b
    decreases |a|
  {
    if a != [] || b != [] {
      if a != [] { assert a[0] in b; }
      if b != [] { assert b[0] in a; }
      assert a[0] == b[0];
      TailMembers(a, b);
      AscendingUnique(a[1..], b[1..]);
      assert a == [a[0]] + a[1..] && b == [b[0]] + b[1..];
    }
  }

  lemma TailMembers(a: seq<Fd>, b: seq<Fd>)
    requires StrictlyAscending(a) && StrictlyAscending(b)
    requires a != [] && b != [] && a[0] == b[0] && forall x :: x in a <==> x in b
    ensures forall x :: x in a[1..] <==> x in b[1..]
  {
    forall x ensures x in a[1..] <==> x in a && x != a[0] {
      assert a == [a[0]] + a[1..];
    }
    forall x ensures x in b[1..] <==> x in b && x != b[0] {
      assert b == [b[0]] + b[1..];
    }
  }

  // ----- dispatching -----

  /** The keys that are also in `other`, in their order. */
  function Filter(keys: seq<Fd>, other: set<Fd>): (r: seq<Fd>)
    ensures forall x :: x in r <==> x in keys && x in other
  {
    if keys == [] then []
    else
      var n := |keys| - 1;
      Filter(keys[..n], other) + if keys[n] in other then [keys[n]] else []
  }

  lemma {:induction false} FilterAscending(keys: seq<Fd>, other: set<Fd>)
    requires StrictlyAscending(keys)
    ensures StrictlyAscending(Filter(keys, other))
    decreases |keys|
  {
    if keys != [] {
      var n := |keys| - 1;
      FilterAscending(keys[..n], other);
      var r := Filter(keys[..n], other);
      forall j | 0 <= j < |r| ensures r[j] < keys[n] {
        assert r[j] in r;
        assert r[j] in keys[..n];
      }
    }
  }

  /** The calls made on a walk over some descriptors: those pending and registered are called. */
  function CallsOn(fds: seq<Fd>, events: map<Fd, Mask>, callbacks: map<Fd, nat>): seq<Call> {
    if fds == [] then []
    else
      var n := |fds| - 1;
      CallsOn(fds[..n], events, callbacks)
        + if fds[n] in events && fds[n] in callbacks then [Call(fds[n], callbacks[fds[n]], events[fds[n]])] else []
  }

  /** What a tick should call: every registered descriptor with a pending event, once, in ascending
      order. */
  function Expected(events: map<Fd, Mask>, callbacks: map<Fd, nat>): seq<Call> {
    CallsOn(Ascending(events.Keys * callbacks.Keys), events, callbacks)
  }

  lemma {:induction false} CallsOnFiltered(fds: seq<Fd>, events: map<Fd, Mask>, callbacks: map<Fd, nat>)
    ensures CallsOn(Filter(fds, events.Keys * callbacks.Keys), events, callbacks) == CallsOn(fds, events, callbacks)
    decreases |fds|
  {
    if fds != [] {
      var n := |fds| - 1;
      var both := events.Keys * callbacks.Keys;
      CallsOnFiltered(fds[..n], events, callbacks);
      if fds[n] in both {
        var r := Filter(fds, both);
        assert r[..|r| - 1] == Filter(fds[..n], both);
      } else {
        assert Filter(fds, both) == Filter(fds[..n], both);
      }
    }
  }

  /** Walking any ordered set that has all the pending registered descriptors makes the expected
      calls. */
  lemma WalkMakesExpectedCalls(keys: set<Fd>, events: map<Fd, Mask>, callbacks: map<Fd, nat>)
    requires events.Keys * callbacks.Keys <= keys
    ensures CallsOn(Ascending(keys), events, callbacks) == Expected(events, callbacks)
  {
    var both := events.Keys * callbacks.Keys;
    AscendingCorrect(keys);
    AscendingCorrect(both);
    FilterAscending(Ascending(keys), both);
    AscendingUnique(Filter(Ascending(keys), both), Ascending(both));
    CallsOnFiltered(Ascending(keys), events, callbacks);
  }

  /** The two dispatch strategies make the same calls. */
  lemma BothWalksAgree(events: map<Fd, Mask>, callbacks: map<Fd, nat>)
    ensures CallsOn(Ascending(events.Keys), events, callbacks) == Expected(events, callbacks)
    ensures CallsOn(Ascending(callbacks.Keys), events, callbacks) == Expected(events, callbacks)
  {
    WalkMakesExpectedCalls(events.Keys, events, callbacks);
    WalkMakesExpectedCalls(callbacks.Keys, events, callbacks);
  }

  lemma {:induction false} CallsOnAll(fds: seq<Fd>, events: map<Fd, Mask>, callbacks: map<Fd, nat>)
    requires forall i :: 0 <= i < |fds| ==> fds[i] in events && fds[i] in callbacks
    ensures var r := CallsOn(fds, events, callbacks);
            |r| == |fds| && forall i :: 0 <= i < |r| ==> r[i] == Call(fds[i], callbacks[fds[i]], events[fds[i]])
    decreases |fds|
  {
    if fds != [] {
      CallsOnAll(fds[..|fds| - 1], events, callbacks);
    }
  }

  /** The meaning of the expected calls of a tick, in terms of the custom events and the reports:
      ascending descriptors, exactly the registered ones with a custom event or a report, each with
      its own callback and the OR of its custom event and its reports. */
  lemma ExpectedMeaning(custom: map<Fd, Mask>, es: seq<EpollEvent>, callbacks: map<Fd, nat>)
    ensures var calls := Expected(Merge(custom, es), callbacks);
            && (forall i, j :: 0 <= i < j < |calls| ==> calls[i].fd < calls[j].fd)
            && (forall i :: 0 <= i < |calls| ==>
                  && calls[i].fd in callbacks && calls[i].callback == callbacks[calls[i].fd]
                  && calls[i].mask == CustomMask(custom, calls[i].fd) + OrAll(es, calls[i].fd))
            && (forall fd :: (exists i :: 0 <= i < |calls| && calls[i].fd == fd)
                  <==> fd in callbacks && (fd in custom || Reported(es, fd)))
  {
    var events := Merge(custom, es);
    var fds := Ascending(events.Keys * callbacks.Keys);
    var calls := Expected(events, callbacks);
    AscendingCorrect(events.Keys * callbacks.Keys);
    forall i | 0 <= i < |fds| ensures fds[i] in events && fds[i] in callbacks {
      assert fds[i] in fds;
    }
    CallsOnAll(fds, events, callbacks);
    forall i | 0 <= i < |calls|
      ensures calls[i].fd in callbacks && calls[i].callback == callbacks[calls[i].fd]
      ensures calls[i].mask == CustomMask(custom, calls[i].fd) + OrAll(es, calls[i].fd)
    {
      assert fds[i] in fds;
      MergeIsOr(custom, es, fds[i]);
    }
    forall fd
      ensures (exists i :: 0 <= i < |calls| && calls[i].fd == fd)
         <==> fd in callbacks && (fd in custom || Reported(es, fd))
    {
      MergeIsOr(custom, es, fd);
      assert fd in fds <==> fd in events && fd in callbacks;
      if fd in fds {
        var i :| 0 <= i < |fds| && fds[i] == fd;
        assert calls[i].fd == fd;
      }
    }
  }

  /** The calls of a tick do not depend on the order in which epoll reported its events. */
  lemma TickIgnoresReportOrder(custom: map<Fd, Mask>, es: seq<EpollEvent>, fs: seq<EpollEvent>, callbacks: map<Fd, nat>)
    requires multiset(es) == multiset(fs)
    ensures Expected(Merge(custom, es), callbacks) == Expected(Merge(custom, fs), callbacks)
  {
    MergeIgnoresOrder(custom, es, fs);
  }

  // ----- the poller as it is coded -----

  class Poller {
    var callbacks: map<Fd, nat>
    var customEvents: map<Fd, Mask>
    var shutdown: bool

    constructor ()
      ensures callbacks == map[] && customEvents == map[] && !shutdown
    {
      callbacks, customEvents, shutdown := map[], map[], false;
    }

    /** An empty callback and the descriptors 0 and -1 are refused. */
    method SetReadyCallback(fd: Fd, callback: Option<nat>) returns (ok: bool)
      modifies this`callbacks
      ensures ok <==> callback.Some? && fd != 0 && fd != -1
      ensures callbacks == if ok then old(callbacks)[fd := callback.value] else old(callbacks)
    {
      if callback.None? || fd == 0 || fd == -1 {
        return false;
      }
      callbacks := callbacks[fd := callback.value];
      return true;
    }

    /** An accepted event replaces an earlier one for the same descriptor. */
    method NotifyEvents(fd: Fd, mask: Mask) returns (ok: bool)
      modifies this`customEvents
      ensures ok <==> fd != 0 && fd != -1 && fd in callbacks
      ensures customEvents == if ok then old(customEvents)[fd := mask] else old(customEvents)
    {
      if fd == 0 || fd == -1 {
        return false;
      }
      if fd in callbacks {
        customEvents := customEvents[fd := mask];
        return true;
      }
      return false;
    }

    /** One tick, with the calls it makes.  The custom events are used up even when the wait
        fails. */
    method Work(wait: Wait) returns (calls: seq<Call>)
      modifies this`customEvents, this`shutdown
      ensures customEvents == map[]
      ensures shutdown == (old(shutdown) || wait.Failed?)
      ensures calls == match wait
                       case Failed => []
                       case Interrupted => Expected(old(customEvents), callbacks)
                       case Ready(es) => Expected(Merge(old(customEvents), es), callbacks)
    {
      var current := customEvents;
      customEvents := map[];
      var numEvMap, numCbMap := |current|, |callbacks|;
      if wait.Failed? {
        shutdown := true;
        return [];
      }
      if wait.Ready? {
        current := MergeLoop(current, wait.events);
      }
      if numEvMap < numCbMap {
        calls := DispatchByEvents(current);
      } else {
        calls := DispatchByCallbacks(current);
      }
    }

    /** `workNextTick`: whether the tick asks for another one. */
    method Tick(wait: Wait) returns (calls: seq<Call>, again: bool)
      modifies this`customEvents, this`shutdown
      ensures customEvents == map[] && (again <==> !old(shutdown) && !wait.Failed?)
      ensures shutdown == (old(shutdown) || wait.Failed?)
      ensures wait.Failed? ==> calls == []
      ensures wait.Interrupted? ==> calls == Expected(old(customEvents), callbacks)
      ensures wait.Ready? ==> calls == Expected(Merge(old(customEvents), wait.events), callbacks)
    {
      calls := Work(wait);
      again := !shutdown;
    }

    method MergeLoop(custom: map<Fd, Mask>, es: seq<EpollEvent>) returns (current: map<Fd, Mask>)
      ensures current == Merge(custom, es)
    {
      current := custom;
      for i := 0 to |es|
        invariant current == Merge(custom, es[..i])
      {
        assert es[..i + 1][..i] == es[..i];
        var e := es[i];
        if e.fd in current {
          current := current[e.fd := current[e.fd] + e.mask];
        } else {
          current := current[e.fd := e.mask];
        }
      }
      assert es[..|es|] == es;
    }

    method DispatchByEvents(events: map<Fd, Mask>) returns (calls: seq<Call>)
      ensures calls == Expected(events, callbacks)
    {
      var keys := Ascending(events.Keys);
      AscendingCorrect(events.Keys);
      calls := WalkEvents(keys, events);
      BothWalksAgree(events, callbacks);
    }

    /** The loop over the merged events, in key order. */
    method WalkEvents(keys: seq<Fd>, events: map<Fd, Mask>) returns (calls: seq<Call>)
      requires forall fd :: fd in keys ==> fd in events
      ensures calls == CallsOn(keys, events, callbacks)
    {
      calls := [];
      for i := 0 to |keys|
        invariant calls == CallsOn(keys[..i], events, callbacks)
      {
        var fd := keys[i];
        assert fd in keys && keys[..i + 1][..i] == keys[..i];
        if fd in callbacks {
          calls := calls + [Call(fd, callbacks[fd], events[fd])];
        }
      }
      assert keys[..|keys|] == keys;
    }

    method DispatchByCallbacks(events: map<Fd, Mask>) returns (calls: seq<Call>)
      ensures calls == Expected(events, callbacks)
    {
      var keys := Ascending(callbacks.Keys);
      AscendingCorrect(callbacks.Keys);
      calls := WalkCallbacks(keys, events);
      BothWalksAgree(events, callbacks);
    }

    /** The loop over the callbacks, in key order. */
    method WalkCallbacks(keys: seq<Fd>, events: map<Fd, Mask>) returns (calls: seq<Call>)
      requires forall fd :: fd in keys ==> fd in callbacks
      ensures calls == CallsOn(keys, events, callbacks)
    {
      calls := [];
      for i := 0 to |keys|
        invariant calls == CallsOn(keys[..i], events, callbacks)
      {
        var fd := keys[i];
        assert fd in keys && keys[..i + 1][..i] == keys[..i];
        if fd in events {
          calls := calls + [Call(fd, callbacks[fd], events[fd])];
        }
      }
      assert keys[..|keys|] == keys;
    }
  }
}
