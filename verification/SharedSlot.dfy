/** The lock-free shared-memory channel: one slot, one writer, one reader.

    The two ends share two signed 8-bit ids, a size and a 4096-byte buffer.  Every load, byte
    copy and store that one end makes on the shared block is one event, so a schedule may put
    any number of the other end's events between any two of them.
 */
module SharedSlot {
  import opened Runs

  type Byte = x: int | 0 <= x < 256
  type Message = seq<Byte>
  type Int8 = x: int | -128 <= x <= 127

  const CAPACITY: nat := 4096
  const INT8_MAX: Int8 := 127
  const CLOSED: Int8 := -1

  /** Where the writer stands: between operations, inside `writable`, after a true
      `writable`, inside `write_some`, or closed. */
  datatype Writer =
    | WIdle
    | WTesting(seen: Int8)
    | WReady
    | WCopying(msg: Message, crrt: Int8, copied: nat)
    | WSized(msg: Message, crrt: Int8)
    | WClosed

  /** Where the reader stands: between operations, inside `readable`, after a true
      `readable`, inside `read_some`, or closed. */
  datatype Reader =
    | RIdle
    | RTesting(seen: Int8)
    | RReady
    | RCopying(length: nat, buf: Message)
    | RPublishing(buf: Message, latest: Int8)
    | RClosed

  /** The shared block, both ends, and two histories: the messages whose write has been
      published, as given to `write_some`, and the messages `read_some` has returned. */
  datatype Channel = Channel(
    current: Int8, already: Int8, size: nat, data: seq<Byte>,
    w: Writer, r: Reader,
    written: seq<Message>, delivered: seq<Message>)

  datatype Event =
    | WLoadCurrent | WLoadAlready | WBegin(msg: Message) | WByte | WSize | WPublish | WClose
    | RLoadCurrent | RLoadAlready | RLoadSize | RByte | RLoadFinal | RPublish | RClose

  /** What one slot can hold of a message: its first 4096 bytes, or all of it. */
  function Cut(m: Message): (r: Message)
    ensures r <= m && |r| == if |m| < 4096 then |m| else 4096
  {
    if |m| <= CAPACITY then m else m[..CAPACITY]
  }

  function CutAll(ms: seq<Message>): (r: seq<Message>) {
    seq(|ms|, i requires 0 <= i < |ms| => Cut(ms[i]))
  }

  predicate WritableTest(current: Int8, already: Int8) {
    current == already
  }

  predicate ReadableTest(current: Int8, already: Int8) {
    current > already || (already == INT8_MAX && current == 1)
  }

  /** `fetch_add(1)` on a signed 8-bit integer. */
  function FetchAdd(x: Int8): Int8 {
    if x == 127 then -128 else x + 1
  }

  function Published(current: Int8, crrt: Int8): Int8 {
    if crrt == INT8_MAX then 1 else FetchAdd(current)
  }

  predicate Init(c: Channel) {
    && c.current == CLOSED && c.already == CLOSED && c.size == 0 && |c.data| == CAPACITY
    && c.w == WIdle && c.r == RIdle && c.written == [] && c.delivered == []
  }

  function WriterStep(c: Channel, e: Event): Option<Channel> {
    match (e, c.w)
    case (WLoadCurrent, WIdle) => Some(c.(w := WTesting(c.current)))
    case (WLoadAlready, WTesting(a)) =>
      Some(c.(w := if WritableTest(a, c.already) then WReady else WIdle))
    case (WBegin(m), WReady) => Some(c.(w := WCopying(m, c.current, 0)))
    case (WByte, WCopying(m, crrt, k)) =>
      if k < |Cut(m)| && k < |c.data|
      then Some(c.(data := c.data[k := m[k]], w := WCopying(m, crrt, k + 1)))
      else None
    case (WSize, WCopying(m, crrt, k)) =>
      if k == |Cut(m)| then Some(c.(size := k, w := WSized(m, crrt))) else None
    case (WPublish, WSized(m, crrt)) =>
      Some(c.(current := Published(c.current, crrt), w := WIdle, written := c.written + [m]))
    case (WClose, WIdle) => Some(c.(current := CLOSED, w := WClosed))
    case (WClose, WReady) => Some(c.(current := CLOSED, w := WClosed))
    case _ => None
  }

  function ReaderStep(c: Channel, e: Event): Option<Channel> {
    match (e, c.r)
    case (RLoadCurrent, RIdle) => Some(c.(r := RTesting(c.current)))
    case (RLoadAlready, RTesting(a)) =>
      Some(c.(r := if ReadableTest(a, c.already) then RReady else RIdle))
    case (RLoadSize, RReady) => Some(c.(r := RCopying(c.size, [])))
    case (RByte, RCopying(n, buf)) =>
      if |buf| < n && |buf| < |c.data|
      then Some(c.(r := RCopying(n, buf + [c.data[|buf|]])))
      else None
    case (RLoadFinal, RCopying(n, buf)) =>
      if |buf| == n then Some(c.(r := RPublishing(buf, c.current))) else None
    case (RPublish, RPublishing(buf, latest)) =>
      Some(c.(already := latest, r := RIdle, delivered := c.delivered + [buf]))
    case (RClose, RIdle) => Some(c.(already := CLOSED, r := RClosed))
    case (RClose, RReady) => Some(c.(already := CLOSED, r := RClosed))
    case _ => None
  }

  function Step(c: Channel, e: Event): Option<Channel> {
    if e.WLoadCurrent? || e.WLoadAlready? || e.WBegin? || e.WByte? || e.WSize? || e.WPublish? || e.WClose?
    then WriterStep(c, e)
    else ReaderStep(c, e)
  }

  /** The id that stands for `n` published messages: -1, 0, 1, ..., 127, 1, 2, ... */
  function Id(n: nat): (r: Int8) {
    if n <= 1 then n - 1 else 1 + (n - 2) % 127
  }

  /** From a true `writable()` to the publish of `current_uid`. */
  predicate WriterInSlot(c: Channel) {
    c.w.WReady? || c.w.WCopying? || c.w.WSized?
  }

  /** From a true `readable()` to the publish of `already_uid`. */
  predicate ReaderInSlot(c: Channel) {
    c.r.RReady? || c.r.RCopying? || c.r.RPublishing?
  }

  // ----- what every step keeps -----

  ghost predicate Shape(c: Channel) {
    && |c.data| == CAPACITY && c.size <= CAPACITY
    && |c.delivered| <= |c.written| <= |c.delivered| + 1
    && c.delivered == CutAll(c.written)[..|c.delivered|]
    && (|c.written| == |c.delivered| + 1 ==> c.data[..c.size] == Cut(c.written[|c.written| - 1]))
  }

  ghost predicate Ids(c: Channel) {
    var W, D := |c.written|, |c.delivered|;
    && c.current == (if c.w.WClosed? then CLOSED else Id(W))
    && (if c.r.RClosed? then c.already == CLOSED
        else c.already == Id(D) || (c.w.WClosed? && c.already == CLOSED && W == D))
  }

  ghost predicate WriterOk(c: Channel) {
    var W, D := |c.written|, |c.delivered|;
    match c.w
    case WTesting(a) => a == Id(W)
    case WReady => W == D
    case WCopying(m, crrt, k) =>
      W == D && crrt == Id(W) && k <= |Cut(m)| <= |c.data| && c.data[..k] == Cut(m)[..k]
    case WSized(m, crrt) =>
      W == D && crrt == Id(W) && c.size == |Cut(m)| <= |c.data| && c.data[..c.size] == Cut(m)
    case _ => true
  }

  ghost predicate ReaderOk(c: Channel) {
    var W, D := |c.written|, |c.delivered|;
    match c.r
    case RTesting(a) => a == CLOSED || (a == Id(D) && c.already == Id(D)) || (a == Id(W) && W == D + 1)
    case RReady => W == D + 1
    case RCopying(n, buf) =>
      W == D + 1 && n == c.size && |buf| <= n <= |c.data| && buf == c.data[..|buf|]
    case RPublishing(buf, latest) =>
      W == D + 1 && c.size <= |c.data| && buf == c.data[..c.size]
      && (latest == Id(W) || (latest == CLOSED && c.w.WClosed?))
    case _ => true
  }

  ghost predicate Inv(c: Channel) {
    Shape(c) && Ids(c) && WriterOk(c) && ReaderOk(c)
  }

  /** Consecutive counts have different ids, and the 8-bit comparison in `readable` sees the
      larger of two consecutive counts as larger, through the wrap from 127 to 1. */
  lemma ConsecutiveIds(n: nat)
    ensures Id(n + 1) != Id(n)
    ensures ReadableTest(Id(n + 1), Id(n)) && !ReadableTest(Id(n), Id(n)) && !ReadableTest(CLOSED, Id(n))
    ensures Published(Id(n), Id(n)) == Id(n + 1)
    ensures n > 0 ==> Id(n) >= 0
  {
    if n >= 2 {
      var q, m := (n - 2) / 127, (n - 2) % 127;
      assert n - 1 == 127 * q + (m + 1);
      if m < 126 {
        assert (n - 1) % 127 == m + 1;
      } else {
        assert n - 1 == 127 * (q + 1);
        assert (n - 1) % 127 == 0;
      }
    }
  }

  lemma WriterStepKeepsInv(c: Channel, e: Event)
    requires Inv(c) && WriterStep(c, e).Some?
    ensures Inv(WriterStep(c, e).value)
  {
    ConsecutiveIds(|c.written|);
    ConsecutiveIds(|c.delivered|);
    var t := WriterStep(c, e).value;
    match e {
      case WByte =>
        var k := c.w.copied;
        assert t.data[..k + 1] == c.data[..k] + [c.w.msg[k]];
        assert Cut(c.w.msg)[..k + 1] == Cut(c.w.msg)[..k] + [c.w.msg[k]];
      case WSize =>
        assert Cut(c.w.msg)[..|Cut(c.w.msg)|] == Cut(c.w.msg);
      case WPublish =>
        assert CutAll(t.written)[..|c.delivered|] == CutAll(c.written)[..|c.delivered|];
      case _ =>
    }
  }

  lemma ReaderStepKeepsInv(c: Channel, e: Event)
    requires Inv(c) && ReaderStep(c, e).Some?
    ensures Inv(ReaderStep(c, e).value)
  {
    ConsecutiveIds(|c.written|);
    ConsecutiveIds(|c.delivered|);
    var t := ReaderStep(c, e).value;
    match e {
      case RByte =>
        var k := |c.r.buf|;
        assert c.data[..k + 1] == c.data[..k] + [c.data[k]];
      case RPublish =>
        var W := |c.written|;
        assert CutAll(c.written)[..W] == CutAll(c.written)[..W - 1] + [Cut(c.written[W - 1])];
      case _ =>
    }
  }

  /** The invariant holds after every interleaving, whatever state the channel is created in. */
  lemma AlwaysInv(c: Channel, es: seq<Event>)
    requires Init(c)
    ensures Exec(Step, c, es).Some? ==> Inv(Exec(Step, c, es).value)
  {
    forall x: Channel, e: Event | Inv(x) && Step(x, e).Some?
      ensures Inv(Step(x, e).value)
    {
      if Step(x, e) == WriterStep(x, e) { WriterStepKeepsInv(x, e); } else { ReaderStepKeepsInv(x, e); }
    }
    InvariantOverRun(Step, Inv, c, es);
  }

  // ----- main results, for every schedule from a fresh channel -----

  /** The slot is never used by both ends, so no read is torn. */
  lemma SlotIsExclusive(c: Channel, es: seq<Event>, t: Channel)
    requires Init(c) && Exec(Step, c, es) == Some(t)
    ensures !(WriterInSlot(t) && ReaderInSlot(t))
    ensures forall e :: Step(t, e).Some? && ReaderInSlot(t) && WriterStep(t, e).Some?
              ==> Step(t, e).value.data == t.data && Step(t, e).value.size == t.size
  {
    AlwaysInv(c, es);
  }

  /** What has been delivered is what has been written, each message cut to the slot, except
      that the last message may still be unread. */
  lemma DeliveredIsWritten(c: Channel, es: seq<Event>, t: Channel)
    requires Init(c) && Exec(Step, c, es) == Some(t)
    ensures t.delivered == CutAll(t.written)
            || (t.written != [] && t.delivered == CutAll(t.written[..|t.written| - 1]))
  {
    AlwaysInv(c, es);
    var n := |t.delivered|;
    assert CutAll(t.written)[..n] == CutAll(t.written[..n]);
    assert t.written[..|t.written|] == t.written;
  }

  /** The 8-bit tests agree with unbounded counters through every wrap of the ids. */
  lemma TestsAreExact(c: Channel, es: seq<Event>, t: Channel)
    requires Init(c) && Exec(Step, c, es) == Some(t)
    ensures !t.w.WClosed? && !t.r.RClosed? ==>
              && (ReadableTest(t.current, t.already) <==> |t.written| == |t.delivered| + 1)
              && (WritableTest(t.current, t.already) <==> |t.written| == |t.delivered|)
    ensures t.w.WClosed? ==> !ReadableTest(t.current, t.already)
    ensures t.r.RClosed? && !t.w.WClosed? ==> (WritableTest(t.current, t.already) <==> t.written == [])
  {
    AlwaysInv(c, es);
    ConsecutiveIds(|t.delivered|);
    ConsecutiveIds(|t.written|);
  }

  /** The answer of `writable()`, whatever happens between its two loads: exactly when everything
      written has been read, or, after the reader has closed, when nothing was ever written. */
  lemma WritableAnswersExactly(c: Channel, es: seq<Event>, t: Channel)
    requires Init(c) && Exec(Step, c, es + [WLoadAlready]) == Some(t)
    ensures t.w.WReady? || t.w.WIdle?
    ensures t.w.WReady? <==> if t.r.RClosed? then t.written == [] else |t.written| == |t.delivered|
  {
    assert (es + [WLoadAlready])[..|es|] == es;
    var s := Exec(Step, c, es).value;
    assert Inv(s) by { AlwaysInv(c, es); }
    ConsecutiveIds(|s.delivered|);
    ConsecutiveIds(|s.written|);
  }

  lemma {:induction false} ReaderWaits(s: Channel, fs: seq<Event>, t: Channel)
    requires s.r.RTesting? && RLoadAlready !in fs && Exec(Step, s, fs) == Some(t)
    ensures t.r == s.r && t.already == s.already && t.delivered == s.delivered
    decreases |fs|
  {
    if fs != [] {
      ReaderWaits(s, fs[..|fs| - 1], Exec(Step, s, fs[..|fs| - 1]).value);
    }
  }

  /** The answer of `readable()`, whatever the writer does between its two loads: exactly when a
      message was unread at the first load and the writer had not closed by then. */
  lemma ReadableAnswersExactly(c: Channel, es: seq<Event>, s: Channel, fs: seq<Event>, t: Channel)
    requires Init(c) && Exec(Step, c, es) == Some(s)
    requires RLoadAlready !in fs && Exec(Step, s, [RLoadCurrent] + fs + [RLoadAlready]) == Some(t)
    ensures t.r.RReady? || t.r.RIdle?
    ensures t.r.RReady? <==> !s.w.WClosed? && |s.written| == |s.delivered| + 1
  {
    var mid := [RLoadCurrent] + fs;
    assert (mid + [RLoadAlready])[..|mid|] == mid;
    var v := Exec(Step, s, mid).value;
    LoadedCurrent(s, fs, v);
    TestsAreExact(c, es, s);
  }

  lemma LoadedCurrent(s: Channel, fs: seq<Event>, v: Channel)
    requires RLoadAlready !in fs && Exec(Step, s, [RLoadCurrent] + fs) == Some(v)
    ensures s.r.RIdle? && v.r == RTesting(s.current) && v.already == s.already
  {
    ExecHead(Step, s, RLoadCurrent, fs);
    ReaderWaits(Step(s, RLoadCurrent).value, fs, v);
  }

  /** In particular, with nothing between the loads and both ends open, `readable()` holds exactly
      when one message is unread. */
  lemma ReadableIffUnread(c: Channel, es: seq<Event>, t: Channel)
    requires Init(c) && Exec(Step, c, es + [RLoadCurrent, RLoadAlready]) == Some(t)
    requires !t.w.WClosed?
    ensures t.r.RReady? <==> |t.written| == |t.delivered| + 1
  {
    var all := es + [RLoadCurrent, RLoadAlready];
    assert all[..|es| + 1] == es + [RLoadCurrent] && all[..|es| + 1][..|es|] == es;
    var s := Exec(Step, c, es).value;
    ExecConcat(Step, c, es, [RLoadCurrent] + [] + [RLoadAlready]);
    assert es + ([RLoadCurrent] + [] + [RLoadAlready]) == all;
    ReadableAnswersExactly(c, es, s, [], t);
  }

  /** The closed tests: `current_uid` is -1 exactly when the writer has closed or nothing has been
      written yet; while the writer is open, `already_uid` is -1 exactly when the reader has closed
      or nothing has been read yet. */
  lemma ClosedTestsMeaning(c: Channel, es: seq<Event>, t: Channel)
    requires Init(c) && Exec(Step, c, es) == Some(t)
    ensures t.current == CLOSED <==> t.w.WClosed? || t.written == []
    ensures t.r.RClosed? ==> t.already == CLOSED
    ensures !t.w.WClosed? ==> (t.already == CLOSED <==> t.r.RClosed? || t.delivered == [])
  {
    AlwaysInv(c, es);
    ConsecutiveIds(|t.delivered|);
    ConsecutiveIds(|t.written|);
  }

  /** The messages given to `write_some`, in the order of the calls. */
  function Begun(es: seq<Event>): seq<Message> {
    if es == [] then []
    else
      var e := es[|es| - 1];
      Begun(es[..|es| - 1]) + if e.WBegin? then [e.msg] else []
  }

  /** How often `read_some` has finished. */
  function Finished(es: seq<Event>): nat {
    if es == [] then 0
    else Finished(es[..|es| - 1]) + if es[|es| - 1].RPublish? then 1 else 0
  }

  /** What has been written, with the message of a call still in progress. */
  function WithCurrent(c: Channel): seq<Message> {
    c.written + if c.w.WCopying? || c.w.WSized? then [c.w.msg] else []
  }

  lemma StepAddsTheCall(c: Channel, e: Event)
    requires Step(c, e).Some?
    ensures WithCurrent(Step(c, e).value) == WithCurrent(c) + if e.WBegin? then [e.msg] else []
    ensures |Step(c, e).value.delivered| == |c.delivered| + if e.RPublish? then 1 else 0
  {
    if Step(c, e) == WriterStep(c, e) && e.WPublish? {
      assert WithCurrent(Step(c, e).value) == c.written + [c.w.msg];
    }
  }

  /** The histories are those of the calls made: what is written is what `write_some` was given, but
      for a call still in progress, and one message is delivered per finished `read_some`. */
  lemma {:induction false} HistoriesAreTheCalls(c: Channel, es: seq<Event>, t: Channel)
    requires Init(c) && Exec(Step, c, es) == Some(t)
    ensures Begun(es) == t.written + if t.w.WCopying? || t.w.WSized? then [t.w.msg] else []
    ensures |t.delivered| == Finished(es)
    decreases |es|
  {
    if es != [] {
      var init := es[..|es| - 1];
      HistoriesAreTheCalls(c, init, Exec(Step, c, init).value);
      StepAddsTheCall(Exec(Step, c, init).value, es[|es| - 1]);
    }
  }

  ghost predicate WriterStaysClosed(s: Channel, t: Channel) {
    s.w.WClosed? ==> t.w.WClosed? && t.written == s.written
  }

  ghost predicate ReaderStaysClosed(s: Channel, t: Channel) {
    s.r.RClosed? ==> t.r.RClosed? && t.delivered == s.delivered
  }

  lemma WriterClosedIsFinal(s: Channel, fs: seq<Event>)
    ensures Exec(Step, s, fs).Some? ==> WriterStaysClosed(s, Exec(Step, s, fs).value)
  {
    RelationOverRun(Step, (x: Channel) => true, WriterStaysClosed, s, fs);
  }

  lemma ReaderClosedIsFinal(s: Channel, fs: seq<Event>)
    ensures Exec(Step, s, fs).Some? ==> ReaderStaysClosed(s, Exec(Step, s, fs).value)
  {
    RelationOverRun(Step, (x: Channel) => true, ReaderStaysClosed, s, fs);
  }

  /** Once the writer has closed, nothing is written and nothing becomes readable, in any
      continuation of the run. */
  lemma NothingReadableAfterWriterCloses(c: Channel, es: seq<Event>, s: Channel, fs: seq<Event>, t: Channel)
    requires Init(c) && Exec(Step, c, es) == Some(s) && Exec(Step, s, fs) == Some(t)
    requires s.w.WClosed?
    ensures t.w.WClosed? && t.written == s.written && !ReadableTest(t.current, t.already)
    ensures |t.delivered| <= |s.written|
  {
    WriterClosedIsFinal(s, fs);
    assert Exec(Step, c, es + fs) == Some(t) by { ExecConcat(Step, c, es, fs); }
    AlwaysInv(c, es + fs);
    TestsAreExact(c, es + fs, t);
  }

  /** Once the reader has closed, nothing is delivered and at most one more message is
      published, in any continuation of the run. */
  lemma NothingDeliveredAfterReaderCloses(c: Channel, es: seq<Event>, s: Channel, fs: seq<Event>, t: Channel)
    requires Init(c) && Exec(Step, c, es) == Some(s) && Exec(Step, s, fs) == Some(t)
    requires s.r.RClosed?
    ensures t.r.RClosed? && t.delivered == s.delivered
    ensures |t.written| <= |s.delivered| + 1
  {
    ReaderClosedIsFinal(s, fs);
    assert Exec(Step, c, es + fs) == Some(t) by { ExecConcat(Step, c, es, fs); }
    AlwaysInv(c, es + fs);
  }

  // ----- the two ends as they are coded -----

  /** The same event `n` times. */
  function Repeated(e: Event, n: nat): seq<Event> {
    seq(n, _ => e)
  }

  /** The mapped block.  The program counters and histories are ghost; each operation returns
      the events it performed, and those events of the transition system take the old block to
      the new one. */
  class SharedBlock {
    var currentUid: Int8
    var alreadyUid: Int8
    var size: nat
    const data: array<Byte>
    ghost var w: Writer
    ghost var r: Reader
    ghost var written: seq<Message>
    ghost var delivered: seq<Message>

    ghost function State(): Channel
      reads this, data
    {
      Channel(currentUid, alreadyUid, size, data[..], w, r, written, delivered)
    }

    constructor ()
      ensures Init(State()) && fresh(data)
    {
      data := new Byte[CAPACITY];
      currentUid, alreadyUid, size := CLOSED, CLOSED, 0;
      w, r, written, delivered := WIdle, RIdle, [], [];
    }

    method Writable() returns (ok: bool, ghost es: seq<Event>)
      requires w == WIdle
      modifies this
      ensures es == [WLoadCurrent, WLoadAlready]
      ensures Exec(Step, old(State()), es) == Some(State())
      ensures (ok <==> w == WReady) && (!ok <==> w == WIdle)
      ensures ok <==> old(currentUid) == old(alreadyUid)
    {
      ghost var s0 := State();
      var a := currentUid;
      w := WTesting(a);
      es := First(s0, WLoadCurrent);
      ok := CompareForWrite(a);
      es := Log(s0, es, WLoadAlready);
    }

    method CompareForWrite(a: Int8) returns (ok: bool)
      requires w == WTesting(a)
      modifies this`w
      ensures (ok <==> a == alreadyUid) && w == (if ok then WReady else WIdle)
      ensures WriterStep(old(State()), WLoadAlready) == Some(State())
    {
      var b := alreadyUid;
      ok := a == b;
      w := if ok then WReady else WIdle;
    }

    method WriteSome(msg: Message) returns (n: nat, ghost es: seq<Event>)
      requires w == WReady && data.Length == CAPACITY
      modifies this, data
      ensures Exec(Step, old(State()), es) == Some(State())
      ensures n == |Cut(msg)| && es == [WBegin(msg)] + Repeated(WByte, n) + [WSize, WPublish]
      ensures w == WIdle && written == old(written) + [msg]
    {
      ghost var s0 := State();
      n := if CAPACITY <= |msg| then CAPACITY else |msg|;
      var crrt := LoadForWrite(msg);
      es := First(s0, WBegin(msg));
      es := CopyIn(msg, crrt, n, s0, es);
      es := Publish(msg, crrt, n, s0, es);
      assert es == [WBegin(msg)] + Repeated(WByte, n) + [WSize, WPublish];
    }

    method LoadForWrite(msg: Message) returns (crrt: Int8)
      requires w == WReady
      modifies this`w
      ensures w == WCopying(msg, crrt, 0) && WriterStep(old(State()), WBegin(msg)) == Some(State())
    {
      crrt := currentUid;
      w := WCopying(msg, crrt, 0);
    }

    /** The last stores of `write_some`. */
    method Publish(msg: Message, crrt: Int8, n: nat, ghost s0: Channel, ghost es0: seq<Event>)
      returns (ghost es: seq<Event>)
      requires n == |Cut(msg)| && w == WCopying(msg, crrt, n)
      requires Exec(Step, s0, es0) == Some(State())
      modifies this
      ensures w == WIdle && written == old(written) + [msg]
      ensures es == es0 + [WSize, WPublish] && Exec(Step, s0, es) == Some(State())
    {
      size := n;
      w := WSized(msg, crrt);
      es := Log(s0, es0, WSize);
      PublishUid(msg, crrt);
      es := Log(s0, es, WPublish);
    }

    method PublishUid(msg: Message, crrt: Int8)
      requires w == WSized(msg, crrt)
      modifies this`currentUid, this`w, this`written
      ensures w == WIdle && written == old(written) + [msg]
      ensures WriterStep(old(State()), WPublish) == Some(State())
    {
      if crrt == INT8_MAX {
        currentUid := 1;
      } else {
        currentUid := FetchAdd(currentUid);
      }
      w := WIdle;
      written := written + [msg];
    }

    /** The `memcpy` of `write_some`, a byte at a time. */
    method CopyIn(msg: Message, crrt: Int8, n: nat, ghost s0: Channel, ghost es0: seq<Event>)
      returns (ghost es: seq<Event>)
      requires n == |Cut(msg)| && data.Length == CAPACITY && w == WCopying(msg, crrt, 0)
      requires Exec(Step, s0, es0) == Some(State())
      modifies this`w, data
      ensures w == WCopying(msg, crrt, n) && data[..n] == Cut(msg)
      ensures es == es0 + Repeated(WByte, n) && Exec(Step, s0, es) == Some(State())
    {
      es := es0;
      for k := 0 to n
        invariant w == WCopying(msg, crrt, k) && data[..k] == msg[..k]
        invariant es == es0 + Repeated(WByte, k) && Exec(Step, s0, es) == Some(State())
      {
        StoreByte(msg, crrt, k);
        assert es0 + Repeated(WByte, k + 1) == es + [WByte];
        es := Log(s0, es, WByte);
      }
    }

    method StoreByte(msg: Message, crrt: Int8, k: nat)
      requires k < |Cut(msg)| && data.Length == CAPACITY && w == WCopying(msg, crrt, k)
      requires data[..k] == msg[..k]
      modifies this`w, data
      ensures w == WCopying(msg, crrt, k + 1) && data[..k + 1] == msg[..k + 1]
      ensures WriterStep(old(State()), WByte) == Some(State())
    {
      ghost var before := data[..];
      data[k] := msg[k];
      w := WCopying(msg, crrt, k + 1);
      assert data[..] == before[k := msg[k]];
    }

    method Readable() returns (ok: bool, ghost es: seq<Event>)
      requires r == RIdle
      modifies this
      ensures es == [RLoadCurrent, RLoadAlready]
      ensures Exec(Step, old(State()), es) == Some(State())
      ensures (ok <==> r == RReady) && (!ok <==> r == RIdle)
      ensures ok <==> old(currentUid) > old(alreadyUid) || (old(alreadyUid) == 127 && old(currentUid) == 1)
    {
      ghost var s0 := State();
      var a := currentUid;
      r := RTesting(a);
      es := First(s0, RLoadCurrent);
      ok := CompareForRead(a);
      es := Log(s0, es, RLoadAlready);
    }

    method CompareForRead(a: Int8) returns (ok: bool)
      requires r == RTesting(a)
      modifies this`r
      ensures (ok <==> a > alreadyUid || (alreadyUid == 127 && a == 1)) && r == (if ok then RReady else RIdle)
      ensures ReaderStep(old(State()), RLoadAlready) == Some(State())
    {
      var b := alreadyUid;
      ok := a > b || (b == INT8_MAX && a == 1);
      r := if ok then RReady else RIdle;
    }

    method ReadSome() returns (buf: Message, ghost es: seq<Event>)
      requires r == RReady && size <= data.Length
      modifies this
      ensures Exec(Step, old(State()), es) == Some(State())
      ensures es == [RLoadSize] + Repeated(RByte, old(size)) + [RLoadFinal, RPublish]
      ensures r == RIdle && delivered == old(delivered) + [buf]
    {
      ghost var s0 := State();
      var n := LoadSize();
      es := First(s0, RLoadSize);
      buf, es := CopyOut(n, s0, es);
      es := Acknowledge(buf, s0, es);
      assert es == [RLoadSize] + Repeated(RByte, n) + [RLoadFinal, RPublish];
    }

    method LoadSize() returns (n: nat)
      requires r == RReady
      modifies this`r
      ensures n == size && r == RCopying(n, []) && ReaderStep(old(State()), RLoadSize) == Some(State())
    {
      n := size;
      r := RCopying(n, []);
    }

    /** The last load and store of `read_some`. */
    method Acknowledge(buf: Message, ghost s0: Channel, ghost es0: seq<Event>)
      returns (ghost es: seq<Event>)
      requires r == RCopying(|buf|, buf)
      requires Exec(Step, s0, es0) == Some(State())
      modifies this
      ensures r == RIdle && delivered == old(delivered) + [buf]
      ensures es == es0 + [RLoadFinal, RPublish] && Exec(Step, s0, es) == Some(State())
    {
      var latest := currentUid;
      r := RPublishing(buf, latest);
      es := Log(s0, es0, RLoadFinal);
      PublishAlready(buf, latest);
      es := Log(s0, es, RPublish);
    }

    method PublishAlready(buf: Message, latest: Int8)
      requires r == RPublishing(buf, latest)
      modifies this`alreadyUid, this`r, this`delivered
      ensures r == RIdle && delivered == old(delivered) + [buf]
      ensures ReaderStep(old(State()), RPublish) == Some(State())
    {
      alreadyUid := latest;
      r := RIdle;
      delivered := delivered + [buf];
    }

    /** The string construction of `read_some`, a byte at a time. */
    method CopyOut(n: nat, ghost s0: Channel, ghost es0: seq<Event>)
      returns (buf: Message, ghost es: seq<Event>)
      requires n <= data.Length && r == RCopying(n, [])
      requires Exec(Step, s0, es0) == Some(State())
      modifies this`r
      ensures buf == data[..n] && r == RCopying(n, buf)
      ensures es == es0 + Repeated(RByte, n) && Exec(Step, s0, es) == Some(State())
    {
      buf, es := [], es0;
      for k := 0 to n
        invariant buf == data[..k] && r == RCopying(n, buf)
        invariant es == es0 + Repeated(RByte, k) && Exec(Step, s0, es) == Some(State())
      {
        buf := buf + [data[k]];
        r := RCopying(n, buf);
        assert es0 + Repeated(RByte, k + 1) == es + [RByte];
        es := Log(s0, es, RByte);
      }
    }

    /** Records that `e` led from `s0` to the present state. */
    ghost method First(s0: Channel, e: Event) returns (fs: seq<Event>)
      requires Step(s0, e) == Some(State())
      ensures fs == [e] && Exec(Step, s0, fs) == Some(State())
    {
      fs := Log(s0, [], e);
      assert fs == [e];
    }

    /** Records that `e` led from the state after `es` to the present state. */
    ghost method Log(s0: Channel, es: seq<Event>, e: Event) returns (fs: seq<Event>)
      requires Exec(Step, s0, es).Some? && Step(Exec(Step, s0, es).value, e) == Some(State())
      ensures fs == es + [e] && Exec(Step, s0, fs) == Some(State())
    {
      ExecSnoc(Step, s0, es, e);
      fs := es + [e];
    }

    method ReadendClosed() returns (closed: bool)
      ensures closed <==> State().already == CLOSED
    {
      closed := alreadyUid == -1;
    }

    method WritendClosed() returns (closed: bool)
      ensures closed <==> State().current == CLOSED
    {
      closed := currentUid == -1;
    }

    method CloseWriter()
      requires w == WIdle || w == WReady
      modifies this
      ensures Step(old(State()), WClose) == Some(State())
    {
      currentUid := CLOSED;
      w := WClosed;
    }

    method CloseReader()
      requires r == RIdle || r == RReady
      modifies this
      ensures Step(old(State()), RClose) == Some(State())
    {
      alreadyUid := CLOSED;
      r := RClosed;
    }
  }
}
