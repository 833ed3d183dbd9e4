/** Runs of a labelled transition system.

    A concurrent component is modelled by a function `step` that gives the state after one
    atomic event, or `None` when the event cannot happen in that state.  A schedule is any
    finite sequence of events, so a statement about every schedule is a statement about
    every interleaving of the threads that produce the events.
 */
module Runs {

  datatype Option<+T> = None | Some(value: T)

  /** The state after a whole schedule, or `None` if some event of it was not possible. */
  function Exec<S, E>(step: (S, E) -> Option<S>, s: S, es: seq<E>): Option<S>
    decreases |es|
  {
    if es == [] then Some(s)
    else
      var before := Exec(step, s, es[..|es| - 1]);
      if before.None? then None else step(before.value, es[|es| - 1])
  }

  /** A predicate that every step keeps holds after every schedule. */
  lemma {:induction false} InvariantOverRun<S(!new), E(!new)>(
      step: (S, E) -> Option<S>, inv: S -> bool, s: S, es: seq<E>)
    requires inv(s)
    requires forall x: S, e: E :: inv(x) && step(x, e).Some? ==> inv(step(x, e).value)
    ensures Exec(step, s, es).Some? ==> inv(Exec(step, s, es).value)
    decreases |es|
  {
    if es != [] {
      InvariantOverRun(step, inv, s, es[..|es| - 1]);
    }
  }

  /** A reflexive, transitive relation that every step from an invariant state respects
      relates the first state of every schedule to the last. */
  lemma {:induction false} RelationOverRun<S(!new), E(!new)>(
      step: (S, E) -> Option<S>, inv: S -> bool, rel: (S, S) -> bool, s: S, es: seq<E>)
    requires inv(s)
    requires forall x: S, e: E :: inv(x) && step(x, e).Some? ==> inv(step(x, e).value)
    requires forall x: S :: rel(x, x)
    requires forall x: S, y: S, e: E :: rel(x, y) && inv(y) && step(y, e).Some? ==> rel(x, step(y, e).value)
    ensures Exec(step, s, es).Some? ==> rel(s, Exec(step, s, es).value)
    decreases |es|
  {
    if es != [] {
      RelationOverRun(step, inv, rel, s, es[..|es| - 1]);
      InvariantOverRun(step, inv, s, es[..|es| - 1]);
    }
  }

  /** Running one schedule and then another is running their concatenation. */
  lemma {:induction false} ExecConcat<S, E>(step: (S, E) -> Option<S>, s: S, es: seq<E>, fs: seq<E>)
    requires Exec(step, s, es).Some?
    ensures Exec(step, s, es + fs) == Exec(step, Exec(step, s, es).value, fs)
    decreases |fs|
  {
    if fs == [] {
      assert es + fs == es;
    } else {
      var n := |fs| - 1;
      assert (es + fs)[..|es| + n] == es + fs[..n];
      ExecConcat(step, s, es, fs[..n]);
    }
  }

  /** One more event at the end of a schedule. */
  lemma ExecSnoc<S, E>(step: (S, E) -> Option<S>, s: S, es: seq<E>, e: E)
    requires Exec(step, s, es).Some?
    ensures Exec(step, s, es + [e]) == step(Exec(step, s, es).value, e)
  {
    assert (es + [e])[..|es|] == es;
  }

  /** A schedule of two events. */
  lemma ExecTwo<S, E>(step: (S, E) -> Option<S>, s: S, e: E, t: S, f: E, u: S)
    requires step(s, e) == Some(t) && step(t, f) == Some(u)
    ensures Exec(step, s, [e, f]) == Some(u)
  {
    assert [e, f] == [] + [e] + [f];
    ExecSnoc(step, s, [], e);
    ExecSnoc(step, s, [] + [e], f);
  }

  /** The first event of a schedule. */
  lemma {:induction false} ExecHead<S, E>(step: (S, E) -> Option<S>, s: S, e: E, fs: seq<E>)
    requires Exec(step, s, [e] + fs).Some?
    ensures step(s, e).Some? && Exec(step, s, [e] + fs) == Exec(step, step(s, e).value, fs)
    decreases |fs|
  {
    if fs == [] {
      assert [e] + fs == [] + [e];
      ExecSnoc(step, s, [], e);
    } else {
      var n := |fs| - 1;
      assert ([e] + fs)[..1 + n] == [e] + fs[..n];
      ExecHead(step, s, e, fs[..n]);
    }
  }
}
