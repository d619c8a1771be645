/** Runs of a deterministic machine: every event moves the state and may append to a log. */
module Runs {
  function Run<S, E, L>(step: (S, E) -> (S, seq<L>), s: S, events: seq<E>): (S, seq<L>)
    decreases events
  {
    if events == [] then (s, [])
    else
      var (s', first) := step(s, events[0]);
      var (s'', rest) := Run(step, s', events[1..]);
      (s'', first + rest)
  }

  /** An invariant of state and log that every step keeps holds after every run. */
  lemma {:induction false} RunKeeps<S(!new), E(!new), L(!new)>(
      step: (S, E) -> (S, seq<L>), inv: (S, seq<L>) -> bool, s: S, log: seq<L>, events: seq<E>)
    requires inv(s, log)
    requires forall s, log, e :: inv(s, log) ==> inv(step(s, e).0, log + step(s, e).1)
    ensures inv(Run(step, s, events).0, log + Run(step, s, events).1)
    decreases events
  {
    if events == [] {
      assert log + [] == log;
    } else {
      var (s', first) := step(s, events[0]);
      RunKeeps(step, inv, s', log + first, events[1..]);
      assert log + first + Run(step, s', events[1..]).1 == log + (first + Run(step, s', events[1..]).1);
    }
  }

  /** The state after a run of events. */
  function Fold<S, E>(step: (S, E) -> S, s: S, events: seq<E>): S
    decreases events
  {
    if events == [] then s else Fold(step, step(s, events[0]), events[1..])
  }

  /** Every event of the run was permitted in the state it found. */
  ghost predicate Permits<S, E>(step: (S, E) -> S, guard: (S, E) -> bool, s: S, events: seq<E>)
    decreases events
  {
    events != [] ==> guard(s, events[0]) && Permits(step, guard, step(s, events[0]), events[1..])
  }

  /** An invariant that every permitted step keeps holds after every permitted run. */
  lemma {:induction false} FoldKeeps<S(!new), E(!new)>(step: (S, E) -> S, guard: (S, E) -> bool, inv: S -> bool, s: S,
                                       events: seq<E>)
    requires inv(s) && Permits(step, guard, s, events)
    requires forall s, e :: inv(s) && guard(s, e) ==> inv(step(s, e))
    ensures inv(Fold(step, s, events))
    decreases events
  {
    if events != [] { FoldKeeps(step, guard, inv, step(s, events[0]), events[1..]); }
  }

  lemma {:induction false} AlwaysPermits<S, E>(step: (S, E) -> S, s: S, events: seq<E>)
    ensures Permits(step, (s, e) => true, s, events)
    decreases events
  {
    if events != [] { AlwaysPermits(step, step(s, events[0]), events[1..]); }
  }

  /** An invariant that every step keeps holds after every run. */
  lemma FoldAlways<S(!new), E(!new)>(step: (S, E) -> S, inv: S -> bool, s: S, events: seq<E>)
    requires inv(s)
    requires forall s, e :: inv(s) ==> inv(step(s, e))
    ensures inv(Fold(step, s, events))
  {
    AlwaysPermits(step, s, events);
    FoldKeeps(step, (s, e) => true, inv, s, events);
  }

  /** A permitted run followed by another is a permitted run. */
  lemma {:induction false} FoldJoins<S, E>(step: (S, E) -> S, guard: (S, E) -> bool, s: S, first: seq<E>, rest: seq<E>)
    requires Permits(step, guard, s, first) && Permits(step, guard, Fold(step, s, first), rest)
    ensures Fold(step, s, first + rest) == Fold(step, Fold(step, s, first), rest)
    ensures Permits(step, guard, s, first + rest)
    decreases first
  {
    if first == [] {
      assert first + rest == rest;
    } else {
      assert (first + rest)[0] == first[0] && (first + rest)[1..] == first[1..] + rest;
      FoldJoins(step, guard, step(s, first[0]), first[1..], rest);
    }
  }
}
