/** Runs of a transition system, and the two inductions over them. */
module Runs {

  /** Every state follows from the one before by its event. */
  ghost predicate IsRun<S(!new), E(!new)>(states: seq<S>, events: seq<E>, next: (S, E, S) -> bool) {
    |states| == |events| + 1 && forall i :: 0 <= i < |events| ==> next(states[i], events[i], states[i + 1])
  }

  /** Every step from a good state leads to a good state that is ahead of it. */
  ghost predicate Keeps<S(!new), E(!new)>(next: (S, E, S) -> bool, inv: S -> bool, ahead: (S, S) -> bool) {
    forall s, e, t :: inv(s) && next(s, e, t) ==> inv(t) && ahead(s, t)
  }

  ghost predicate Preorder<S(!new)>(ahead: (S, S) -> bool) {
    && (forall s :: ahead(s, s))
    && (forall s, t, u :: ahead(s, t) && ahead(t, u) ==> ahead(s, u))
  }

  lemma {:induction false} RunKeeps<S(!new), E(!new)>(states: seq<S>, events: seq<E>, next: (S, E, S) -> bool,
                                                      inv: S -> bool, ahead: (S, S) -> bool, n: nat)
    requires IsRun(states, events, next) && Keeps(next, inv, ahead)
    requires inv(states[0]) && n < |states|
    ensures inv(states[n])
  {
    if n == 0 {
    } else {
      RunKeeps(states, events, next, inv, ahead, n - 1);
      assert next(states[n - 1], events[n - 1], states[n]);
    }
  }

  lemma {:induction false} RunAdvances<S(!new), E(!new)>(states: seq<S>, events: seq<E>, next: (S, E, S) -> bool,
                                                         inv: S -> bool, ahead: (S, S) -> bool, m: nat, n: nat)
    requires IsRun(states, events, next) && Keeps(next, inv, ahead) && Preorder(ahead)
    requires inv(states[0]) && m <= n < |states|
    ensures ahead(states[m], states[n])
    decreases n - m
  {
    if m == n {
    } else {
      RunAdvances(states, events, next, inv, ahead, m, n - 1);
      RunKeeps(states, events, next, inv, ahead, n - 1);
      assert next(states[n - 1], events[n - 1], states[n]);
    }
  }

  lemma StepOf<S(!new), E(!new)>(states: seq<S>, events: seq<E>, next: (S, E, S) -> bool, n: nat)
    requires IsRun(states, events, next) && n < |events|
    ensures next(states[n], events[n], states[n + 1])
  {
  }

  /** What is left of a run is a run. */
  lemma Suffix<S(!new), E(!new)>(states: seq<S>, events: seq<E>, next: (S, E, S) -> bool, m: nat)
    requires IsRun(states, events, next) && m < |states|
    ensures IsRun(states[m..], events[m..], next)
  {
    forall i | 0 <= i < |events[m..]| ensures next(states[m..][i], events[m..][i], states[m..][i + 1]) {
      assert next(states[m + i], events[m + i], states[m + i + 1]);
    }
  }

  lemma Extended<S(!new), E(!new)>(states: seq<S>, events: seq<E>, next: (S, E, S) -> bool, event: E, t: S)
    requires IsRun(states, events, next) && next(states[|states| - 1], event, t)
    ensures IsRun(states + [t], events + [event], next)
  {
    var more, done := states + [t], events + [event];
    forall i | 0 <= i < |done| ensures next(more[i], done[i], more[i + 1]) {
      if i < |events| {
        assert next(states[i], events[i], states[i + 1]);
      }
    }
  }

  /** One of the events from m up to n is of a kind. */
  ghost predicate Occurs<E>(events: seq<E>, kind: E -> bool, m: nat, n: nat)
    requires n <= |events|
  {
    exists k :: m <= k < n && kind(events[k])
  }

  /** What holds one way until an event of a kind and another way from then on. */
  lemma {:induction false} RunUntil<S(!new), E(!new)>(states: seq<S>, events: seq<E>, next: (S, E, S) -> bool,
                                                      inv: S -> bool, kind: E -> bool, after: (S, bool) -> bool,
                                                      m: nat, n: nat)
    requires IsRun(states, events, next) && m <= n < |states| && after(states[m], false)
    requires forall i :: 0 <= i < |states| ==> inv(states[i])
    requires forall s, e, t, past :: inv(s) && after(s, past) && next(s, e, t) ==> after(t, past || kind(e))
    ensures after(states[n], Occurs(events, kind, m, n))
    decreases n - m
  {
    if m == n {
    } else {
      RunUntil(states, events, next, inv, kind, after, m, n - 1);
      assert next(states[n - 1], events[n - 1], states[n]);
      assert Occurs(events, kind, m, n) <==> Occurs(events, kind, m, n - 1) || kind(events[n - 1]);
    }
  }
}
