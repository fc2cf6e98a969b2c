/** Histories of a transition system: sequences of states in which each follows from the one before. */
module Histories {

  ghost predicate History<S>(states: seq<S>, next: (S, S) -> bool) {
    forall i :: 0 < i < |states| ==> LinkedAt(states, next, i)
  }

  ghost predicate LinkedAt<S>(states: seq<S>, next: (S, S) -> bool, i: nat)
    requires 0 < i < |states|
  {
    next(states[i - 1], states[i])
  }

  /** From a state in which `given` holds, every step keeps `inv`. */
  ghost predicate Keeps<S(!new)>(next: (S, S) -> bool, given: S -> bool, inv: S -> bool) {
    forall s, t :: given(s) && inv(s) && next(s, t) ==> inv(t)
  }

  /** What every step keeps, given something known of every state on the way, still holds later. */
  lemma {:induction false} HistoryKeeps<S(!new)>(
    states: seq<S>, next: (S, S) -> bool, given: S -> bool, inv: S -> bool, i: nat, k: nat)
    requires History(states, next) && Keeps(next, given, inv)
    requires i <= k < |states| && inv(states[i])
    requires forall m :: i <= m < k ==> given(states[m])
    ensures inv(states[k])
  {
    if i < k {
      HistoryKeeps(states, next, given, inv, i, k - 1);
      assert LinkedAt(states, next, k);
    }
  }

  lemma HistoryNext<S>(states: seq<S>, next: (S, S) -> bool, s: S)
    requires History(states, next) && states != [] && next(states[|states| - 1], s)
    ensures History(states + [s], next)
  {
    forall i | 0 < i < |states + [s]|
      ensures LinkedAt(states + [s], next, i)
    {
      assert i < |states| ==> LinkedAt(states, next, i);
    }
  }

  // ---------------------------------------------------------------------------
  // Getting from one state to another
  // ---------------------------------------------------------------------------

  ghost predicate Reaches<S(!new)>(next: (S, S) -> bool, s: S, t: S) {
    exists trail: seq<S> :: Leads(trail, next, s, t)
  }

  ghost predicate Leads<S>(trail: seq<S>, next: (S, S) -> bool, s: S, t: S) {
    trail != [] && trail[0] == s && trail[|trail| - 1] == t && History(trail, next)
  }

  lemma ReachesSelf<S(!new)>(next: (S, S) -> bool, s: S)
    ensures Reaches(next, s, s)
  {
    assert Leads([s], next, s, s);
  }

  lemma ReachesStep<S(!new)>(next: (S, S) -> bool, r: S, s: S, t: S)
    requires Reaches(next, r, s) && next(s, t)
    ensures Reaches(next, r, t)
  {
    var trail :| Leads(trail, next, r, s);
    HistoryNext(trail, next, t);
    assert Leads(trail + [t], next, r, t);
  }

  lemma ReachesBoth<S(!new)>(next: (S, S) -> bool, r: S, s: S, t: S)
    requires Reaches(next, r, s) && Reaches(next, s, t)
    ensures Reaches(next, r, t)
  {
    var first :| Leads(first, next, r, s);
    var second :| Leads(second, next, s, t);
    var both := first + second[1..];
    forall i | 0 < i < |both|
      ensures LinkedAt(both, next, i)
    {
      if i < |first| {
        assert LinkedAt(first, next, i);
      } else {
        assert LinkedAt(second, next, i - |first| + 1);
        assert both[i - 1] == second[i - |first|];
      }
    }
    assert Leads(both, next, r, t);
  }

  lemma ReachesKeeps<S(!new)>(next: (S, S) -> bool, inv: S -> bool, s: S, t: S)
    requires Reaches(next, s, t) && inv(s) && Keeps(next, s => true, inv)
    ensures inv(t)
  {
    var trail :| Leads(trail, next, s, t);
    assert Keeps(next, s => true, inv);
    HistoryKeeps(trail, next, s => true, inv, 0, |trail| - 1);
  }

  /** More ways to step, more states to reach. */
  lemma ReachesMore<S(!new)>(next: (S, S) -> bool, more: (S, S) -> bool, s: S, t: S)
    requires Reaches(next, s, t) && forall u, v :: next(u, v) ==> more(u, v)
    ensures Reaches(more, s, t)
  {
    var trail :| Leads(trail, next, s, t);
    forall i | 0 < i < |trail|
      ensures LinkedAt(trail, more, i)
    {
      assert LinkedAt(trail, next, i);
    }
    assert Leads(trail, more, s, t);
  }
}
