/** Logs that a deterministic automaton accepts. */
module Automata {
  import opened Wrappers

  /** Where the automaton is after the log, if it accepts it. */
  function Follow<S, E>(step: (S, E) -> Option<S>, start: S, log: seq<E>): Option<S> {
    if log == [] then Some(start)
    else
      match Follow(step, start, log[..|log| - 1])
      case None => None
      case Some(s) => step(s, log[|log| - 1])
  }

  lemma FollowOne<S, E>(step: (S, E) -> Option<S>, start: S, log: seq<E>, e: E)
    ensures Follow(step, start, log + [e]) == match Follow(step, start, log) { case None => None case Some(s) => step(s, e) }
  {
    assert (log + [e])[..|log|] == log;
  }

  lemma {:induction false} FollowPrefix<S, E>(step: (S, E) -> Option<S>, start: S, log: seq<E>, i: nat)
    requires i <= |log| && Follow(step, start, log).Some?
    ensures Follow(step, start, log[..i]).Some?
  {
    if i < |log| {
      var n := |log| - 1;
      FollowPrefix(step, start, log[..n], i);
      assert log[..n][..i] == log[..i];
    } else {
      assert log[..i] == log;
    }
  }

  /** Where it was just before event `i`. */
  ghost function Before<S, E>(step: (S, E) -> Option<S>, start: S, log: seq<E>, i: nat): S
    requires i <= |log| && Follow(step, start, log).Some?
  {
    FollowPrefix(step, start, log, i);
    Follow(step, start, log[..i]).value
  }

  lemma Next<S, E>(step: (S, E) -> Option<S>, start: S, log: seq<E>, i: nat)
    requires i < |log| && Follow(step, start, log).Some?
    ensures step(Before(step, start, log, i), log[i]) == Some(Before(step, start, log, i + 1))
  {
    FollowPrefix(step, start, log, i);
    FollowPrefix(step, start, log, i + 1);
    assert log[..i + 1] == log[..i] + [log[i]];
    FollowOne(step, start, log[..i], log[i]);
  }

  lemma BeforeEnds<S, E>(step: (S, E) -> Option<S>, start: S, log: seq<E>)
    requires Follow(step, start, log).Some?
    ensures Before(step, start, log, 0) == start && Before(step, start, log, |log|) == Follow(step, start, log).value
  {
    assert log[..0] == [] && log[..|log|] == log;
  }
}
