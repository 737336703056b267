/** What may happen to queued commands, as an automaton over the log of a queue. */
module CommandLog {
  import Automata
  import opened Wrappers
  import opened Lists

  datatype State = Prepare | Pending | Waiting | Done

  class Command {
    var state: State
    var cancel: bool
    ghost var destroyed: bool
    ghost var runs: nat
    ghost var succeeded: bool

    constructor ()
      ensures state == Prepare && !cancel && !destroyed && runs == 0
    {
      state, cancel, destroyed, runs, succeeded := Prepare, false, false, 0, false;
    }

    /** The command's own code: it may leave any state behind, or fail. */
    method Run() returns (ok: bool)
      requires !destroyed
      modifies this`state, this`runs, this`succeeded
      ensures runs == old(runs) + 1 && succeeded == ok
    {
      ok := *;
      state := *;
      runs, succeeded := runs + 1, ok;
    }

    ghost method Destroy()
      requires !destroyed
      modifies this`destroyed
      ensures destroyed
    {
      destroyed := true;
    }
  }

  datatype Result = Finishes | Waits | Fails

  datatype Event =
    | Added(c: Command)
    | Ran(c: Command, result: Result)
    | Finished(c: Command)
    | DroppedLast(c: Command)
    | Cleared(c: Command)
    | Cancelled

  /** The queue, the commands that left it, and what has to come next. */
  datatype Track = Track(queue: seq<Command>, gone: set<Command>, finishing: bool, clearing: bool, cancelled: bool)

  const EMPTY := Track([], {}, false, false, false)

  function Step(t: Track, e: Event): Option<Track> {
    match e
    case Added(c) =>
      if c in t.queue || c in t.gone || t.finishing || t.clearing || t.cancelled then None
      else Some(t.(queue := t.queue + [c]))
    case Ran(c, result) =>
      if t.queue == [] || t.queue[0] != c || t.finishing || t.clearing then None
      else Some(t.(finishing := result == Finishes, clearing := result == Fails))
    case Finished(c) =>
      if t.queue == [] || t.queue[0] != c || !t.finishing then None
      else Some(t.(queue := t.queue[1..], gone := t.gone + {c}, finishing := false, cancelled := t.cancelled && |t.queue| > 1))
    case DroppedLast(c) =>
      if t.queue == [] || t.queue[|t.queue| - 1] != c || t.finishing || t.clearing || t.cancelled then None
      else Some(t.(queue := t.queue[..|t.queue| - 1], gone := t.gone + {c}))
    case Cleared(c) =>
      if t.queue == [] || t.queue[0] != c || t.finishing then None
      else Some(t.(queue := t.queue[1..], gone := t.gone + {c}, clearing := |t.queue| > 1, cancelled := t.cancelled && |t.queue| > 1))
    case Cancelled =>
      if |t.queue| != 1 || t.finishing || t.clearing then None else Some(t.(cancelled := true))
  }

  function Follow(log: seq<Event>): Option<Track> {
    Automata.Follow(Step, EMPTY, log)
  }

  ghost function Before(log: seq<Event>, i: nat): Track
    requires i <= |log| && Follow(log).Some?
  {
    Automata.Before(Step, EMPTY, log, i)
  }

  lemma FollowOne(log: seq<Event>, e: Event)
    ensures Follow(log + [e]) == match Follow(log) { case None => None case Some(t) => Step(t, e) }
  {
    Automata.FollowOne(Step, EMPTY, log, e);
  }

  /** One event leads from one moment to the next, from the start to the end of the log. */
  lemma Next(log: seq<Event>, i: nat)
    requires i < |log| && Follow(log).Some?
    ensures Step(Before(log, i), log[i]) == Some(Before(log, i + 1))
    ensures Before(log, 0) == EMPTY && Before(log, |log|) == Follow(log).value
  {
    Automata.Next(Step, EMPTY, log, i);
    Automata.BeforeEnds(Step, EMPTY, log);
  }

  ghost predicate Orderly(t: Track) {
    && Distinct(t.queue)
    && (forall i :: 0 <= i < |t.queue| ==> t.queue[i] !in t.gone)
    && (t.finishing || t.clearing || t.cancelled ==> t.queue != [])
    && !(t.finishing && t.clearing)
    && (t.cancelled ==> |t.queue| == 1)
  }

  lemma StepOrderly(t: Track, e: Event)
    requires Orderly(t)
    ensures Step(t, e).Some? ==> Orderly(Step(t, e).value) && t.gone <= Step(t, e).value.gone
  {
  }

  lemma {:induction false} AlwaysOrderly(log: seq<Event>, i: nat)
    requires i <= |log| && Follow(log).Some?
    ensures Orderly(Before(log, i))
  {
    if i > 0 {
      AlwaysOrderly(log, i - 1);
      Next(log, i - 1);
      StepOrderly(Before(log, i - 1), log[i - 1]);
    } else {
      assert log[..0] == [];
    }
  }

  lemma {:induction false} GoneStays(log: seq<Event>, i: nat, j: nat)
    requires i <= j <= |log| && Follow(log).Some?
    ensures Before(log, i).gone <= Before(log, j).gone
    decreases j - i
  {
    if i < j {
      GoneStays(log, i, j - 1);
      Next(log, j - 1);
      AlwaysOrderly(log, j - 1);
      StepOrderly(Before(log, j - 1), log[j - 1]);
    }
  }

  predicate Leaves(e: Event, c: Command) {
    e == Finished(c) || e == DroppedLast(c) || e == Cleared(c)
  }

  lemma LeftIsGone(log: seq<Event>, i: nat, c: Command)
    requires i < |log| && Follow(log).Some? && Leaves(log[i], c)
    ensures c in Before(log, i + 1).gone
  {
    Next(log, i);
  }

  /** No command is destroyed twice, and none runs once it is destroyed. */
  lemma DestroyedOnce(log: seq<Event>, i: nat, j: nat, c: Command)
    requires Follow(log).Some? && i < j < |log| && Leaves(log[i], c)
    ensures !Leaves(log[j], c) && (log[j].Ran? ==> log[j].c != c)
  {
    LeftIsGone(log, i, c);
    GoneStays(log, i + 1, j);
    AlwaysOrderly(log, j);
    Next(log, j);
  }

  ghost predicate Ahead(t: Track, d: Command, c: Command) {
    exists i, j :: 0 <= i < j < |t.queue| && t.queue[i] == d && t.queue[j] == c
  }

  /** One event does to `d`, ahead of `c`: it finishes, or stays ahead, or `c` is lost too. */
  lemma AheadStep(t: Track, e: Event, d: Command, c: Command)
    requires Orderly(t) && Ahead(t, d, c) && Step(t, e).Some?
    ensures var t' := Step(t, e).value;
            || e == Finished(d)
            || Ahead(t', d, c)
            || c in t'.gone
            || (c in t'.queue && t'.clearing)
  {
    var t' := Step(t, e).value;
    var i, j :| 0 <= i < j < |t.queue| && t.queue[i] == d && t.queue[j] == c;
    match e {
      case Finished(x) =>
        if i > 0 {
          assert t'.queue[i - 1] == d && t'.queue[j - 1] == c;
        }
      case Cleared(x) =>
        assert t'.queue[j - 1] == c;
      case DroppedLast(x) =>
        if j < |t.queue| - 1 {
          assert t'.queue[i] == d && t'.queue[j] == c;
        }
      case Cancelled =>
      case _ =>
        assert t'.queue[i] == d && t'.queue[j] == c;
    }
  }

  ghost predicate Doomed(t: Track, c: Command) {
    c in t.gone || (c in t.queue && t.clearing)
  }

  lemma DoomedStep(t: Track, e: Event, c: Command)
    requires Orderly(t) && Doomed(t, c) && Step(t, e).Some?
    ensures Doomed(Step(t, e).value, c) && (e.Ran? ==> e.c != c)
  {
    if c in t.queue && t.clearing {
      var i :| 0 <= i < |t.queue| && t.queue[i] == c;
      if i > 0 {
        assert Step(t, e).value.queue[i - 1] == c;
      }
    }
  }

  lemma {:induction false} DoomedStays(log: seq<Event>, i: nat, j: nat, c: Command)
    requires Follow(log).Some? && i <= j <= |log| && Doomed(Before(log, i), c)
    ensures Doomed(Before(log, j), c)
    decreases j - i
  {
    hide Follow, Step;
    if i < j {
      DoomedStays(log, i, j - 1, c);
      AlwaysOrderly(log, j - 1);
      Next(log, j - 1);
      DoomedStep(Before(log, j - 1), log[j - 1], c);
    }
  }

  /** After a failure no command that was queued then ever runs again. */
  lemma FailureIsFinal(log: seq<Event>, i: nat, j: nat, c: Command)
    requires Follow(log).Some? && i < j < |log| && log[i].Ran? && log[i].result == Fails && c in Before(log, i).queue
    ensures log[j].Ran? ==> log[j].c != c
  {
    Next(log, i);
    DoomedStays(log, i + 1, j, c);
    AlwaysOrderly(log, j);
    Next(log, j);
    DoomedStep(Before(log, j), log[j], c);
  }

  /** A command runs only after every command queued before it has finished. */
  lemma {:induction false} RunsInOrder(log: seq<Event>, b: nat, i: nat, d: Command, c: Command)
    requires Follow(log).Some? && b <= i < |log| && Ahead(Before(log, b), d, c)
    requires log[i].Ran? && log[i].c == c
    ensures exists g :: b <= g < i && log[g] == Finished(d)
  {
    hide Follow, Before, Step, Ahead;
    var k := b;
    while k < i
      invariant b <= k <= i && Ahead(Before(log, k), d, c)
    {
      AlwaysOrderly(log, k);
      Next(log, k);
      AheadStep(Before(log, k), log[k], d, c);
      if log[k] == Finished(d) {
        return;
      }
      if !Ahead(Before(log, k + 1), d, c) {
        DoomedStays(log, k + 1, i, c);
        AlwaysOrderly(log, i);
        Next(log, i);
        DoomedStep(Before(log, i), log[i], c);
        return;
      }
      k := k + 1;
    }
    AlwaysOrderly(log, i);
    Next(log, i);
    BehindWaits(Before(log, i), log[i], d, c);
  }

  lemma BehindWaits(t: Track, e: Event, d: Command, c: Command)
    requires Orderly(t) && Ahead(t, d, c) && Step(t, e).Some? && e.Ran?
    ensures e.c != c
  {
  }
}
