/** What a save does to the apps it asks and to its callback, as an automaton over the supervisor's log. */
module SaveBarrier {
  import Automata
  import opened Wrappers
  import opened Lists

  datatype Event =
    | Began(callback: nat, apps: seq<nat>)
    | Asked(id: nat)
    | Answered(id: nat)
    | Ended(callback: nat, success: bool)

  /** No save, or one that asked the first `asked` of its apps; `waiting` have not answered. */
  datatype Track = Idle | Saving(callback: nat, apps: seq<nat>, asked: nat, waiting: seq<nat>)

  function Step(t: Track, e: Event): Option<Track> {
    match e
    case Began(callback, apps) =>
      if t.Idle? then Some(Saving(callback, apps, 0, [])) else None
    case Asked(id) =>
      if t.Idle? || t.asked >= |t.apps| || t.apps[t.asked] != id then None
      else Some(t.(asked := t.asked + 1, waiting := t.waiting + [id]))
    case Answered(id) =>
      if t.Idle? || id !in t.waiting then None
      else Some(t.(waiting := Erase(t.waiting, id)))
    case Ended(callback, success) =>
      if t.Idle? || t.callback != callback || t.waiting != [] then None
      else if t.asked == |t.apps| || (t.asked == 0 && !success) then Some(Idle)
      else None
  }

  /** Whom to wait for, if the `refused` complete at once. */
  function Accepted(ids: seq<nat>, refused: set<nat>): seq<nat> {
    if ids == [] then []
    else Accepted(ids[..|ids| - 1], refused) + if ids[|ids| - 1] in refused then [] else [ids[|ids| - 1]]
  }

  lemma {:induction false} AcceptedAre(ids: seq<nat>, refused: set<nat>)
    ensures var waiting := Accepted(ids, refused);
            && waiting == Restrict(ids, Elems(waiting))
            && forall id :: id in waiting <==> id in ids && id !in refused
  {
    var keep := Elems(ids) - refused;
    AcceptedIs(ids, refused, keep);
    RestrictMembers(ids, keep);
    RestrictAgain(ids, keep);
  }

  lemma {:induction false} AcceptedIs(ids: seq<nat>, refused: set<nat>, keep: set<nat>)
    requires forall id <- ids :: id in keep <==> id !in refused
    ensures Accepted(ids, refused) == Restrict(ids, keep)
  {
    if ids != [] {
      var n := |ids| - 1;
      AcceptedIs(ids[..n], refused, keep);
      RestrictOneMore(ids, keep, n);
    }
  }

  lemma AcceptedOneMore(ids: seq<nat>, id: nat, refused: set<nat>)
    ensures Accepted(ids + [id], refused) == Accepted(ids, refused) + if id in refused then [] else [id]
  {
    assert (ids + [id])[..|ids|] == ids;
  }

  lemma {:induction false} EraseLast(xs: seq<nat>, x: nat)
    requires x !in xs
    ensures Erase(xs + [x], x) == xs
  {
    if xs != [] {
      assert (xs + [x])[1..] == xs[1..] + [x];
      EraseLast(xs[1..], x);
    }
  }

  function Follow(log: seq<Event>): Option<Track> {
    Automata.Follow(Step, Idle, log)
  }

  ghost function Before(log: seq<Event>, i: nat): Track
    requires i <= |log| && Follow(log).Some?
  {
    Automata.Before(Step, Idle, log, i)
  }

  lemma FollowOne(log: seq<Event>, e: Event)
    ensures Follow(log + [e]) == match Follow(log) { case None => None case Some(t) => Step(t, e) }
  {
    Automata.FollowOne(Step, Idle, log, e);
  }

  /** One event leads from one moment to the next, from the start to the end of the log. */
  lemma Next(log: seq<Event>, i: nat)
    requires i < |log| && Follow(log).Some?
    ensures Step(Before(log, i), log[i]) == Some(Before(log, i + 1))
    ensures Before(log, 0) == Idle && Before(log, |log|) == Follow(log).value
  {
    Automata.Next(Step, Idle, log, i);
    Automata.BeforeEnds(Step, Idle, log);
  }

  predicate Bounds(e: Event) {
    e.Began? || e.Ended?
  }

  ghost predicate Quiet(log: seq<Event>, i: nat, j: nat) {
    forall k :: i < k < j && k < |log| ==> !Bounds(log[k])
  }

  /** While nothing begins or ends, the save stays the one that began at `i`. */
  lemma {:induction false} SameSave(log: seq<Event>, i: nat, j: nat)
    requires i < j <= |log| && Follow(log).Some? && log[i].Began? && Quiet(log, i, j)
    ensures var t := Before(log, j); t.Saving? && t.callback == log[i].callback && t.apps == log[i].apps
    decreases j
  {
    Next(log, j - 1);
    if i < j - 1 {
      SameSave(log, i, j - 1);
      assert !Bounds(log[j - 1]);
    }
  }

  /** Every save that is over called its own callback, once, and before the next save began. */
  lemma {:induction false} CompletedOnce(log: seq<Event>, i: nat)
    requires i < |log| && Follow(log).Some? && log[i].Began?
    ensures var cb := log[i].callback;
            if exists j :: i < j < |log| && Bounds(log[j]) then
              exists j :: i < j < |log| && Quiet(log, i, j) && log[j].Ended? && log[j].callback == cb
            else
              Follow(log).value.Saving? && Follow(log).value.callback == cb
  {
    var j := i + 1;
    while j < |log| && !Bounds(log[j])
      invariant i < j <= |log| && Quiet(log, i, j)
    {
      j := j + 1;
    }
    SameSave(log, i, j);
    if j < |log| {
      Next(log, j);
    } else {
      assert log[..j] == log;
      assert forall k :: i < k < |log| ==> !Bounds(log[k]);
    }
  }

  /** Between one end and the next a save began: no callback is called out of turn. */
  lemma {:induction false} EndedOnce(log: seq<Event>, i: nat, j: nat)
    requires i < j < |log| && Follow(log).Some? && log[i].Ended? && log[j].Ended?
    ensures exists k :: i < k < j && log[k].Began? && log[k].callback == log[j].callback && Quiet(log, k, j)
  {
    hide Follow, Before, Erase;
    Next(log, i);
    Next(log, j);
    var k := i + 1;
    ghost var last := i;
    while k < j
      invariant i <= last < k <= j && Quiet(log, last, k)
      invariant last == i || Bounds(log[last])
      invariant last == i || log[last].Began? || log[last].Ended?
      invariant Before(log, k).Saving? <==> log[last].Began?
    {
      Next(log, k);
      if Bounds(log[k]) {
        last := k;
      }
      k := k + 1;
    }
    assert log[last].Began?;
    SameSave(log, last, j);
  }

  lemma {:induction false} WaitsUntilAnswered(log: seq<Event>, m: nat, j: nat, id: nat)
    requires m <= j <= |log| && Follow(log).Some? && Before(log, m).Saving? && id in Before(log, m).waiting
    requires forall k :: m <= k < j ==> !Bounds(log[k])
    ensures Before(log, j).Saving?
    ensures id in Before(log, j).waiting || exists n :: m <= n < j && log[n] == Answered(id)
    decreases j - m
  {
    if m < j {
      Next(log, m);
      var t, t' := Before(log, m), Before(log, m + 1);
      if log[m] != Answered(id) {
        if log[m].Answered? {
          EraseOther(t.waiting, log[m].id, id);
        }
        WaitsUntilAnswered(log, m + 1, j, id);
      } else {
        StaysSaving(log, m, j);
      }
    }
  }

  lemma {:induction false} StaysSaving(log: seq<Event>, m: nat, j: nat)
    requires m <= j <= |log| && Follow(log).Some? && Before(log, m).Saving?
    requires forall k :: m <= k < j ==> !Bounds(log[k])
    ensures Before(log, j).Saving?
    decreases j - m
  {
    if m < j {
      Next(log, m);
      StaysSaving(log, m + 1, j);
    }
  }

  lemma {:induction false} EraseLeaves(xs: seq<nat>, x: nat)
    requires Distinct(xs) && x in xs
    ensures Distinct(Erase(xs, x)) && |Erase(xs, x)| == |xs| - 1
    ensures forall i :: 0 <= i < |Erase(xs, x)| ==> Erase(xs, x)[i] in xs && Erase(xs, x)[i] != x
  {
    if xs[0] != x {
      EraseLeaves(xs[1..], x);
    }
  }

  lemma {:induction false} EraseOther(xs: seq<nat>, x: nat, y: nat)
    requires x != y && y in xs
    ensures y in Erase(xs, x)
  {
    if xs[0] != x && xs[0] != y {
      EraseOther(xs[1..], x, y);
    }
  }

  /** The apps are asked in their order: how far a save got says which of them were. */
  lemma {:induction false} AskedSoFar(log: seq<Event>, i: nat, j: nat, a: nat)
    requires i < j <= |log| && Follow(log).Some? && log[i].Began? && Quiet(log, i, j)
    requires Before(log, j).Saving? && a < Before(log, j).asked
    ensures a < |log[i].apps| && exists m :: i < m < j && log[m] == Asked(log[i].apps[a])
    decreases j
  {
    Next(log, j - 1);
    SameSave(log, i, j);
    hide Follow, Before, Erase;
    if i < j - 1 {
      SameSave(log, i, j - 1);
      assert !Bounds(log[j - 1]);
      if a < Before(log, j - 1).asked {
        AskedSoFar(log, i, j - 1, a);
        var m :| i < m < j - 1 && log[m] == Asked(log[i].apps[a]);
      } else {
        assert log[j - 1] == Asked(log[i].apps[a]);
      }
    }
  }

  lemma {:induction false} NoneAsked(log: seq<Event>, i: nat, j: nat, k: nat)
    requires i < k < j <= |log| && Follow(log).Some? && log[i].Began? && Quiet(log, i, j)
    requires Before(log, j).Saving? && Before(log, j).asked == 0
    ensures !log[k].Asked?
    decreases j
  {
    hide Follow, Before, Erase;
    Next(log, j - 1);
    SameSave(log, i, j - 1);
    assert !Bounds(log[j - 1]);
    if k < j - 1 {
      NoneAsked(log, i, j - 1, k);
    }
  }

  /** A save never completes early: its every app was asked and then answered, or none was asked and it failed. */
  lemma NeverEarly(log: seq<Event>, i: nat, j: nat)
    requires i < j < |log| && Follow(log).Some? && log[i].Began? && log[j].Ended? && Quiet(log, i, j)
    ensures
      || (!log[j].success && forall k :: i < k < j ==> !log[k].Asked?)
      || forall a :: 0 <= a < |log[i].apps| ==>
           exists m, n :: i < m < n < j && log[m] == Asked(log[i].apps[a]) && log[n] == Answered(log[i].apps[a])
  {
    hide Follow, Before, Erase;
    SameSave(log, i, j);
    Next(log, j);
    var t := Before(log, j);
    if t.asked == |t.apps| {
      forall a | 0 <= a < |log[i].apps|
        ensures exists m, n :: i < m < n < j && log[m] == Asked(log[i].apps[a]) && log[n] == Answered(log[i].apps[a])
      {
        AskedSoFar(log, i, j, a);
        var m :| i < m < j && log[m] == Asked(log[i].apps[a]);
        Next(log, m);
        WaitsUntilAnswered(log, m + 1, j, log[i].apps[a]);
        var n :| m + 1 <= n < j && log[n] == Answered(log[i].apps[a]);
      }
    } else {
      forall k | i < k < j
        ensures !log[k].Asked?
      {
        NoneAsked(log, i, j, k);
      }
    }
  }
}
