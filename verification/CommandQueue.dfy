/** The daemon's command queue. */
module CommandQueue {
  import opened Wrappers
  import opened Lists
  import opened CommandLog

  class Queue {
    var cancel: bool
    var queue: seq<Command>

    ghost var log: seq<Event>
    ghost var track: Track

    /** The log is one the automaton accepts, and it ends with this queue. */
    ghost predicate Tracked()
      reads this
    {
      && Follow(log) == Some(track) && Orderly(track)
      && track.queue == queue
    }

    /** Exactly the commands that left the queue are destroyed. */
    ghost predicate Alive()
      reads this, queue`destroyed, track.gone`destroyed
    {
      && (forall i :: 0 <= i < |queue| ==> !queue[i].destroyed)
      && (forall c <- track.gone :: c.destroyed)
    }

    /** Between calls the head is pending or waiting and the others are pending. */
    ghost predicate Valid()
      reads this, queue`destroyed, track.gone`destroyed, queue`state
    {
      && Tracked() && Alive() && !track.finishing && !track.clearing && track.cancelled == cancel
      && (forall i :: 0 < i < |queue| ==> queue[i].state == Pending)
      && (queue != [] ==> queue[0].state == Pending || queue[0].state == Waiting)
      && (cancel ==> |queue| == 1 && queue[0].state == Waiting)
    }

    constructor ()
      ensures Valid() && queue == [] && !cancel && log == []
    {
      cancel, queue, log, track := false, [], [], EMPTY;
    }

    ghost method Record(e: Event, expected: Track)
      requires Follow(log) == Some(track) && Orderly(track) && Step(track, e) == Some(expected)
      modifies this`log, this`track
      ensures Follow(log) == Some(track) && Orderly(track) && track == expected && log == old(log) + [e]
    {
      FollowOne(log, e);
      StepOrderly(track, e);
      log := log + [e];
      track := expected;
    }

    method AddCommand(c: Command) returns (ok: bool)
      requires Valid() && c.state == Prepare && c !in queue && c !in track.gone && !c.destroyed
      modifies this`queue, this`log, this`track, c`state
      ensures Valid() && ok == !old(cancel)
      ensures ok ==> queue == old(queue) + [c] && log == old(log) + [Added(c)] && c.state == Pending
      ensures !ok ==> queue == old(queue) && log == old(log) && c.state == Prepare
    {
      hide Follow;
      if cancel {
        return false;
      }
      c.state := Pending;
      Record(Added(c), track.(queue := queue + [c]));
      queue := queue + [c];
      return true;
    }

    /** `list_del` of the head, its destructor, `free`. */
    method PopFront(ghost e: Event, ghost expected: Track)
      requires Tracked() && Alive() && queue != [] && Step(track, e) == Some(expected)
      requires expected.queue == queue[1..] && expected.gone == track.gone + {queue[0]}
      modifies this`queue, this`log, this`track, queue[..1]`destroyed
      ensures Tracked() && Alive() && queue == old(queue)[1..] && track == expected && log == old(log) + [e]
      ensures old(queue)[0].destroyed
    {
      var c := queue[0];
      assert queue[..1] == [c];
      Record(e, expected);
      queue := queue[1..];
      c.Destroy();
    }

    /** Everything goes, from the head on. */
    method Clear()
      requires Tracked() && Alive() && !track.finishing && (queue == [] ==> !track.clearing)
      modifies this`cancel, this`queue, this`log, this`track, queue`destroyed
      ensures Valid() && queue == [] && !cancel && old(log) <= log
      ensures |log| == |old(log)| + |old(queue)|
      ensures forall i :: 0 <= i < |old(queue)| ==> old(queue)[i].destroyed && log[|old(log)| + i] == Cleared(old(queue)[i])
    {
      ghost var all := queue;
      ghost var n := 0;
      while queue != []
        invariant Tracked() && Alive() && !track.finishing && (queue == [] ==> !track.clearing && !track.cancelled)
        invariant n <= |all| && queue == all[n..] && old(log) <= log && |log| == |old(log)| + n
        invariant forall i :: 0 <= i < n ==> all[i].destroyed && log[|old(log)| + i] == Cleared(all[i])
        decreases |queue|
      {
        ghost var t := track;
        assert all[n] == queue[0] && queue[1..] == all[n + 1..];
        PopFront(Cleared(queue[0]), t.(queue := queue[1..], gone := t.gone + {queue[0]}, clearing := |queue| > 1, cancelled := t.cancelled && |queue| > 1));
        n := n + 1;
      }
      cancel := false;
    }

    /** Takes the last command back, which must still be pending. */
    method DropCommand()
      requires Valid() && queue != [] && queue[|queue| - 1].state == Pending
      modifies this`queue, this`log, this`track, queue`destroyed
      ensures Valid() && queue == old(queue)[..|old(queue)| - 1] && log == old(log) + [DroppedLast(old(queue)[|old(queue)| - 1])]
      ensures old(queue)[|old(queue)| - 1].destroyed
    {
      PopBack();
    }

    method PopBack()
      requires Tracked() && Alive() && queue != [] && !track.finishing && !track.clearing && !track.cancelled
      modifies this`queue, this`log, this`track, queue`destroyed
      ensures Tracked() && Alive() && queue == old(queue)[..|old(queue)| - 1] && log == old(log) + [DroppedLast(old(queue)[|old(queue)| - 1])]
      ensures old(queue)[|old(queue)| - 1].destroyed
      ensures track == old(track).(queue := queue, gone := old(track).gone + {old(queue)[|old(queue)| - 1]})
    {
      var n := |queue| - 1;
      var c := queue[n];
      Record(DroppedLast(c), track.(queue := queue[..n], gone := track.gone + {c}));
      queue := queue[..n];
      c.Destroy();
    }

    /** One turn of a cancel, with another command still before the last one. */
    method DropOne()
      requires Valid() && |queue| > 1
      modifies this`queue, this`log, this`track, queue`destroyed
      ensures Valid() && queue == old(queue)[..|old(queue)| - 1] && old(log) <= log
      ensures var c := old(queue)[|old(queue)| - 1]; c.destroyed && log == old(log) + [DroppedLast(c)]
    {
      hide Follow;
      PopBack();
    }

    /** `cmd_ptr` follows the loop: it is left at the command dropped last, if any was. */
    method DropTail() returns (c: Command)
      requires Valid() && queue != []
      modifies this`queue, this`log, this`track, queue`destroyed
      ensures Valid() && old(log) <= log && queue == [old(queue)[0]]
      ensures c == if |old(queue)| == 1 then old(queue)[0] else old(queue)[1]
      ensures |log| == |old(log)| + |old(queue)| - 1
      ensures forall i :: 0 < i < |old(queue)| ==>
                old(queue)[i].destroyed && log[|old(log)| + |old(queue)| - 1 - i] == DroppedLast(old(queue)[i])
      ensures |old(queue)| > 1 ==> old(queue)[0] != old(queue)[1]
    {
      hide Valid, Follow;
      QueueDistinct();
      ghost var all := queue;
      c := queue[0];
      while |queue| != 1
        invariant 1 <= |queue| <= |all| && queue == all[..|queue|] && old(log) <= log
        invariant Valid() && |log| == |old(log)| + |all| - |queue|
        invariant forall i :: |queue| <= i < |all| ==>
                    all[i].destroyed && log[|old(log)| + |all| - 1 - i] == DroppedLast(all[i])
        invariant c == if |queue| == |all| then all[0] else all[|queue|]
        decreases |queue|
      {
        c := queue[|queue| - 1];
        DropOne();
      }
    }

    /**
     * Everything but a waiting head is dropped, from the back. The flag on the command itself ends
     * up on the head only if there was nothing to drop, otherwise on the command dropped last.
     */
    method Cancel()
      requires Valid()
      modifies this`cancel, this`queue, this`log, this`track, queue`destroyed, queue`cancel
      ensures Valid() && old(log) <= log
      ensures old(queue) == [] ==> queue == [] && log == old(log)
      ensures old(queue) != [] && old(queue[0].state) != Waiting ==> queue == [] && !cancel
      ensures forall i :: 0 <= i < |old(queue)| && (i > 0 || old(queue[0].state) != Waiting) ==> old(queue)[i].destroyed
      ensures old(queue) != [] && old(queue[0].state) == Waiting ==>
                && |log| == |old(log)| + |old(queue)| && log[|log| - 1] == Cancelled
                && forall i :: 0 < i < |old(queue)| ==> log[|old(log)| + |old(queue)| - 1 - i] == DroppedLast(old(queue)[i])
      ensures old(queue) != [] && old(queue[0].state) == Waiting ==>
                && queue == [old(queue)[0]] && cancel
                && (queue[0].cancel <==> old(queue[0].cancel) || |old(queue)| == 1)
    {
      hide Follow;
      if queue == [] {
        return;
      }
      if queue[0].state != Waiting {
        Clear();
        return;
      }
      var c := DropTail();
      Record(Cancelled, track.(cancelled := true));
      cancel := true;
      c.cancel := true;
    }

    /** The head failed, and the queue goes with it. */
    method FailHead()
      requires Tracked() && Alive() && queue != [] && !track.finishing && !track.clearing
      modifies this`cancel, this`queue, this`log, this`track, queue`destroyed
      ensures Valid() && queue == [] && old(log) + [Ran(old(queue)[0], Fails)] <= log
      ensures |log| == |old(log)| + 1 + |old(queue)|
      ensures forall i :: 0 <= i < |old(queue)| ==> old(queue)[i].destroyed && log[|old(log)| + 1 + i] == Cleared(old(queue)[i])
    {
      hide Follow;
      Record(Ran(queue[0], Fails), track.(clearing := true));
      Clear();
    }

    /** The head is done: it is destroyed, and a cancelled queue that has drained takes commands again. */
    method FinishHead()
      requires Tracked() && Alive() && queue != [] && !track.finishing && !track.clearing && track.cancelled == cancel
      modifies this`cancel, this`queue, this`log, this`track, queue[..1]`destroyed
      ensures Tracked() && Alive() && !track.finishing && !track.clearing && track.cancelled == cancel
      ensures queue == old(queue)[1..] && old(queue)[0].destroyed && (cancel ==> old(cancel) && queue != [])
      ensures log == old(log) + [Ran(old(queue)[0], Finishes), Finished(old(queue)[0])]
    {
      hide Follow;
      var c := queue[0];
      Record(Ran(c, Finishes), track.(finishing := true));
      ghost var t := track;
      PopFront(Finished(c), t.(queue := queue[1..], gone := t.gone + {c}, finishing := false, cancelled := t.cancelled && |queue| > 1));
      if cancel && queue == [] {
        cancel := false;
      }
    }

    /** One command's turn. `more` asks for the next one, otherwise `halted` says why not. */
    method RunHead() returns (more: bool, halted: bool)
      requires Valid() && queue != []
      modifies this`cancel, this`queue, this`log, this`track, queue`destroyed, queue[..1]`state, queue[..1]`runs, queue[..1]`succeeded
      ensures var c := old(queue)[0];
              && c.runs == old(queue[0].runs) + 1
              && more == (c.succeeded && c.state == Done) && halted == (!c.succeeded || (c.state != Done && c.state != Waiting))
      ensures Valid() && old(log) <= log && |log| > |old(log)|
      ensures log[|old(log)|] == Ran(old(queue)[0], if more then Finishes else if halted then Fails else Waits) && !(more && halted)
      ensures more ==> queue == old(queue)[1..] && old(queue)[0].destroyed
      ensures halted ==> queue == [] && forall i :: 0 <= i < |old(queue)| ==> old(queue)[i].destroyed
      ensures more ==> log == old(log) + [Ran(old(queue)[0], Finishes), Finished(old(queue)[0])]
      ensures !more && !halted ==> log == old(log) + [Ran(old(queue)[0], Waits)]
      ensures !more && !halted ==> queue == old(queue) && queue[0].state == Waiting
    {
      hide Follow;
      var c := queue[0];
      assert queue[..1] == [c];
      var ok := c.Run();
      if !ok || (c.state != Done && c.state != Waiting) {
        FailHead();
        return false, true;
      }
      if c.state == Waiting {
        Record(Ran(c, Waits), track);
        return false, false;
      }
      FinishHead();
      return true, false;
    }

    lemma QueueDistinct()
      requires Valid()
      ensures Distinct(queue)
    {
    }

    lemma HeadDiffers(all: seq<Command>, n: nat)
      requires Distinct(all) && n < |all|
      ensures all[n..][0] == all[n] && all[n..][1..] == all[n + 1..] && all[n..][..1] == [all[n]]
      ensures forall i :: 0 <= i < |all| && i != n ==> all[i] != all[n]
      ensures forall i :: 0 <= i < n ==> all[i] !in all[n..]
      ensures forall i :: 0 <= i < |all[n..]| ==> all[n..][i] == all[n + i]
    {
    }

    /** `n` commands are done, and the one behind them has run too unless `more` may; `was` is how often each had run. */
    ghost predicate Progress(all: seq<Command>, was: seq<nat>, n: nat, more: bool, halted: bool)
      reads this, all
    {
      && n <= |all| == |was|
      && (if halted then queue == [] && !more && forall i :: 0 <= i < |all| ==> all[i].destroyed else queue == all[n..])
      && (!more ==> n < |all| && all[n].runs == was[n] + 1 && (!halted ==> all[n].state == Waiting)
                    && halted == (!all[n].succeeded || (all[n].state != Done && all[n].state != Waiting)))
      && (forall i :: 0 <= i < n ==> all[i].destroyed && all[i].runs == was[i] + 1 && all[i].succeeded && all[i].state == Done)
      && (forall i :: n < i < |all| ==> all[i].runs == was[i]) && (more && n < |all| ==> all[n].runs == was[n])
    }

    method RunNext(ghost all: seq<Command>, ghost was: seq<nat>, ghost n: nat) returns (more: bool, halted: bool)
      requires Valid() && queue != [] && Distinct(all) && Progress(all, was, n, true, false)
      modifies this`cancel, this`queue, this`log, this`track, all`destroyed, all`state, all`runs, all`succeeded
      ensures Valid() && old(log) <= log && |log| > |old(log)| && Progress(all, was, if more then n + 1 else n, more, halted)
      ensures more ==> |queue| == |old(queue)| - 1
    {
      hide Valid, Follow, Distinct;
      HeadDiffers(all, n);
      assert forall i :: n <= i < |all| ==> all[n..][i - n] == all[i];
      more, halted := RunHead();
      forall i | n <= i < |all| && halted
        ensures all[i].destroyed
      {
        assert all[n..][i - n] == all[i];
      }
      assert forall i :: n < i < |all| ==> all[i].runs == was[i];
      assert more ==> queue == all[n + 1..];
    }

    /** Runs commands until one has to wait, one fails, or none is left. */
    method Run() returns (halted: bool, ghost n: nat)
      requires Valid()
      modifies this`cancel, this`queue, this`log, this`track, queue`destroyed, queue`state, queue`runs, queue`succeeded
      ensures Valid() && old(log) <= log && n <= |old(queue)|
      ensures halted ==> queue == [] && n < |old(queue)| && forall i :: 0 <= i < |old(queue)| ==> old(queue)[i].destroyed
      ensures !halted ==> queue == old(queue)[n..] && (queue != [] ==> queue[0].state == Waiting)
      ensures forall i :: 0 <= i < n ==> var c := old(queue)[i];
                c.destroyed && c.runs == old(queue[i].runs) + 1 && c.succeeded && c.state == Done
      ensures n < |old(queue)| ==> var c := old(queue)[n];
                && c.runs == old(queue[n].runs) + 1
                && halted == (!c.succeeded || (c.state != Done && c.state != Waiting))
      ensures forall i :: n < i < |old(queue)| ==> old(queue)[i].runs == old(queue[i].runs)
    {
      hide Valid, Follow, Distinct;
      QueueDistinct();
      ghost var all, was := queue, RunsOf(queue);
      n := 0;
      halted := false;
      var more := true;
      while more && queue != []
        invariant Valid() && old(log) <= log && Progress(all, was, n, more, halted)
        decreases more, |queue|
      {
        more, halted := RunNext(all, was, n);
        if more {
          n := n + 1;
        }
      }
    }
  }

  ghost function RunsOf(s: seq<Command>): (was: seq<nat>)
    reads s
    ensures |was| == |s| && forall i :: 0 <= i < |s| ==> was[i] == s[i].runs
  {
    if s == [] then []
    else
      assert forall i :: 0 <= i < |s| - 1 ==> s[..|s| - 1][i] == s[i];
      RunsOf(s[..|s| - 1]) + [s[|s| - 1].runs]
  }
}
