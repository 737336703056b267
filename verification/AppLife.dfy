/** The supervised apps as values, and what whole runs of the supervisor make of them. */
module AppLife {
  import opened Wrappers
  import opened Lists

  datatype Level = Level0 | Level1 | Lash | JackSession

  datatype State = Stopped | Started | Stopping | Killed

  datatype Record = Record(
    id: nat, level: Level, pid: nat, state: State, zombie: bool, autorun: bool,
    commandline: string, jsCommandline: Option<string>)

  /** Between calls: a pid exactly while not stopped, and a zombie is on its way out. */
  ghost predicate Coherent(r: Record) {
    && (r.pid == 0 <==> r.state == Stopped)
    && (r.zombie ==> r.state == Stopping || r.state == Killed)
  }

  ghost predicate AllCoherent(v: seq<Record>) {
    forall i :: 0 <= i < |v| ==> Coherent(v[i])
  }

  // ----- exits

  function AfterExit(r: Record): seq<Record> {
    if r.zombie then [] else [r.(pid := 0, state := Stopped)]
  }

  /** The first app with that pid stops, or goes if it is a zombie. */
  function Exited(v: seq<Record>, pid: nat): seq<Record> {
    if v == [] then []
    else if v[0].pid == pid then AfterExit(v[0]) + v[1..]
    else [v[0]] + Exited(v[1..], pid)
  }

  lemma {:induction false} ExitedAt(v: seq<Record>, pid: nat, i: nat)
    requires i < |v| && v[i].pid == pid && forall j :: 0 <= j < i ==> v[j].pid != pid
    ensures Exited(v, pid) == v[..i] + AfterExit(v[i]) + v[i + 1..]
  {
    if i > 0 {
      ExitedAt(v[1..], pid, i - 1);
      assert [v[0]] + (v[1..][..i - 1] + AfterExit(v[i]) + v[i + 1..]) == v[..i] + AfterExit(v[i]) + v[i + 1..];
    } else {
      assert v[..0] == [];
    }
  }

  lemma {:induction false} NoExit(v: seq<Record>, pid: nat)
    requires forall i :: 0 <= i < |v| ==> v[i].pid != pid
    ensures Exited(v, pid) == v
  {
    if v != [] {
      NoExit(v[1..], pid);
    }
  }

  function ExitAll(v: seq<Record>, pids: seq<nat>): seq<Record>
    decreases |pids|
  {
    if pids == [] then v else ExitAll(Exited(v, pids[0]), pids[1..])
  }

  function Pids(v: seq<Record>): seq<nat> {
    if v == [] then [] else (if v[0].pid != 0 then [v[0].pid] else []) + Pids(v[1..])
  }

  /** The apps once every process has gone. */
  function Settled(v: seq<Record>): seq<Record> {
    if v == [] then [] else (if v[0].pid != 0 then AfterExit(v[0]) else [v[0]]) + Settled(v[1..])
  }

  lemma {:induction false} ExitPids(v: seq<Record>, pid: nat)
    requires pid != 0 && pid in Pids(v)
    ensures Pids(Exited(v, pid)) == Erase(Pids(v), pid)
  {
    var rest := v[1..];
    if v[0].pid == pid {
      var w := AfterExit(v[0]);
      assert Pids(v)[1..] == Pids(rest);
      if w == [] {
        assert w + rest == rest;
      } else {
        assert (w + rest)[1..] == rest && [] + Pids(rest) == Pids(rest);
      }
    } else {
      ExitPids(rest, pid);
      assert ([v[0]] + Exited(rest, pid))[1..] == Exited(rest, pid);
      if v[0].pid != 0 {
        assert Pids(v)[1..] == Pids(rest);
      } else {
        assert Pids(v) == Pids(rest) && [] + Erase(Pids(rest), pid) == Erase(Pids(rest), pid);
      }
    }
  }

  lemma {:induction false} EraseTakesOne(xs: seq<nat>, x: nat)
    requires x in xs
    ensures multiset(Erase(xs, x)) == multiset(xs) - multiset{x}
  {
    assert xs == [xs[0]] + xs[1..];
    if xs[0] != x {
      EraseTakesOne(xs[1..], x);
    }
  }

  lemma {:induction false} ExitSettles(v: seq<Record>, pid: nat)
    requires pid != 0 && pid in Pids(v)
    ensures Settled(Exited(v, pid)) == Settled(v)
  {
    var rest := v[1..];
    if v[0].pid == pid {
      var w := AfterExit(v[0]);
      if w == [] {
        assert w + rest == rest && [] + Settled(rest) == Settled(rest);
      } else {
        assert (w + rest)[1..] == rest;
      }
    } else {
      ExitSettles(rest, pid);
      assert ([v[0]] + Exited(rest, pid))[1..] == Exited(rest, pid);
    }
  }

  lemma {:induction false} ExitShrinks(v: seq<Record>, pid: nat)
    requires pid != 0 && pid in Pids(v) && forall r <- v :: r.zombie
    ensures |Exited(v, pid)| == |v| - 1 && forall r <- Exited(v, pid) :: r.zombie
  {
    if v[0].pid != pid {
      ExitShrinks(v[1..], pid);
    }
  }

  lemma {:induction false} NoPids(v: seq<Record>)
    requires Pids(v) == []
    ensures Settled(v) == v
  {
    if v != [] {
      NoPids(v[1..]);
    }
  }

  /** However the exits are ordered, and even if two apps got the same pid, the outcome is the same. */
  lemma {:induction false} ExitsSettle(v: seq<Record>, pids: seq<nat>)
    requires 0 !in pids && multiset(pids) == multiset(Pids(v))
    ensures ExitAll(v, pids) == Settled(v)
    decreases |pids|
  {
    if pids == [] {
      assert |Pids(v)| == |multiset(Pids(v))| == 0;
      NoPids(v);
    } else {
      FirstExit(v, pids);
      ExitsSettle(Exited(v, pids[0]), pids[1..]);
    }
  }

  lemma FirstExit(v: seq<Record>, pids: seq<nat>)
    requires pids != [] && 0 !in pids && multiset(pids) == multiset(Pids(v))
    ensures pids[0] in Pids(v) && Settled(Exited(v, pids[0])) == Settled(v)
    ensures multiset(pids[1..]) == multiset(Pids(Exited(v, pids[0])))
    ensures (forall r <- v :: r.zombie) ==> |Exited(v, pids[0])| == |v| - 1 && forall r <- Exited(v, pids[0]) :: r.zombie
  {
    hide Exited, Pids, Settled, Erase;
    assert pids == [pids[0]] + pids[1..];
    assert pids[0] in multiset(pids);
    ExitPids(v, pids[0]);
    EraseTakesOne(Pids(v), pids[0]);
    ExitSettles(v, pids[0]);
    if forall r <- v :: r.zombie {
      ExitShrinks(v, pids[0]);
    }
  }

  // ----- clear

  /** Stopped apps go at once; the others become zombies. */
  function Cleared(v: seq<Record>): seq<Record> {
    if v == [] then [] else ClearedOne(v[0]) + Cleared(v[1..])
  }

  function ClearedOne(r: Record): seq<Record> {
    if r.pid != 0 then [r.(state := Stopping, zombie := true)] else []
  }

  lemma {:induction false} ClearedAreZombies(v: seq<Record>)
    ensures Pids(Cleared(v)) == Pids(v) && Settled(Cleared(v)) == [] && |Cleared(v)| == |Pids(v)|
    ensures forall r <- Cleared(v) :: r.zombie && r.pid != 0 && r.state == Stopping
  {
    if v != [] {
      var rest := Cleared(v[1..]);
      ClearedAreZombies(v[1..]);
      if v[0].pid != 0 {
        assert Cleared(v)[1..] == rest;
        assert [] + Settled(rest) == Settled(rest);
      } else {
        assert Cleared(v) == rest && Pids(v) == Pids(v[1..]);
      }
    }
  }

  lemma {:induction false} ClearedAppend(v: seq<Record>, r: Record)
    ensures Cleared(v + [r]) == Cleared(v) + ClearedOne(r)
  {
    hide ClearedOne;
    if v == [] {
      assert v + [r] == [r] && [r][1..] == [];
    } else {
      assert (v + [r])[1..] == v[1..] + [r];
      ClearedAppend(v[1..], r);
    }
  }

  /** Nothing stays behind exactly when nothing was running. */
  lemma {:induction false} Lifeless(v: seq<Record>)
    ensures Cleared(v) == [] <==> forall i :: 0 <= i < |v| ==> v[i].pid == 0
  {
    if v != [] {
      Lifeless(v[1..]);
      assert forall i :: 0 < i < |v| ==> v[i] == v[1..][i - 1];
    }
  }

  lemma {:induction false} ZombiesShrink(v: seq<Record>, pids: seq<nat>, k: nat)
    requires 0 !in pids && multiset(pids) == multiset(Pids(v)) && k <= |pids| && forall r <- v :: r.zombie
    ensures |ExitAll(v, pids[..k])| == |v| - k
    decreases k
  {
    if k > 0 {
      FirstExit(v, pids);
      ZombiesShrink(Exited(v, pids[0]), pids[1..], k - 1);
      assert pids[..k][1..] == pids[1..][..k - 1];
    } else {
      assert pids[..0] == [];
    }
  }

  /** After a clear, the exits of what was running empty the list, one app each, in whatever order they come. */
  lemma ClearEmpties(v: seq<Record>, pids: seq<nat>, k: nat)
    requires 0 !in pids && multiset(pids) == multiset(Pids(v)) && k <= |pids|
    ensures |ExitAll(Cleared(v), pids[..k])| == |pids| - k
    ensures ExitAll(Cleared(v), pids) == []
  {
    ClearedAreZombies(v);
    ExitsSettle(Cleared(v), pids);
    ZombiesShrink(Cleared(v), pids, k);
    assert |multiset(pids)| == |pids| && |multiset(Pids(v))| == |Pids(v)|;
  }

  // ----- stop and autorun

  function Halt(r: Record): Record {
    if r.pid != 0 then r.(autorun := true, state := Stopping) else r
  }

  function Halted(v: seq<Record>): seq<Record> {
    if v == [] then [] else [Halt(v[0])] + Halted(v[1..])
  }

  lemma {:induction false} HaltedEach(v: seq<Record>)
    ensures |Halted(v)| == |v| && forall i :: 0 <= i < |v| ==> Halted(v)[i] == Halt(v[i])
  {
    if v != [] {
      HaltedEach(v[1..]);
    }
  }

  lemma HaltMeans(v: seq<Record>)
    ensures forall i :: 0 <= i < |v| ==>
              Halt(v[i]) == if v[i].pid != 0 then v[i].(autorun := true, state := Stopping) else v[i]
  {
  }

  function Unflagged(r: Record): Record {
    r.(autorun := false, zombie := false)
  }

  /** Flagged apps start in their order; a start that fails (pid 0) ends the round with its flag already gone. */
  function Autoran(v: seq<Record>, pids: seq<nat>): seq<Record> {
    if v == [] then []
    else if !v[0].autorun then [v[0]] + Autoran(v[1..], pids)
    else if pids == [] || pids[0] == 0 then [Unflagged(v[0])] + v[1..]
    else [Unflagged(v[0]).(pid := pids[0], state := Started)] + Autoran(v[1..], pids[1..])
  }

  /** The round, cut at any app: the starts before it, then those from it on. */
  lemma {:induction false} AutoranSplit(v: seq<Record>, w: seq<Record>, pids: seq<nat>, tail: seq<nat>)
    requires 0 !in pids && Flagged(v) == |pids|
    ensures Autoran(v + w, pids + tail) == Autoran(v, pids) + Autoran(w, tail)
  {
    if v == [] {
      assert v + w == w && pids + tail == tail && [] + Autoran(w, tail) == Autoran(w, tail);
    } else {
      assert (v + w)[1..] == v[1..] + w;
      if v[0].autorun {
        assert (pids + tail)[1..] == pids[1..] + tail;
        AutoranSplit(v[1..], w, pids[1..], tail);
      } else {
        AutoranSplit(v[1..], w, pids, tail);
      }
    }
  }

  lemma {:induction false} FlaggedAppend(v: seq<Record>, w: seq<Record>)
    ensures Flagged(v + w) == Flagged(v) + Flagged(w)
  {
    if v == [] {
      assert v + w == w;
    } else {
      assert (v + w)[1..] == v[1..] + w;
      FlaggedAppend(v[1..], w);
    }
  }

  function Flagged(v: seq<Record>): nat {
    if v == [] then 0 else (if v[0].autorun then 1 else 0) + Flagged(v[1..])
  }

  /** How many of the first `i` apps are flagged. */
  lemma {:induction false} FlaggedCount(v: seq<Record>, i: nat)
    requires i <= |v|
    ensures Flagged(v[..i]) == |set j | 0 <= j < i && v[j].autorun|
  {
    var s := set j | 0 <= j < i && v[j].autorun;
    if i == 0 {
      assert s == {};
    } else {
      FlaggedCount(v, i - 1);
      assert v[..i] == v[..i - 1] + [v[i - 1]];
      FlaggedAppend(v[..i - 1], [v[i - 1]]);
      var r := set j | 0 <= j < i - 1 && v[j].autorun;
      assert s == if v[i - 1].autorun then r + {i - 1} else r;
    }
  }

  /** App by app: the `k`-th flagged one takes the `k`-th pid, unless a start before it failed. */
  lemma {:induction false} AutoranAt(v: seq<Record>, pids: seq<nat>, i: nat)
    requires i < |v|
    ensures |Autoran(v, pids)| == |v|
    ensures var k := Flagged(v[..i]);
            Autoran(v, pids)[i] ==
              if !v[i].autorun || k > |pids| || 0 in pids[..k] then v[i]
              else if k < |pids| && pids[k] != 0 then v[i].(autorun := false, zombie := false, pid := pids[k], state := Started)
              else v[i].(autorun := false, zombie := false)
  {
    hide Flagged;
    AutoranLength(v, pids);
    FlaggedFirst(v, i);
    if i > 0 {
      if !v[0].autorun {
        AutoranAt(v[1..], pids, i - 1);
      } else if pids == [] || pids[0] == 0 {
        assert pids != [] && Flagged(v[..i]) <= |pids| ==> pids[..Flagged(v[..i])][0] == 0;
      } else {
        AutoranAt(v[1..], pids[1..], i - 1);
        var k := Flagged(v[1..][..i - 1]);
        assert k <= |pids[1..]| ==> pids[..k + 1] == [pids[0]] + pids[1..][..k];
      }
    }
  }

  lemma FlaggedFirst(v: seq<Record>, i: nat)
    requires i < |v|
    ensures Flagged(v[..i]) == if i == 0 then 0 else (if v[0].autorun then 1 else 0) + Flagged(v[1..][..i - 1])
  {
    assert i > 0 ==> v[..i][1..] == v[1..][..i - 1];
  }

  lemma {:induction false} AutoranLength(v: seq<Record>, pids: seq<nat>)
    ensures |Autoran(v, pids)| == |v|
  {
    if v != [] {
      AutoranLength(v[1..], pids);
      if pids != [] {
        AutoranLength(v[1..], pids[1..]);
      }
    }
  }

  /** All but the zombies, which are gone once they exit. */
  function Lasting(v: seq<Record>): seq<Record> {
    if v == [] then [] else (if v[0].zombie then [] else [v[0]]) + Lasting(v[1..])
  }

  lemma {:induction false} HaltedSettles(v: seq<Record>)
    requires AllCoherent(v)
    ensures Pids(Halted(v)) == Pids(v)
    ensures var w, l := Settled(Halted(v)), Lasting(v);
            && |w| == |l|
            && forall i :: 0 <= i < |w| ==>
                 && w[i].id == l[i].id && w[i].pid == 0 && w[i].state == Stopped && !w[i].zombie
                 && w[i].autorun == (l[i].autorun || l[i].pid != 0)
  {
    if v != [] {
      HaltedSettles(v[1..]);
      var h := Halted(v);
      assert h[0] == Halt(v[0]) && h[1..] == Halted(v[1..]) && Coherent(v[0]);
    }
  }

  lemma {:induction false} AutoranAll(v: seq<Record>, pids: seq<nat>)
    requires 0 !in pids && Flagged(v) <= |pids|
    ensures var w := Autoran(v, pids);
            && |w| == |v|
            && forall i :: 0 <= i < |w| ==>
                 && w[i].id == v[i].id && !w[i].autorun
                 && (if v[i].autorun then w[i].pid != 0 && w[i].state == Started else w[i] == v[i])
  {
    if v != [] {
      if v[0].autorun {
        AutoranAll(v[1..], pids[1..]);
      } else {
        AutoranAll(v[1..], pids);
      }
    }
  }

  /** Stop, all exits, and an autorun whose starts succeed: exactly what ran or was flagged runs again. */
  lemma StopThenAutorun(v: seq<Record>, exits: seq<nat>, pids: seq<nat>)
    requires AllCoherent(v) && 0 !in exits && multiset(exits) == multiset(Pids(v))
    requires 0 !in pids && Flagged(ExitAll(Halted(v), exits)) <= |pids|
    ensures var w, l := Autoran(ExitAll(Halted(v), exits), pids), Lasting(v);
            && |w| == |l|
            && forall i :: 0 <= i < |w| ==>
                 && w[i].id == l[i].id && !w[i].autorun
                 && (w[i].pid != 0 <==> l[i].pid != 0 || l[i].autorun)
                 && (w[i].pid != 0 <==> w[i].state == Started)
  {
    HaltedSettles(v);
    ExitsSettle(Halted(v), exits);
    AutoranAll(Settled(Halted(v)), pids);
  }

  // ----- the end of a save

  predicate Asks(r: Record) {
    r.state == Started && r.level == JackSession
  }

  /** The apps that a save asks, in their order. */
  function AskIds(v: seq<Record>): seq<nat> {
    if v == [] then [] else (if Asks(v[0]) then [v[0].id] else []) + AskIds(v[1..])
  }

  lemma {:induction false} AskIdsAppend(v: seq<Record>, w: seq<Record>)
    ensures AskIds(v + w) == AskIds(v) + AskIds(w)
  {
    if v == [] {
      assert v + w == w;
    } else {
      assert (v + w)[1..] == v[1..] + w;
      AskIdsAppend(v[1..], w);
    }
  }

  lemma AskIdsOne(r: Record)
    ensures AskIds([r]) == if Asks(r) then [r.id] else []
  {
    assert [r][1..] == [];
  }

  lemma AskIdsNext(v: seq<Record>, i: nat)
    requires i < |v|
    ensures AskIds(v[..i + 1]) == AskIds(v[..i]) + if Asks(v[i]) then [v[i].id] else []
    ensures AskIds(v) == AskIds(v[..i + 1]) + AskIds(v[i + 1..])
  {
    hide AskIds;
    assert v[..i + 1] == v[..i] + [v[i]] && v == v[..i + 1] + v[i + 1..];
    AskIdsAppend(v[..i], [v[i]]);
    AskIdsAppend(v[..i + 1], v[i + 1..]);
    AskIdsOne(v[i]);
  }

  lemma {:induction false} AskIdsAscend(v: seq<Record>)
    requires forall i, j :: 0 <= i < j < |v| ==> v[i].id < v[j].id
    ensures forall id :: id in AskIds(v) <==> exists i :: 0 <= i < |v| && v[i].state == Started && v[i].level == JackSession && v[i].id == id
    ensures forall i, j :: 0 <= i < j < |AskIds(v)| ==> AskIds(v)[i] < AskIds(v)[j]
  {
    if v != [] {
      var rest := v[1..];
      AskIdsAscend(rest);
      assert forall i :: 0 < i < |v| ==> v[i] == rest[i - 1];
      forall id
        ensures id in AskIds(v) <==> exists i :: 0 <= i < |v| && v[i].state == Started && v[i].level == JackSession && v[i].id == id
      {
        if id in AskIds(rest) {
          var i :| 0 <= i < |rest| && rest[i].state == Started && rest[i].level == JackSession && rest[i].id == id;
          assert v[i + 1] == rest[i];
        }
        if i :| 0 <= i < |v| && v[i].state == Started && v[i].level == JackSession && v[i].id == id {
          if i > 0 {
            assert rest[i - 1].id == id;
          }
        }
      }
      forall i | 0 <= i < |AskIds(rest)|
        ensures v[0].id < AskIds(rest)[i]
      {
        assert AskIds(rest)[i] in AskIds(rest);
        var k :| 0 <= k < |rest| && rest[k].state == Started && rest[k].level == JackSession && rest[k].id == AskIds(rest)[i];
        assert v[k + 1] == rest[k];
      }
    }
  }

  predicate AllAnswered(v: seq<Record>) {
    forall r <- v :: Asks(r) ==> r.jsCommandline.Some?
  }

  function Replaced(r: Record): Record {
    if Asks(r) && r.jsCommandline.Some? then r.(commandline := r.jsCommandline.value, jsCommandline := None) else r
  }

  /** One missing answer discards them all; a failed rotation leaves them lying. */
  function Finished(r: Record, answered: bool, rotated: bool): Record {
    if !answered then r.(jsCommandline := None) else if rotated then Replaced(r) else r
  }

  /** What `ladish_app_supervisor_save` asserts about the apps it is about to ask. */
  ghost predicate CanSave(v: seq<Record>) {
    forall i :: 0 <= i < |v| ==> Asks(v[i]) ==> v[i].jsCommandline.None?
  }

  ghost predicate IsFinished(v: seq<Record>, w: seq<Record>, rotated: bool) {
    |w| == |v| && forall i :: 0 <= i < |v| ==> w[i] == Finished(v[i], AllAnswered(v), rotated)
  }

  /** The new commandlines come together or not at all. */
  lemma AllOrNone(v: seq<Record>, w: seq<Record>, rotated: bool)
    requires IsFinished(v, w, rotated)
    ensures AllAnswered(v) && rotated ==>
              forall i :: 0 <= i < |v| && Asks(v[i]) ==> v[i].jsCommandline == Some(w[i].commandline)
    ensures !(AllAnswered(v) && rotated) ==> forall i :: 0 <= i < |v| ==> w[i].commandline == v[i].commandline
    ensures forall i :: 0 <= i < |v| && !Asks(v[i]) ==> w[i].commandline == v[i].commandline
  {
    if AllAnswered(v) && rotated {
      forall i | 0 <= i < |v| && Asks(v[i])
        ensures v[i].jsCommandline == Some(w[i].commandline)
      {
        assert v[i] in v && w[i] == Replaced(v[i]);
      }
    }
  }

  /** The next save finds its assertion kept exactly if the rotation did not fail after all had answered. */
  lemma CanSaveAgain(v: seq<Record>, w: seq<Record>, rotated: bool)
    requires IsFinished(v, w, rotated)
    ensures CanSave(w) <==> !AllAnswered(v) || rotated || forall r <- v :: !Asks(r)
  {
    if AllAnswered(v) && !rotated {
      forall i | 0 <= i < |v| && Asks(v[i])
        ensures !CanSave(w)
      {
        assert v[i] in v && w[i] == v[i];
      }
    } else {
      forall i | 0 <= i < |w| && Asks(w[i])
        ensures w[i].jsCommandline.None?
      {
        assert v[i] in v && w[i] == Finished(v[i], AllAnswered(v), rotated);
      }
    }
  }

  /** An app that answers and then exits keeps its answer through a successful save; after a restart the next save trips on it. */
  lemma AnswerOutlivesSave(r: Record, text: string, pid: nat)
    requires r.jsCommandline == Some(text) && !r.zombie && r.level == JackSession && pid != 0
    ensures var left := Finished(AfterExit(r)[0], true, true);
            left.jsCommandline == Some(text) && !CanSave(Autoran([left.(autorun := true)], [pid]))
  {
    var left := Finished(AfterExit(r)[0], true, true);
    var again := Autoran([left.(autorun := true)], [pid]);
    assert Asks(again[0]) && again[0].jsCommandline == Some(text);
  }
}
