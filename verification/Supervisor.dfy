/** The app supervisor: a list of apps whose processes come and go, and the save that waits for them. */
module Supervisor {
  import opened Wrappers
  import opened Lists
  import opened AppLife
  import opened AppRuns
  import opened SaveBarrier

  /** What a process can be sent, or its LASH client asked for. */
  datatype Order = Term | Kill | Usr1 | LashQuit

  class App {
    const id: nat
    const level: Level
    var pid: nat
    var state: State
    var zombie: bool
    var autorun: bool
    var commandline: string
    var jsCommandline: Option<string>

    /** Everything it was sent so far. */
    ghost var sent: seq<Order>

    constructor (id: nat, level: Level, autorun: bool, commandline: string)
      ensures Rec() == Record(id, level, 0, Stopped, false, autorun, commandline, None)
    {
      this.id, this.level, this.autorun, this.commandline := id, level, autorun, commandline;
      pid, state, zombie, jsCommandline, sent := 0, Stopped, false, None, [];
    }

    ghost function Rec(): Record
      reads this
    {
      Record(id, level, pid, state, zombie, autorun, commandline, jsCommandline)
    }

    /** The assertion at its head is an assignment. */
    method SendSignal(order: Order)
      requires pid != 0
      modifies this`state, this`sent
      ensures state == Started && sent == old(sent) + [order]
    {
      state := Started;
      sent := sent + [order];
    }

    /** A LASH client may be asked over D-Bus instead. */
    method InitiateStop()
      requires pid != 0
      modifies this`state, this`sent
      ensures state == Stopping
      ensures sent == old(sent) + [Term] || (level == Lash && sent == old(sent) + [LashQuit])
    {
      var quit: bool := *;
      if level == Lash && quit {
        sent := sent + [LashQuit];
      } else {
        SendSignal(Term);
      }
      state := Stopping;
    }

    method Kill()
      requires pid != 0
      modifies this`state, this`sent
      ensures state == Killed && sent == old(sent) + [Order.Kill]
    {
      SendSignal(Order.Kill);
      state := Killed;
    }
  }

  ghost function Records(s: seq<App>): (v: seq<Record>)
    reads s
    ensures |v| == |s| && forall i :: 0 <= i < |s| ==> v[i] == s[i].Rec()
  {
    if s == [] then []
    else
      assert forall i :: 0 <= i < |s| - 1 ==> s[..|s| - 1][i] == s[i];
      Records(s[..|s| - 1]) + [s[|s| - 1].Rec()]
  }

  /** What each of them had been sent. */
  ghost function Orders(s: seq<App>): (was: seq<seq<Order>>)
    reads s
    ensures |was| == |s| && forall i :: 0 <= i < |s| ==> was[i] == s[i].sent
  {
    if s == [] then []
    else
      assert forall i :: 0 <= i < |s| - 1 ==> s[..|s| - 1][i] == s[i];
      Orders(s[..|s| - 1]) + [s[|s| - 1].sent]
  }

  ghost function Ids(s: seq<App>): (ids: seq<nat>)
    ensures |ids| == |s| && forall i :: 0 <= i < |s| ==> ids[i] == s[i].id
  {
    seq(|s|, i requires 0 <= i < |s| => s[i].id)
  }

  /** Ids are given out in order, from 1, and never again. */
  ghost predicate Ascending(ids: seq<nat>, next: nat) {
    && next > 0
    && (forall i :: 0 <= i < |ids| ==> 0 < ids[i] < next)
    && (forall i, j :: 0 <= i < j < |ids| ==> ids[i] < ids[j])
  }

  /** Whoever has yet to answer is still listed. */
  ghost predicate Covers(ids: seq<nat>, t: Track) {
    t.Saving? ==> Distinct(t.waiting) && forall k :: 0 <= k < |t.waiting| ==> t.waiting[k] in ids
  }

  lemma IdsWithout(s: seq<App>, i: nat, next: nat, t: Track)
    requires i < |s| && Ascending(Ids(s), next) && Covers(Ids(s), t) && (t.Saving? ==> s[i].id !in t.waiting)
    ensures Ascending(Ids(s[..i] + s[i + 1..]), next) && Covers(Ids(s[..i] + s[i + 1..]), t)
  {
    var ids := Ids(s);
    assert Ids(s[..i] + s[i + 1..]) == ids[..i] + ids[i + 1..];
    assert ids == ids[..i] + [ids[i]] + ids[i + 1..];
  }

  lemma AppsDiffer(s: seq<App>, next: nat)
    requires Ascending(Ids(s), next)
    ensures forall i, j :: 0 <= i < |s| && 0 <= j < |s| && i != j ==> s[i] != s[j] && s[i].id != s[j].id
  {
    assert forall i :: 0 <= i < |s| ==> Ids(s)[i] == s[i].id;
  }

  lemma IdsAdd(s: seq<App>, app: App, t: Track)
    requires Ascending(Ids(s), app.id) && Covers(Ids(s), t)
    ensures Ascending(Ids(s + [app]), app.id + 1) && Covers(Ids(s + [app]), t)
    ensures t.Saving? ==> app.id !in t.waiting
  {
    assert Ids(s + [app]) == Ids(s) + [app.id];
  }

  /** A zombie that was told to stop, after having been sent `was`; or else an app that was sent nothing more. */
  ghost predicate ToldToGo(app: App, was: seq<Order>)
    reads app
  {
    if app.pid != 0 then
      && app.state == Stopping && app.zombie
      && (app.sent == was + [Term] || (app.level == Lash && app.sent == was + [LashQuit]))
    else app.sent == was
  }

  lemma ClearedNone()
    ensures Cleared([]) == [] && Records([]) == []
  {
  }

  class AppSupervisor {
    var apps: seq<App>
    var nextId: nat
    var version: nat
    var hasDir: bool
    var tempDir: bool
    var pending: nat
    var callback: Option<nat>

    ghost var log: seq<Event>
    ghost var track: Track

    ghost predicate Listed()
      reads this`apps, this`nextId
    {
      Ascending(Ids(apps), nextId)
    }

    /** An app that has yet to answer is to be kept, and has no new commandline. */
    ghost predicate Well(a: App)
      reads this`hasDir, this`track, a
    {
      && Coherent(a.Rec()) && (a.level == JackSession && !a.zombie ==> hasDir)
      && (track.Saving? && a.id in track.waiting ==> a.level == JackSession && !a.zombie && a.jsCommandline.None?)
    }

    ghost predicate Living()
      reads this`apps, this`hasDir, this`track, apps
    {
      forall i :: 0 <= i < |apps| ==> Well(apps[i])
    }

    ghost predicate Barrier()
      reads this`tempDir, this`pending, this`callback, this`log, this`track
    {
      && Follow(log) == Some(track)
      && match track {
           case Idle => !tempDir && pending == 0 && callback == None
           case Saving(cb, all, asked, waiting) =>
             && asked <= |all| && pending == |all| - asked + |waiting|
             && tempDir == (pending > 0) && callback == Some(cb)
         }
    }

    ghost predicate Waits()
      reads this`apps, this`track
    {
      Covers(Ids(apps), track)
    }

    ghost predicate Core()
      reads this, apps
    {
      Listed() && Living() && Barrier() && Waits()
    }

    /** The apps and the next id as values. */
    ghost function Now(): Life
      reads this`apps, this`nextId, apps
    {
      Life(Records(apps), nextId)
    }

    lemma IsNumbered()
      requires Listed()
      ensures Numbered(Now())
    {
      hide Records;
      assert forall i :: 0 <= i < |apps| ==> Ids(apps)[i] == Records(apps)[i].id;
    }

    /** Between calls a save that is not over waits for somebody. */
    ghost predicate Valid()
      reads this, apps
    {
      Core() && (track.Saving? ==> track.asked == |track.apps| && track.waiting != [])
    }

    constructor ()
      ensures Valid() && apps == [] && nextId == 1 && log == []
    {
      apps, nextId, version, hasDir, tempDir, pending, callback := [], 1, 0, false, false, 0, None;
      log, track := [], Idle;
    }

    method SetDirectory()
      requires Valid() && pending == 0
      modifies this`hasDir
      ensures Valid() && hasDir
    {
      hasDir := true;
    }

    method Append(level: Level, autorun: bool, commandline: string) returns (app: App)
      requires Valid() && (level == JackSession ==> hasDir)
      modifies this`apps, this`nextId, this`version
      ensures Valid() && fresh(app) && apps == old(apps) + [app] && nextId == old(nextId) + 1 && version == old(version) + 1
      ensures app.Rec() == Added(old(nextId), level, autorun, commandline)
    {
      hide Records, Barrier, Ids, Ascending, Covers;
      app := new App(nextId, level, autorun, commandline);
      nextId := nextId + 1;
      ghost var before := apps;
      apps := apps + [app];
      version := version + 1;
      IdsAdd(before, app, track);
      assert forall k :: 0 <= k < |before| ==> apps[k] == before[k] && Well(before[k]);
    }

    method Add(level: Level, autorun: bool, commandline: string) returns (app: App?)
      requires Valid()
      modifies this`apps, this`nextId, this`version
      ensures Valid()
      ensures app == null <==> level == JackSession && !hasDir
      ensures app == null ==> apps == old(apps) && nextId == old(nextId) && version == old(version)
      ensures app != null ==>
                && fresh(app) && apps == old(apps) + [app] && nextId == old(nextId) + 1 && version == old(version) + 1
                && app.id == old(nextId) && app.level == level && app.autorun == autorun && app.commandline == commandline
                && app.pid == 0 && app.state == Stopped && !app.zombie && app.jsCommandline == None
                && Now() == After(old(Now()), Adds(level, autorun, commandline))
    {
      hide Records, Valid;
      if level == JackSession && !hasDir {
        return null;
      }
      app := Append(level, autorun, commandline);
      assert Records(apps) == old(Records(apps)) + [app.Rec()];
    }

    method Launch(app: App, pid: nat)
      requires Valid() && app in apps && app.pid == 0
      modifies this`version, app`pid, app`state, app`zombie
      ensures Valid() && app.Rec() == Launched(old(app.Rec()), pid) && old(app.state) == Stopped
      ensures version == old(version) + if pid != 0 then 1 else 0
    {
      hide Barrier, Ids, Ascending, Covers, Records;
      assert Well(app);
      app.zombie := false;
      assert app.level == JackSession ==> hasDir;
      app.pid := pid;
      if app.pid != 0 {
        app.state := Started;
        version := version + 1;
      }
    }

    /** `pid` is what executing the app yields, 0 if that fails. */
    method StartApp(app: App, pid: nat) returns (ok: bool)
      requires Valid() && app in apps && app.pid == 0
      modifies this`version, app`pid, app`state, app`zombie
      ensures Valid() && !app.zombie && ok == (pid != 0) && app.pid == pid
      ensures if ok then app.state == Started && version == old(version) + 1 else app.state == old(app.state) == Stopped && version == old(version)
      ensures Now() == After(old(Now()), Starts(app.id, pid))
    {
      hide Barrier, Ids, Ascending, Covers, Records, Well, Waits;
      AppsDiffer(apps, nextId);
      ghost var v := Records(apps);
      ghost var k :| 0 <= k < |apps| && apps[k] == app;
      Launch(app, pid);
      OneChanged(v, Records(apps), k, Starts(app.id, pid));
      ok := pid != 0;
    }

    method StopApp(app: App)
      requires Valid() && app in apps && app.pid != 0
      modifies app`state, app`sent
      ensures app.sent == old(app.sent) + [Term] || (app.level == Lash && app.sent == old(app.sent) + [LashQuit])
      ensures Valid() && app.state == Stopping && Now() == After(old(Now()), Stops(app.id))
    {
      hide Barrier, Ids, Ascending, Covers, Records;
      AppsDiffer(apps, nextId);
      ghost var v := Records(apps);
      ghost var k :| 0 <= k < |apps| && apps[k] == app;
      app.InitiateStop();
      OneChanged(v, Records(apps), k, Stops(app.id));
    }

    method KillApp(app: App)
      requires Valid() && app in apps && app.pid != 0
      modifies app`state, app`sent
      ensures app.sent == old(app.sent) + [Order.Kill]
      ensures Valid() && app.state == Killed && Now() == After(old(Now()), Kills(app.id))
    {
      hide Barrier, Ids, Ascending, Covers, Records;
      AppsDiffer(apps, nextId);
      ghost var v := Records(apps);
      ghost var k :| 0 <= k < |apps| && apps[k] == app;
      app.Kill();
      OneChanged(v, Records(apps), k, Kills(app.id));
    }

    /** `remove_app_internal` of the app at `i`. */
    method RemoveInternal(i: nat)
      requires Listed() && Barrier() && Waits() && i < |apps|
      requires apps[i].pid == 0 && (track.Saving? ==> apps[i].id !in track.waiting)
      modifies this`apps, this`version
      ensures Listed() && Barrier() && Waits() && apps == old(apps[..i] + apps[i + 1..]) && version == old(version) + 1
    {
      hide Barrier, Ids, Ascending, Covers;
      IdsWithout(apps, i, nextId, track);
      apps := apps[..i] + apps[i + 1..];
      version := version + 1;
    }

    method Find(app: App) returns (i: nat)
      requires app in apps
      ensures i < |apps| && apps[i] == app
    {
      i := 0;
      while apps[i] != app
        invariant i < |apps| && app !in apps[..i]
        decreases |apps| - i
      {
        i := i + 1;
      }
    }

    method RemoveAt(i: nat)
      requires Valid() && i < |apps| && apps[i].pid == 0 && (track.Saving? ==> apps[i].id !in track.waiting)
      modifies this`apps, this`version
      ensures Valid() && version == old(version) + 1 && apps == old(apps[..i] + apps[i + 1..])
    {
      hide Barrier, Ids, Ascending, Covers, Records, Well;
      RemoveInternal(i);
      assert forall j :: 0 <= j < |apps| ==> apps[j] == if j < i then old(apps)[j] else old(apps)[j + 1];
    }

    /** Takes a stopped app out; one that a save still waits for must stay, or its answer comes to a freed app. */
    method RemoveApp(app: App)
      requires Valid() && app in apps && app.pid == 0 && (track.Saving? ==> app.id !in track.waiting)
      modifies this`apps, this`version
      ensures Valid() && version == old(version) + 1
      ensures exists i :: 0 <= i < |old(apps)| && old(apps)[i] == app && apps == old(apps[..i] + apps[i + 1..])
      ensures Now() == After(old(Now()), Removes(app.id))
    {
      hide Barrier, Ids, Ascending, Covers, Records, Well, Waits, Living, Without;
      var i := Find(app);
      NowWithout(i);
      RemoveAt(i);
    }

    lemma NowWithout(i: nat)
      requires Listed() && i < |apps|
      ensures Without(Records(apps), apps[i].id) == Records(apps[..i] + apps[i + 1..])
    {
      hide Ids, Ascending, Records, Without;
      AppsDiffer(apps, nextId);
      ghost var v := Records(apps);
      WithoutAt(v, i);
      assert Records(apps[..i] + apps[i + 1..]) == v[..i] + v[i + 1..];
    }

    /** The end of a process: its app, the first with that pid, stops, or goes if it is a zombie. */
    method ChildExit(pid: nat) returns (found: bool, ghost at: nat)
      requires Valid() && pid != 0
      modifies this`apps, this`version, apps`pid, apps`state
      ensures !found ==> apps == old(apps) && forall app <- apps :: app.pid == old(app.pid) && app.state == old(app.state)
      ensures found ==>
                && at < |old(apps)| && old(apps[at].pid) == pid && (forall j :: 0 <= j < at ==> old(apps[j].pid) != pid)
                && (if old(apps[at].zombie) then apps == old(apps)[..at] + old(apps)[at + 1..]
                    else apps == old(apps) && apps[at].pid == 0 && apps[at].state == Stopped)
                && forall j :: 0 <= j < |old(apps)| && j != at ==>
                     old(apps)[j].pid == old(apps[j].pid) && old(apps)[j].state == old(apps[j].state)
      ensures Valid() && found == exists i :: 0 <= i < |old(apps)| && old(apps[i].pid) == pid
      ensures Records(apps) == Exited(old(Records(apps)), pid) && Now() == After(old(Now()), Exits(pid))
      ensures version == old(version) + if found then 1 else 0
    {
      hide Barrier, Living, Ids, Ascending, Covers, Records;
      ghost var v := Records(apps);
      var i := 0;
      while i < |apps|
        invariant i <= |apps| && forall j :: 0 <= j < i ==> v[j].pid != pid
      {
        if apps[i].pid == pid {
          ExitedAt(v, pid, i);
          ExitOf(i);
          return true, i;
        }
        i := i + 1;
      }
      NoExit(v, pid);
      return false, 0;
    }

    method ExitOf(i: nat)
      requires Valid() && i < |apps| && apps[i].pid != 0
      modifies this`apps, this`version, apps`pid, apps`state
      ensures Valid() && version == old(version) + 1
      ensures if old(apps[i].zombie) then apps == old(apps)[..i] + old(apps)[i + 1..]
              else apps == old(apps) && apps[i].pid == 0 && apps[i].state == Stopped
      ensures forall j :: 0 <= j < |old(apps)| && j != i ==>
                old(apps)[j].pid == old(apps[j].pid) && old(apps)[j].state == old(apps[j].state)
      ensures var v := old(Records(apps)); Records(apps) == v[..i] + AfterExit(v[i]) + v[i + 1..]
    {
      hide Barrier, Records, Ids, Ascending, Covers, Living, Listed, Waits;
      AppsApart();
      if apps[i].zombie {
        RemoveExited(apps[i], i);
      } else {
        StopExited(apps[i], i);
      }
    }

    method RemoveExited(app: App, i: nat)
      requires Valid() && i < |apps| && app == apps[i] && app.pid != 0 && app.zombie
      modifies this`apps, this`version, app`pid
      ensures Valid() && version == old(version) + 1 && apps == old(apps)[..i] + old(apps)[i + 1..]
      ensures var v := old(Records(apps)); Records(apps) == v[..i] + AfterExit(v[i]) + v[i + 1..]
    {
      hide Barrier, Records, Ids, Ascending, Covers;
      AppsDiffer(apps, nextId);
      ghost var v := Records(apps);
      assert Well(app);
      app.pid := 0;
      RemoveInternal(i);
      assert v[..i] + v[i + 1..] == v[..i] + AfterExit(v[i]) + v[i + 1..];
    }

    method StopExited(app: App, i: nat)
      requires Valid() && i < |apps| && app == apps[i] && app.pid != 0 && !app.zombie
      modifies this`version, app`pid, app`state
      ensures Valid() && version == old(version) + 1 && app.pid == 0 && app.state == Stopped
      ensures var v := old(Records(apps)); Records(apps) == v[..i] + AfterExit(v[i]) + v[i + 1..]
    {
      hide Barrier, Records, Ids, Ascending, Covers;
      AppsDiffer(apps, nextId);
      assert Well(app);
      app.pid := 0;
      app.state := Stopped;
      version := version + 1;
    }

    /** What the walk of `Clear` has done: `n` apps seen, of which `done` is left. */
    ghost predicate Clearing(orig: seq<App>, v: seq<Record>, n: nat, done: seq<Record>)
      reads this, apps, orig
    {
      var k := |done|;
      && Listed() && Barrier() && Waits() && track.Idle?
      && |orig| == |v| && k <= n <= |orig| && |apps| == k + |orig| - n
      && (forall m :: n <= m < |orig| ==> orig[m] == apps[m - n + k] && orig[m].Rec() == v[m])
      && done == Cleared(v[..n]) && forall j :: 0 <= j < k ==> apps[j].Rec() == done[j]
    }

    lemma AppsApart()
      requires Listed()
      ensures forall i, j :: 0 <= i < |apps| && 0 <= j < |apps| && i != j ==> apps[i] != apps[j]
    {
      hide Ids, Ascending;
      AppsDiffer(apps, nextId);
    }

    method ClearRunning(app: App, ghost orig: seq<App>, ghost v: seq<Record>, ghost n: nat, ghost done: seq<Record>)
      requires Clearing(orig, v, n, done) && |done| < |apps| && apps[|done|] == app && app.pid != 0
      modifies app`state, app`sent, app`zombie
      ensures app.state == Stopping && app.zombie
      ensures app.sent == old(app.sent) + [Term] || (app.level == Lash && app.sent == old(app.sent) + [LashQuit])
      ensures Clearing(orig, v, n + 1, done + ClearedOne(v[n])) && |ClearedOne(v[n])| == 1
    {
      hide Barrier, Listed, Waits, Cleared;
      AppsApart();
      assert app == orig[n];
      assert v[..n + 1] == v[..n] + [v[n]];
      ClearedAppend(v[..n], v[n]);
      app.InitiateStop();
      app.zombie := true;
    }

    method ClearStopped(ghost orig: seq<App>, ghost v: seq<Record>, ghost n: nat, ghost done: seq<Record>, k: nat)
      requires Clearing(orig, v, n, done) && k == |done| < |apps| && apps[k].pid == 0
      modifies this`apps, this`version
      ensures Clearing(orig, v, n + 1, done) && version == old(version) + 1 && apps == old(apps[..k] + apps[k + 1..])
    {
      hide Barrier, Ids, Ascending, Covers, Cleared, Coherent;
      assert apps[k] == orig[n];
      assert v[..n + 1] == v[..n] + [v[n]];
      ClearedAppend(v[..n], v[n]);
      RemoveInternal(k);
      assert Cleared(v[..n]) + [] == Cleared(v[..n]);
    }

    lemma ClearingMeans(orig: seq<App>, v: seq<Record>, n: nat, done: seq<Record>)
      requires Clearing(orig, v, n, done)
      ensures |done| <= n <= |orig| == |v| && |apps| == |done| + |orig| - n
      ensures |done| < |apps| ==> apps[|done|] == orig[n] && orig[n].Rec() == v[n]
      ensures n == |orig| ==> done == Cleared(v) && forall j :: 0 <= j < |apps| ==> apps[j].Rec() == done[j]
      ensures n == |orig| ==> Listed() && Barrier() && Waits() && track.Idle?
    {
      if |done| < |apps| {
        assert orig[n] == apps[n - n + |done|];
      }
      if n == |orig| {
        assert v[..n] == v;
      }
    }

    lemma ClearingStarts(v: seq<Record>)
      requires v == Records(apps) && Listed() && Barrier() && Waits() && track.Idle?
      ensures Clearing(apps, v, 0, [])
    {
      ClearedNone();
      assert v[..0] == [];
    }

    method ClearNext(k: nat, ghost orig: seq<App>, ghost v: seq<Record>, ghost n: nat, ghost done: seq<Record>)
        returns (running: bool, ghost left: seq<Record>)
      requires Clearing(orig, v, n, done) && k == |done| < |apps| && Distinct(orig)
      modifies this`apps, this`version, orig`state, orig`sent, orig`zombie
      ensures Clearing(orig, v, n + 1, left) && |left| == if running then k + 1 else k
      ensures n < |orig| && running == (orig[n].pid != 0)
      ensures apps == if running then old(apps) else old(apps)[..k] + old(apps)[k + 1..]
      ensures forall m :: n < m < |orig| ==> orig[m].sent == old(orig[m].sent)
      ensures ToldToGo(orig[n], old(orig[n].sent))
      ensures forall m, was :: 0 <= m < n && old(ToldToGo(orig[m], was)) ==> ToldToGo(orig[m], was)
      ensures version == old(version) + if running then 0 else 1
    {
      hide Clearing;
      ClearingMeans(orig, v, n, done);
      assert orig[n] in orig;
      running := apps[k].pid != 0;
      if running {
        ClearRunning(apps[k], orig, v, n, done);
        left := done + ClearedOne(v[n]);
      } else {
        ClearStopped(orig, v, n, done, k);
        left := done;
      }
    }

    lemma AllToldToGo(orig: seq<App>, was: seq<seq<Order>>)
      requires |orig| == |was| && forall m :: 0 <= m < |orig| ==> ToldToGo(orig[m], was[m])
      ensures forall m :: 0 <= m < |orig| ==> var app := orig[m];
                if app.pid != 0 then
                  && app.state == Stopping && app.zombie
                  && (app.sent == was[m] + [Term] || (app.level == Lash && app.sent == was[m] + [LashQuit]))
                else app.sent == was[m]
    {
    }

    lemma AppsDistinct()
      requires Listed()
      ensures Distinct(apps)
    {
      hide Ids, Ascending;
      AppsDiffer(apps, nextId);
    }

    /** What the walk has done to the objects: `kept` is what is left of the first `n`, and `was` what each had been sent. */
    ghost predicate Walked(orig: seq<App>, was: seq<seq<Order>>, live: set<App>, n: nat, kept: seq<App>)
      reads this`apps, orig
    {
      && n <= |orig| == |was| && apps == kept + orig[n..] && kept == Restrict(orig[..n], live)
      && (forall m :: 0 <= m < |orig| ==> (orig[m] in live <==> orig[m].pid != 0))
      && (forall m :: 0 <= m < n ==> ToldToGo(orig[m], was[m]))
      && forall m :: n <= m < |orig| ==> orig[m].sent == was[m]
    }

    method WalkNext(k: nat, ghost orig: seq<App>, ghost v: seq<Record>, ghost n: nat, ghost done: seq<Record>,
                    ghost was: seq<seq<Order>>, ghost live: set<App>, ghost kept: seq<App>)
        returns (running: bool, ghost left: seq<Record>, ghost more: seq<App>)
      requires Clearing(orig, v, n, done) && k == |done| < |apps| && Distinct(orig)
      requires Walked(orig, was, live, n, kept) && |kept| == k
      modifies this`apps, this`version, orig`state, orig`sent, orig`zombie
      ensures Clearing(orig, v, n + 1, left) && |left| == |more| == if running then k + 1 else k
      ensures Walked(orig, was, live, n + 1, more)
      ensures version == old(version) + if running then 0 else 1
    {
      hide Clearing, ToldToGo, Restrict, Distinct;
      running, left := ClearNext(k, orig, v, n, done);
      RestrictOneMore(orig, live, n);
      more := kept + if running then [orig[n]] else [];
      assert orig[n..] == [orig[n]] + orig[n + 1..];
      assert apps == more + orig[n + 1..];
    }

    lemma LiveOnes(s: seq<App>) returns (live: set<App>)
      ensures forall m :: 0 <= m < |s| ==> (s[m] in live <==> s[m].pid != 0)
    {
      live := set app | app in s && app.pid != 0;
    }

    lemma LiveKept(orig: seq<App>, live: set<App>)
      requires apps == Restrict(orig, live)
      ensures apps == Restrict(orig, Elems(apps))
      ensures forall m :: 0 <= m < |orig| ==> (orig[m] in apps <==> orig[m] in live)
    {
      RestrictAgain(orig, live);
      RestrictMembers(orig, live);
    }

    lemma WalkStarts(was: seq<seq<Order>>, live: set<App>)
      requires |was| == |apps| && forall m :: 0 <= m < |apps| ==> was[m] == apps[m].sent
      requires forall m :: 0 <= m < |apps| ==> (apps[m] in live <==> apps[m].pid != 0)
      ensures Walked(apps, was, live, 0, [])
    {
      assert apps == [] + apps[0..];
      RestrictNothing(live);
    }

    lemma WalkEnds(orig: seq<App>, was: seq<seq<Order>>, live: set<App>, kept: seq<App>)
      requires Walked(orig, was, live, |orig|, kept)
      ensures |orig| == |was| && apps == Restrict(orig, live) && forall m :: 0 <= m < |orig| ==> ToldToGo(orig[m], was[m])
    {
      assert orig[..|orig|] == orig && orig[|orig|..] == [];
    }

    method ClearAll(ghost orig: seq<App>, ghost v: seq<Record>, ghost was: seq<seq<Order>>, ghost live: set<App>)
        returns (lifeless: bool)
      requires Clearing(orig, v, 0, []) && Walked(orig, was, live, 0, []) && Distinct(orig)
      modifies this`apps, this`version, orig`state, orig`sent, orig`zombie
      ensures apps == Restrict(orig, live) && |orig| == |was| && forall m :: 0 <= m < |orig| ==> ToldToGo(orig[m], was[m])
      ensures Clearing(orig, v, |orig|, Cleared(v)) && lifeless == (apps == [])
      ensures version + |apps| == old(version) + |orig|
    {
      hide *;
      lifeless := true;
      var k := 0;
      ghost var n, done, kept := 0, [], [];
      ClearingMeans(orig, v, n, done);
      while k < |apps|
        invariant Clearing(orig, v, n, done) && k == |done| == |kept| <= n <= |orig| == |v| && |apps| == k + |orig| - n
        invariant Walked(orig, was, live, n, kept)
        invariant lifeless == (k == 0) && version + k == old(version) + n
        decreases |orig| - n
      {
        var running;
        running, done, kept := WalkNext(k, orig, v, n, done, was, live, kept);
        if running {
          k := k + 1;
          lifeless := false;
        }
        n := n + 1;
        ClearingMeans(orig, v, n, done);
      }
      WalkEnds(orig, was, live, kept);
      ClearingMeans(orig, v, n, done);
    }

    /** Removes what is stopped, and stops the rest for good; true if nothing is left. */
    method Clear() returns (lifeless: bool)
      requires Valid() && pending == 0
      modifies this`apps, this`version, this`hasDir, apps`state, apps`sent, apps`zombie
      ensures apps == Restrict(old(apps), Elems(apps))
      ensures forall i :: 0 <= i < |old(apps)| ==> var app := old(apps)[i];
                && (app in apps <==> app.pid != 0)
                && if app.pid != 0 then
                  && app.state == Stopping && app.zombie
                  && (app.sent == old(app.sent) + [Term] || (app.level == Lash && app.sent == old(app.sent) + [LashQuit]))
                else app.sent == old(app.sent)
      ensures Valid() && lifeless == (apps == []) && Records(apps) == Cleared(old(Records(apps)))
      ensures Now() == After(old(Now()), Clears)
      ensures version + |apps| == old(version) + |old(apps)|
    {
      hide *;
      NothingPending();
      NowIs();
      ghost var orig, v := apps, Records(apps);
      hasDir := false;
      ghost var live := LiveOnes(apps);
      ghost var was := Orders(apps);
      AppsDistinct();
      WalkStarts(was, live);
      ClearingStarts(v);
      lifeless := ClearAll(orig, v, was, live);
      AllToldToGo(orig, was);
      LiveKept(orig, live);
      ClearingMeans(orig, v, |orig|, Cleared(v));
      ClearedIsValid(v);
      NowIs();
      AfterClears(v, nextId);
    }

    lemma NowIs()
      ensures Now() == Life(Records(apps), nextId)
    {
    }

    /** What the class's own next save asserts, whatever has happened since a save ended in this state. */
    lemma NextSave(v: seq<Record>, rotated: bool, moves: seq<Move>)
      requires Valid() && IsFinished(v, Records(apps), rotated) && forall i :: 0 <= i < |moves| ==> !moves[i].Answers?
      ensures var u := Run(Now(), moves).records;
              CanSave(u) <==> forall j :: 0 <= j < |u| && Asks(u[j]) ==> !Leftover(v, rotated, u[j].id)
    {
      hide Run, IsFinished, CanSave, Leftover, Numbered, Records;
      IsNumbered();
      NextSaveAsserts(v, Records(apps), rotated, nextId, moves);
    }

    lemma ClearedIsValid(v: seq<Record>)
      requires Listed() && Barrier() && Waits() && track.Idle?
      requires |apps| == |Cleared(v)| && forall i :: 0 <= i < |apps| ==> apps[i].Rec() == Cleared(v)[i]
      ensures Valid() && Records(apps) == Cleared(v)
    {
      hide Ids, Ascending, Covers, Barrier, Cleared, Records;
      ClearedAreZombies(v);
      assert forall i :: 0 <= i < |apps| ==> apps[i].Rec() == Cleared(v)[i] && Cleared(v)[i] in Cleared(v);
    }

    lemma NothingPending()
      requires Valid() && pending == 0
      ensures track.Idle? && Listed() && Barrier() && Waits()
    {
    }

    /** Apps that change without losing what keeps them in order. */
    twostate lemma StillValid()
      requires old(Valid()) && apps == old(apps) && nextId == old(nextId) && hasDir == old(hasDir)
      requires tempDir == old(tempDir) && pending == old(pending) && callback == old(callback)
      requires log == old(log) && track == old(track)
      requires forall i :: 0 <= i < |apps| ==> old(Well(apps[i])) ==> Well(apps[i])
      ensures Valid()
    {
    }

    method HaltAll(ghost v: seq<Record>)
      requires Listed() && v == Records(apps)
      modifies apps`state, apps`sent, apps`autorun
      ensures forall j :: 0 <= j < |apps| ==> apps[j].Rec() == Halt(v[j])
      ensures forall j :: 0 <= j < |apps| ==> var app := apps[j];
                if app.pid != 0 then app.sent == old(app.sent) + [Term] || (app.level == Lash && app.sent == old(app.sent) + [LashQuit])
                else app.sent == old(app.sent)
    {
      hide Ids, Ascending, Records;
      AppsDiffer(apps, nextId);
      var i := 0;
      while i < |apps|
        invariant i <= |apps|
        invariant forall j :: 0 <= j < |apps| ==> var app := apps[j];
                    if j < i && app.pid != 0
                    then app.sent == old(app.sent) + [Term] || (app.level == Lash && app.sent == old(app.sent) + [LashQuit])
                    else app.sent == old(app.sent)
        invariant forall j :: 0 <= j < |apps| ==> apps[j].Rec() == if j < i then Halt(v[j]) else v[j]
      {
        if apps[i].pid != 0 {
          apps[i].autorun := true;
          apps[i].InitiateStop();
        }
        i := i + 1;
      }
    }

    /** `ladish_app_supervisor_stop`: what runs is flagged to run again, and stopped. */
    method Stop()
      requires Valid()
      modifies apps`state, apps`sent, apps`autorun
      ensures forall app <- apps :: app.pid != 0 ==>
                && app.autorun && app.state == Stopping
                && (app.sent == old(app.sent) + [Term] || (app.level == Lash && app.sent == old(app.sent) + [LashQuit]))
      ensures forall app <- apps :: app.pid == 0 ==>
                app.autorun == old(app.autorun) && app.state == old(app.state) && app.sent == old(app.sent)
      ensures Valid() && Records(apps) == Halted(old(Records(apps))) && Now() == After(old(Now()), StopsAll)
    {
      hide Barrier, Ids, Ascending, Covers, Records, Halted, Halt;
      ghost var v := Records(apps);
      HaltAll(v);
      HaltedEach(v);
      HaltMeans(v);
      forall i | 0 <= i < |apps| && old(Well(apps[i]))
        ensures Well(apps[i])
      {
        assert old(apps[i].Rec()) == v[i] && apps[i].Rec() == Halt(v[i]);
      }
      StillValid();
    }

    /** The round so far: `done` is what it made of the first apps. */
    ghost predicate Starting(v: seq<Record>, done: seq<Record>, pids: seq<nat>)
      reads this, apps
    {
      && Valid() && |done| <= |apps| == |v| && 0 !in pids && |pids| == Flagged(v[..|done|])
      && done == Autoran(v[..|done|], pids)
      && forall j :: 0 <= j < |apps| ==> apps[j].Rec() == if j < |done| then done[j] else v[j]
    }

    method Unflag(app: App)
      requires Valid() && app in apps && app.pid == 0
      modifies app`autorun
      ensures Valid() && !app.autorun
    {
      hide Ids, Ascending, Covers, Records, Barrier;
      app.autorun := false;
      StillValid();
    }

    method AutorunNext(app: App, pid: nat, ghost v: seq<Record>, ghost done: seq<Record>, ghost pids: seq<nat>)
        returns (ok: bool)
      requires Starting(v, done, pids) && |done| < |apps| && app == apps[|done|] && app.autorun && app.pid == 0
      modifies this`version, app`pid, app`state, app`zombie, app`autorun
      ensures ok == (pid != 0) && Valid()
      ensures [app.Rec()] == Autoran([v[|done|]], [pid])
      ensures ok ==> Starting(v, done + [app.Rec()], pids + [pid])
      ensures forall j :: 0 <= j < |apps| && j != |done| ==> apps[j].Rec() == if j < |done| then done[j] else v[j]
    {
      hide Ids, Ascending, Covers, Records, Living, Barrier, Waits, Autoran, Flagged;
      AppsDiffer(apps, nextId);
      Unflag(app);
      Launch(app, pid);
      ok := pid != 0;
      OneStart(v[|done|], pid);
      if ok {
        RoundNext(v, done, pids, pid);
      }
    }

    /** One app of the round; the first `k` of the `pids` are used up. */
    method AutorunStep(i: nat, pids: seq<nat>, k: nat, ghost v: seq<Record>, ghost done: seq<Record>)
        returns (ok: bool, k': nat)
      requires k <= |pids| && Starting(v, done, pids[..k]) && i == |done| < |apps| && (apps[i].autorun ==> apps[i].pid == 0)
      modifies this`version, apps`pid, apps`state, apps`zombie, apps`autorun
      ensures Valid() && k <= k' <= |pids|
      ensures ok ==> Starting(v, done + [apps[i].Rec()], pids[..k'])
      ensures !ok ==> Records(apps) == Autoran(v, pids)
    {
      ok, k' := true, k;
      hide Valid, Autoran, Records, Flagged;
      if apps[i].autorun {
        var pid := if k < |pids| then pids[k] else 0;
        ok := AutorunNext(apps[i], pid, v, done, pids[..k]);
        if ok {
          k' := k + 1;
          assert pids[..k + 1] == pids[..k] + [pid];
        } else {
          RoundFails(v, done, pids[..k], pids[k..]);
          assert pids == pids[..k] + pids[k..];
          assert Records(apps) == done + [apps[i].Rec()] + v[i + 1..];
        }
      } else {
        RoundSkips(v, done, pids[..k]);
      }
    }

    /**
     * Starts what is flagged, up to the first start that fails; the starts yield `pids`, 0 for a failure. The
     * `k`-th flagged app takes the `k`-th of them.
     */
    method Autorun(pids: seq<nat>)
      requires Valid() && forall i :: 0 <= i < |apps| && apps[i].autorun ==> apps[i].pid == 0
      modifies this`version, apps`pid, apps`state, apps`zombie, apps`autorun
      ensures forall i :: 0 <= i < |apps| ==>
                var app, k := apps[i], old(|set j | 0 <= j < i && apps[j].autorun|);
                if !old(app.autorun) || k > |pids| || 0 in pids[..k] then
                  && app.autorun == old(app.autorun) && app.zombie == old(app.zombie)
                  && app.pid == old(app.pid) && app.state == old(app.state)
                else
                  && !app.autorun && !app.zombie
                  && if k < |pids| && pids[k] != 0 then app.pid == pids[k] && app.state == Started
                     else app.pid == old(app.pid) && app.state == old(app.state)
      ensures Valid() && Records(apps) == Autoran(old(Records(apps)), pids) && Now() == After(old(Now()), Autoruns(pids))
    {
      hide Autoran, Records, Flagged, Valid;
      ghost var v := Records(apps);
      StartFlagged(pids);
      forall i | 0 <= i < |apps|
        ensures var k := old(|set j | 0 <= j < i && apps[j].autorun|);
                apps[i].Rec() ==
                  if !v[i].autorun || k > |pids| || 0 in pids[..k] then v[i]
                  else if k < |pids| && pids[k] != 0 then v[i].(autorun := false, zombie := false, pid := pids[k], state := Started)
                  else v[i].(autorun := false, zombie := false)
      {
        AutoranAt(v, pids, i);
        FlaggedCount(v, i);
        assert (set j | 0 <= j < i && v[j].autorun) == old(set j | 0 <= j < i && apps[j].autorun);
      }
    }

    method StartFlagged(pids: seq<nat>)
      requires Valid() && forall i :: 0 <= i < |apps| && apps[i].autorun ==> apps[i].pid == 0
      modifies this`version, apps`pid, apps`state, apps`zombie, apps`autorun
      ensures Valid() && Records(apps) == Autoran(old(Records(apps)), pids) && Now() == After(old(Now()), Autoruns(pids))
    {
      hide Autoran, Records, Flagged, Valid;
      ghost var v, done := Records(apps), [];
      var i, k := 0, 0;
      RoundStart(v);
      assert pids[..0] == [];
      while i < |apps|
        invariant k <= |pids| && Starting(v, done, pids[..k]) && i == |done|
      {
        assert v[i] == apps[i].Rec();
        var ok;
        ok, k := AutorunStep(i, pids, k, v, done);
        if !ok {
          return;
        }
        done := done + [apps[i].Rec()];
        i := i + 1;
      }
      assert v[..i] == v && Records(apps) == done && pids == pids[..k] + pids[k..];
      RoundEnds(v, pids[..k], pids[k..]);
    }

    ghost method Note(e: Event, expected: Track)
      requires Follow(log) == Some(track) && Step(track, e) == Some(expected)
      modifies this`log, this`track
      ensures Follow(log) == Some(track) && track == expected && log == old(log) + [e]
    {
      FollowOne(log, e);
      log := log + [e];
      track := expected;
    }

    /** The first pass of `ladish_js_save_complete`: is a new commandline missing? */
    method AnyMissing(ghost v: seq<Record>) returns (missing: bool)
      requires v == Records(apps)
      ensures missing == !AllAnswered(v)
    {
      hide Records;
      var i := 0;
      while i < |apps|
        invariant i <= |apps| && forall j :: 0 <= j < i ==> Asks(v[j]) ==> v[j].jsCommandline.Some?
      {
        if apps[i].state == Started && apps[i].level == JackSession && apps[i].jsCommandline.None? {
          assert Asks(v[i]) && v[i] in v;
          return true;
        }
        i := i + 1;
      }
      missing := false;
    }

    method DiscardAnswers(ghost v: seq<Record>)
      requires Listed() && v == Records(apps)
      modifies apps`jsCommandline
      ensures forall j :: 0 <= j < |apps| ==> apps[j].Rec() == v[j].(jsCommandline := None)
    {
      hide Ids, Ascending, Records;
      AppsDiffer(apps, nextId);
      var i := 0;
      while i < |apps|
        invariant i <= |apps|
        invariant forall j :: 0 <= j < |apps| ==> apps[j].Rec() == if j < i then v[j].(jsCommandline := None) else v[j]
      {
        apps[i].jsCommandline := None;
        i := i + 1;
      }
    }

    method TakeAnswers(ghost v: seq<Record>)
      requires Listed() && v == Records(apps) && AllAnswered(v)
      modifies apps`jsCommandline, apps`commandline
      ensures forall j :: 0 <= j < |apps| ==> apps[j].Rec() == Replaced(v[j])
    {
      hide Ids, Ascending, Records;
      AppsDiffer(apps, nextId);
      var i := 0;
      while i < |apps|
        invariant i <= |apps|
        invariant forall j :: 0 <= j < |apps| ==> apps[j].Rec() == if j < i then Replaced(v[j]) else v[j]
      {
        if apps[i].state == Started && apps[i].level == JackSession {
          assert v[i] in v;
          apps[i].commandline := apps[i].jsCommandline.value;
          apps[i].jsCommandline := None;
        }
        i := i + 1;
      }
    }

    /** The apps' side of the end of a save; `rotates` is whether the rotation would succeed. */
    method FinishApps(rotates: bool, ghost v: seq<Record>) returns (success: bool)
      requires Listed() && v == Records(apps)
      modifies apps`jsCommandline, apps`commandline
      ensures success == (AllAnswered(v) && rotates) && IsFinished(v, Records(apps), rotates)
    {
      hide Ids, Ascending, Records, AllAnswered;
      var missing := AnyMissing(v);
      success := false;
      if missing {
        DiscardAnswers(v);
      } else {
        success := rotates;
        if success {
          TakeAnswers(v);
        }
      }
    }

    /** `ladish_js_save_complete`: the new commandlines take effect, or go; then the callback is called. */
    method JsSaveComplete(rotates: bool)
      requires Listed() && Living() && tempDir && pending == 0 && hasDir && Follow(log) == Some(track) && track.Saving?
      requires track.waiting == [] && track.asked == |track.apps| && callback == Some(track.callback)
      modifies this`tempDir, this`callback, this`log, this`track, apps`jsCommandline, apps`commandline
      ensures Core() && track.Idle? && IsFinished(old(Records(apps)), Records(apps), rotates)
      ensures log == old(log) + [Ended(old(track).callback, AllAnswered(old(Records(apps))) && rotates)]
    {
      hide Follow, Ids, Ascending, Covers, Records, AllAnswered, Living, IsFinished;
      ghost var v := Records(apps);
      var success := FinishApps(rotates, v);
      tempDir := false;
      Note(Ended(callback.value, success), Idle);
      callback := None;
      FinishedLiving(rotates);
      NobodyWaits(Ids(apps));
    }

    twostate lemma FinishedLiving(rotated: bool)
      requires apps == old(apps) && hasDir == old(hasDir) && old(Living()) && track.Idle?
      requires IsFinished(old(Records(apps)), Records(apps), rotated)
      ensures Living()
    {
      hide AllAnswered, Records, Coherent;
      ghost var v := old(Records(apps));
      forall i | 0 <= i < |apps|
        ensures Well(apps[i])
      {
        assert old(Well(apps[i]) && apps[i].Rec() == v[i]);
        FinishedKeeps(v[i], AllAnswered(v), rotated);
      }
    }

    /** An app's answer is noted: it waits no more. */
    method TakeAnswer(app: App, text: Option<string>)
      requires Core() && app in apps && track.Saving? && app.id in track.waiting
      modifies this`log, this`track, app`jsCommandline
      ensures Listed() && Living() && Waits() && Follow(log) == Some(track) && hasDir
      ensures track == old(track).(waiting := Erase(old(track).waiting, app.id)) && |track.waiting| == |old(track).waiting| - 1
      ensures log == old(log) + [Answered(app.id)]
      ensures Records(apps) == Changed(old(Records(apps)), Answers(app.id, text))
    {
      hide Follow, Ids, Records, Erase;
      AppsDiffer(apps, nextId);
      assert Well(app);
      hide Ascending, Coherent;
      ghost var t := track;
      EraseLeaves(t.waiting, app.id);
      app.jsCommandline := text;
      Note(Answered(app.id), t.(waiting := Erase(t.waiting, app.id)));
      forall i | 0 <= i < |apps|
        ensures Well(apps[i])
      {
        assert old(Well(apps[i]));
      }
    }

    /** `ladish_js_app_save_complete`: one app's answer, or its refusal; the last one completes the save. */
    method AppSaveComplete(app: App, text: Option<string>, rotates: bool)
      requires Core() && app in apps && track.Saving? && app.id in track.waiting
      modifies this`pending, this`tempDir, this`callback, this`log, this`track, apps`jsCommandline, apps`commandline
      ensures Core()
      ensures var t, v := old(track), Changed(old(Records(apps)), Answers(app.id, text));
              if old(pending) == 1 then
                && track.Idle? && IsFinished(v, Records(apps), rotates)
                && log == old(log) + [Answered(app.id), Ended(t.callback, AllAnswered(v) && rotates)]
              else
                && track == t.(waiting := Erase(t.waiting, app.id)) && Records(apps) == v
                && log == old(log) + [Answered(app.id)]
    {
      hide Follow, Ids, Ascending, Records, AllAnswered, Coherent, Living, Listed, Waits, Erase, IsFinished, Changed;
      TakeAnswer(app, text);
      if pending != 1 {
        pending := pending - 1;
        return;
      }
      pending := 0;
      JsSaveComplete(rotates);
    }

    lemma OneApp(app: App)
      requires Core() && app in apps
      ensures forall i :: 0 <= i < |apps| ==> (apps[i].id == app.id <==> apps[i] == app)
    {
      hide Ids, Ascending;
      AppsDiffer(apps, nextId);
    }

    /** A jack session replies for an app that was asked. */
    method Reply(app: App, text: Option<string>, rotates: bool)
      requires Valid() && app in apps && track.Saving? && app.id in track.waiting
      modifies this`pending, this`tempDir, this`callback, this`log, this`track, apps`jsCommandline, apps`commandline
      ensures var u := Changed(old(Records(apps)), Answers(app.id, text));
              AllAnswered(u) <==> forall i :: 0 <= i < |apps| && apps[i].state == Started && apps[i].level == JackSession ==>
                (if apps[i] == app then text else old(apps[i].jsCommandline)).Some?
      ensures var last, all := old(|track.waiting|) == 1, AllAnswered(Changed(old(Records(apps)), Answers(app.id, text)));
              forall i :: 0 <= i < |apps| ==>
                var told := if apps[i] == app then text else old(apps[i].jsCommandline);
                var asks := apps[i].state == Started && apps[i].level == JackSession;
                && apps[i].jsCommandline == (if last && (!all || (rotates && asks)) then None else told)
                && Some(apps[i].commandline) == if last && all && rotates && asks then told else Some(old(apps[i].commandline))
      ensures Valid()
      ensures var t, v := old(track), Changed(old(Records(apps)), Answers(app.id, text));
              if |t.waiting| == 1 then
                && track.Idle? && IsFinished(v, Records(apps), rotates)
                && log == old(log) + [Answered(app.id), Ended(t.callback, AllAnswered(v) && rotates)]
              else
                && track == t.(waiting := Erase(t.waiting, app.id)) && |track.waiting| == |t.waiting| - 1
                && Records(apps) == v && log == old(log) + [Answered(app.id)]
                && Now() == After(old(Now()), Answers(app.id, text))
    {
      hide Follow, Ids, Ascending, Records, AllAnswered, Coherent, Living, Listed, Erase, IsFinished, Changed;
      EraseLeaves(track.waiting, app.id);
      OneApp(app);
      ghost var v, last := Records(apps), |track.waiting| == 1;
      AllHaveAnswered(v, app.id, text);
      AppSaveComplete(app, text, rotates);
      if last {
        AnswerEnds(v, app.id, text, Records(apps), rotates);
      } else {
        AnswerNoted(v, app.id, text);
      }
    }

    /** The first pass of a save counts whom it is going to ask. */
    method CountPending(ghost v: seq<Record>)
      requires pending == 0 && v == Records(apps)
      modifies this`pending
      ensures pending == |AskIds(v)|
    {
      hide Records, AskIds;
      var i := 0;
      AskIdsNone(v);
      while i < |apps|
        invariant i <= |apps| && pending == |AskIds(v[..i])|
      {
        AskIdsNext(v, i);
        if apps[i].state == Started && apps[i].level == JackSession {
          pending := pending + 1;
        }
        i := i + 1;
      }
      assert v[..i] == v;
    }

    /** Halfway through the asking: the first `i` apps were seen, and some of those may still answer. */
    ghost predicate Asking(v: seq<Record>, i: nat, cb: nat, refused: set<nat>)
      reads this, apps
    {
      && Core() && i <= |v| == |apps|
      && track.Saving? && track.callback == cb && track.apps == AskIds(v) && track.asked == |AskIds(v[..i])|
      && track.waiting == Accepted(AskIds(v[..i]), refused) && (AskIds(v) != [] <==> pending > 0)
      && (forall j :: i <= j < |apps| ==> apps[j].id !in track.waiting)
      && forall j :: 0 <= j < |apps| ==> apps[j].Rec() == v[j]
    }

    /** The last app refused too, and so the save is over already. */
    ghost predicate Refused(v: seq<Record>, i: nat, cb: nat, refused: set<nat>)
      reads this, apps
    {
      && Core() && i <= |v| == |apps|
      && track.Idle? && |AskIds(v[..i])| == |AskIds(v)| && AskIds(v) != [] && Accepted(AskIds(v), refused) == []
      && log != [] && log[|log| - 1] == Ended(cb, false)
      && forall j :: 0 <= j < |apps| ==> apps[j].Rec() == v[j].(jsCommandline := None)
    }

    method AskApp(app: App, i: nat, ghost v: seq<Record>, cb: nat, refused: set<nat>)
      requires Asking(v, i, cb, refused) && i < |apps| && apps[i] == app && Asks(v[i]) && CanSave(v)
      modifies this`log, this`track
      ensures Core() && track.Saving? && track.callback == cb && track.apps == AskIds(v)
      ensures track.asked == |AskIds(v[..i + 1])|
      ensures app.id !in old(track.waiting) && track.waiting == Accepted(AskIds(v[..i]), refused) + [app.id]
      ensures forall j :: i < j < |apps| ==> apps[j].id !in track.waiting
      ensures log == old(log) + [Asked(app.id)]
    {
      hide Follow, Ids, Records, AskIds, Accepted;
      AppsDiffer(apps, nextId);
      AskIdsNext(v, i);
      hide Ascending;
      assert Well(app) && app.Rec() == v[i];
      ghost var t := track;
      assert AskIds(v)[t.asked] == app.id;
      Note(Asked(app.id), t.(asked := t.asked + 1, waiting := t.waiting + [app.id]));
      assert Ids(apps)[i] == app.id;
      forall j | 0 <= j < |apps|
        ensures Well(apps[j])
      {
        assert old(Well(apps[j]));
      }
    }

    /** An app refuses: its completion is called on the spot. */
    method Refuse(app: App, i: nat, ghost v: seq<Record>, cb: nat, refused: set<nat>)
      requires Core() && i < |apps| == |v| && apps[i] == app && Asks(v[i]) && CanSave(v)
      requires track.Saving? && track.callback == cb && track.apps == AskIds(v)
      requires track.asked == |AskIds(v[..i + 1])| && app.id in refused
      requires app.id !in Accepted(AskIds(v[..i]), refused) && track.waiting == Accepted(AskIds(v[..i]), refused) + [app.id]
      requires forall j :: i < j < |apps| ==> apps[j].id !in track.waiting
      requires forall j :: 0 <= j < |apps| ==> apps[j].Rec() == v[j]
      modifies this`pending, this`tempDir, this`callback, this`log, this`track, apps`jsCommandline, apps`commandline
      ensures Asking(v, i + 1, cb, refused) || Refused(v, i + 1, cb, refused)
      ensures old(log) <= log
    {
      hide *;
      NoAnswerYet(v, i);
      BarrierMeans();
      ghost var t, n := track, pending;
      EraseLeaves(t.waiting, app.id);
      EraseLast(Accepted(AskIds(v[..i]), refused), app.id);
      AcceptedNext(v, i, refused);
      AppSaveComplete(app, None, false);
      if n == 1 {
        NowRefused(v, i + 1, cb, refused);
      } else {
        BarrierMeans();
        StillAsking(v, i + 1, cb, refused, t.waiting, app.id);
      }
    }

    lemma BarrierMeans()
      requires Core() && track.Saving?
      ensures track.asked <= |track.apps| && pending == |track.apps| - track.asked + |track.waiting|
      ensures Distinct(track.waiting)
    {
    }

    lemma AcceptedNext(v: seq<Record>, i: nat, refused: set<nat>)
      requires i < |v|
      ensures Accepted(AskIds(v[..i + 1]), refused)
           == Accepted(AskIds(v[..i]), refused) + if Asks(v[i]) && v[i].id !in refused then [v[i].id] else []
      ensures |AskIds(v[..i + 1])| == |AskIds(v)| ==> AskIds(v[..i + 1]) == AskIds(v)
    {
      hide AskIds, Accepted;
      AskIdsNext(v, i);
      if Asks(v[i]) {
        AcceptedOneMore(AskIds(v[..i]), v[i].id, refused);
      } else {
        assert AskIds(v[..i]) + [] == AskIds(v[..i]);
      }
    }

    lemma NowRefused(v: seq<Record>, i: nat, cb: nat, refused: set<nat>)
      requires Core() && track.Idle? && i <= |v| == |apps| && IsFinished(v, Records(apps), false) && !AllAnswered(v)
      requires Accepted(AskIds(v), refused) == []
      requires |AskIds(v[..i])| == |AskIds(v)| > 0 && log != [] && log[|log| - 1] == Ended(cb, false)
      ensures Refused(v, i, cb, refused)
    {
      hide Core, Records, AskIds, AllAnswered, Accepted;
    }

    lemma StillAsking(v: seq<Record>, i: nat, cb: nat, refused: set<nat>, waiting: seq<nat>, id: nat)
      requires Core() && i <= |v| == |apps| && Records(apps) == v && pending > 0 && AskIds(v) != []
      requires track.Saving? && track.callback == cb && track.apps == AskIds(v) && track.asked == |AskIds(v[..i])|
      requires Distinct(waiting) && id in waiting && track.waiting == Erase(waiting, id) == Accepted(AskIds(v[..i]), refused)
      requires forall j :: i <= j < |apps| ==> apps[j].id !in waiting
      ensures Asking(v, i, cb, refused)
    {
      hide Core, Records, AskIds, Erase, Accepted;
      EraseLeaves(waiting, id);
    }

    /** A jack session app is asked, if it can be. */
    method SaveJsApp(app: App, i: nat, ghost v: seq<Record>, cb: nat, refused: set<nat>)
      requires Asking(v, i, cb, refused) && i < |apps| && apps[i] == app && Asks(v[i]) && CanSave(v)
      modifies this`pending, this`tempDir, this`callback, this`log, this`track, apps`jsCommandline, apps`commandline
      ensures Asking(v, i + 1, cb, refused) || Refused(v, i + 1, cb, refused)
      ensures old(log) <= log
    {
      hide Core, Records, AskIds, CanSave, Accepted;
      assert app.id == v[i].id;
      AcceptedNext(v, i, refused);
      AskApp(app, i, v, cb, refused);
      if app.id in refused {
        Refuse(app, i, v, cb, refused);
      }
    }

    lemma NoAnswerYet(v: seq<Record>, i: nat)
      requires Core() && i < |apps| == |v| && Asks(v[i]) && CanSave(v)
      requires forall j :: 0 <= j < |apps| ==> apps[j].Rec() == v[j]
      ensures Records(apps) == v && apps[i].id == v[i].id
      ensures Changed(v, Answers(v[i].id, None)) == v && !AllAnswered(v)
      ensures 0 < |AskIds(v[..i + 1])| <= |AskIds(v)|
    {
      hide AskIds, Records;
      AppsDiffer(apps, nextId);
      AskIdsNext(v, i);
      assert v[i] in v;
      forall j | 0 <= j < |v| && v[j].id == v[i].id
        ensures j == i
      {
        assert apps[j].Rec() == v[j] && apps[i].Rec() == v[i];
      }
    }

    /** `ladish_app_initiate_save`, for whatever is started. */
    method SaveNext(i: nat, ghost v: seq<Record>, cb: nat, refused: set<nat>)
      requires (Asking(v, i, cb, refused) || Refused(v, i, cb, refused)) && i < |apps| && CanSave(v)
      modifies this`pending, this`tempDir, this`callback, this`log, this`track
      modifies apps`state, apps`sent, apps`jsCommandline, apps`commandline
      ensures Asking(v, i + 1, cb, refused) || Refused(v, i + 1, cb, refused)
      ensures old(log) <= log && |v| == |apps|
      ensures forall j :: 0 <= j < |apps| ==>
                apps[j].sent == old(apps[j].sent) +
                if j == i && v[j].state == Started && v[j].level == Level1 then [Usr1] else []
    {
      hide Follow, Ids, Ascending, Covers, Records, AskIds, Barrier, Accepted;
      var app := apps[i];
      AppsDiffer(apps, nextId);
      assert Well(app) && app.id == v[i].id && app.level == v[i].level && app.state == v[i].state;
      AskIdsNext(v, i);
      AcceptedNext(v, i, refused);
      if app.state == Started && app.level == JackSession {
        SaveJsApp(app, i, v, cb, refused);
      } else if app.state == Started && app.level == Level1 {
        app.SendSignal(Usr1);
      }
    }

    lemma WhoIsAskedNow(v: seq<Record>)
      requires Valid() && v == Records(apps)
      ensures forall id :: id in AskIds(v) <==> exists app <- apps :: app.state == Started && app.level == JackSession && app.id == id
      ensures forall i, j :: 0 <= i < j < |AskIds(v)| ==> AskIds(v)[i] < AskIds(v)[j]
    {
      hide Records, AskIds, Listed, Living, Barrier;
      WhoIsAsked(v);
    }

    lemma WhoIsAsked(v: seq<Record>)
      requires Listed() && v == Records(apps)
      ensures forall id :: id in AskIds(v) <==> exists app <- apps :: app.state == Started && app.level == JackSession && app.id == id
      ensures forall i, j :: 0 <= i < j < |AskIds(v)| ==> AskIds(v)[i] < AskIds(v)[j]
    {
      hide Records, AskIds;
      forall i, j | 0 <= i < j < |v|
        ensures v[i].id < v[j].id
      {
        assert Ids(apps)[i] == v[i].id && Ids(apps)[j] == v[j].id;
      }
      AskIdsAscend(v);
      forall id
        ensures id in AskIds(v) <==> exists app <- apps :: app.state == Started && app.level == JackSession && app.id == id
      {
        if i :| 0 <= i < |v| && v[i].state == Started && v[i].level == JackSession && v[i].id == id {
          assert apps[i] in apps && apps[i].Rec() == v[i];
        }
      }
    }

    lemma AskingLength(v: seq<Record>, i: nat, cb: nat, refused: set<nat>)
      requires Asking(v, i, cb, refused)
      ensures |v| == |apps|
    {
    }

    method AskAll(ghost v: seq<Record>, cb: nat, refused: set<nat>)
      requires Asking(v, 0, cb, refused) && CanSave(v)
      modifies this`pending, this`tempDir, this`callback, this`log, this`track
      modifies apps`state, apps`sent, apps`jsCommandline, apps`commandline
      ensures |v| == |apps| && forall j :: 0 <= j < |apps| ==>
                apps[j].sent == old(apps[j].sent) +
                if v[j].state == Started && v[j].level == Level1 then [Usr1] else []
      ensures (Asking(v, |v|, cb, refused) || Refused(v, |v|, cb, refused)) && old(log) <= log
    {
      hide *;
      AskingLength(v, 0, cb, refused);
      var i := 0;
      while i < |apps|
        invariant i <= |v| == |apps| && (Asking(v, i, cb, refused) || Refused(v, i, cb, refused)) && old(log) <= log
        invariant forall j :: 0 <= j < |apps| ==>
                    apps[j].sent == old(apps[j].sent) +
                    if j < i && v[j].state == Started && v[j].level == Level1 then [Usr1] else []
      {
        SaveNext(i, v, cb, refused);
        i := i + 1;
      }
    }

    /** Counts whom to ask and makes the directory they save to; nobody is asked if that fails. */
    method BeginSave(ghost v: seq<Record>, cb: nat, made: bool, ghost refused: set<nat>) returns (success: bool)
      requires Valid() && track.Idle? && v == Records(apps)
      modifies this`pending, this`tempDir, this`callback, this`log, this`track
      ensures log == old(log) + [Began(cb, AskIds(v))] && success == (AskIds(v) == [] || made)
      ensures if success then Asking(v, 0, cb, refused) else
              && Listed() && Living() && Follow(log) == Some(track) && track == Saving(cb, AskIds(v), 0, [])
              && AskIds(v) != [] && !tempDir && pending == 0 && callback == Some(cb)
    {
      hide Follow, Ids, Ascending, Coherent, Records, AskIds, Living, Asking, Accepted;
      CountPending(v);
      callback := Some(cb);
      Note(Began(cb, AskIds(v)), Saving(cb, AskIds(v), 0, []));
      NobodyWaitsYet();
      success := true;
      if pending > 0 {
        tempDir := true;
        success := made;
        if !success {
          tempDir := false;
          pending := 0;
        }
      }
      if success {
        AskingStarts(v, cb, refused);
      }
    }

    twostate lemma NobodyWaitsYet()
      requires old(Living()) && apps == old(apps) && hasDir == old(hasDir) && track.Saving? && track.waiting == []
      requires forall i :: 0 <= i < |apps| ==> apps[i].Rec() == old(apps[i].Rec())
      ensures Living()
    {
      assert forall i :: 0 <= i < |apps| ==> old(Well(apps[i]));
    }

    lemma AskingStarts(v: seq<Record>, cb: nat, refused: set<nat>)
      requires Core() && v == Records(apps) && track == Saving(cb, AskIds(v), 0, []) && (AskIds(v) != [] <==> pending > 0)
      ensures Asking(v, 0, cb, refused)
    {
      hide Core, Records, AskIds;
      AskIdsNone(v);
      assert Accepted([], refused) == [];
    }

    lemma AskingDone(v: seq<Record>, cb: nat, refused: set<nat>)
      requires Asking(v, |v|, cb, refused)
      ensures Listed() && Living() && Follow(log) == Some(track) && callback == Some(cb)
      ensures track == Saving(cb, AskIds(v), |AskIds(v)|, Accepted(AskIds(v), refused))
      ensures pending == 0 <==> AskIds(v) == []
      ensures pending == 0 ==> track == Saving(cb, [], 0, []) && !tempDir
      ensures pending > 0 ==> Valid() && track.waiting != []
      ensures forall i :: 0 <= i < |apps| ==> apps[i].Rec() == v[i]
    {
      hide Records, AskIds, Ids, Ascending, Covers, Coherent, Follow, Accepted;
      assert v[..|v|] == v;
    }

    lemma RefusedDone(v: seq<Record>, cb: nat, refused: set<nat>)
      requires Refused(v, |v|, cb, refused)
      ensures Valid() && track.Idle? && pending == 0 && callback == None
      ensures AskIds(v) != [] && Accepted(AskIds(v), refused) == []
      ensures log != [] && log[|log| - 1] == Ended(cb, false)
      ensures forall i :: 0 <= i < |apps| ==> apps[i].Rec() == v[i].(jsCommandline := None)
    {
      hide Records, AskIds, Ids, Ascending, Covers, Coherent, Follow, Accepted;
    }

    /** The callback is called here if no app will do it. */
    method EndSave(cb: nat, success: bool)
      requires Listed() && Living() && Follow(log) == Some(track) && track.Saving? && track.callback == cb
      requires track.waiting == [] && track.asked == 0 && (track.apps == [] || !success)
      requires !tempDir && pending == 0 && callback == Some(cb)
      modifies this`callback, this`log, this`track
      ensures Valid() && track.Idle? && log == old(log) + [Ended(cb, success)]
    {
      hide Follow, Ids, Ascending, Covers, Coherent;
      Note(Ended(cb, success), Idle);
      callback := None;
      NobodyWaits(Ids(apps));
      assert forall i :: 0 <= i < |apps| ==> old(Well(apps[i]));
    }

    /**
     * Asks every started jack session app to save itself. `made` is whether the directory they save to can be
     * made; who has `refused` counts as having answered without a result.
     */
    method Save(cb: nat, made: bool, refused: set<nat>)
      requires Valid() && track.Idle? && CanSave(Records(apps))
      modifies this`pending, this`tempDir, this`callback, this`log, this`track
      modifies apps`state, apps`sent, apps`jsCommandline, apps`commandline
      ensures Valid()
      ensures var ids := AskIds(old(Records(apps)));
              var waiting := Accepted(ids, refused);
              && old(log) + [Began(cb, ids)] <= log
              && (if made && waiting != [] then track == Saving(cb, ids, |ids|, waiting)
                  else track == Idle && log[|log| - 1] == Ended(cb, ids == []))
              && (!made && ids != [] ==> log == old(log) + [Began(cb, ids), Ended(cb, false)])
              && (forall id :: id in ids <==> exists app <- apps :: old(app.state) == Started && app.level == JackSession && app.id == id)
              && (forall i, j :: 0 <= i < j < |ids| ==> ids[i] < ids[j])
              && waiting == Restrict(ids, Elems(waiting)) && (forall id :: id in waiting <==> id in ids && id !in refused)
              && (forall app <- apps :: app.sent == old(app.sent) +
                    if (made || ids == []) && old(app.state) == Started && app.level == Level1 then [Usr1] else [])
              && forall i :: 0 <= i < |apps| ==>
                   apps[i].Rec() == if made && ids != [] && waiting == [] then old(apps[i].Rec()).(jsCommandline := None)
                                    else old(apps[i].Rec())
    {
      hide Valid, Records, AskIds, Accepted, CanSave;
      ghost var v := Records(apps);
      WhoIsAskedNow(v);
      AcceptedAre(AskIds(v), refused);
      SaveApps(cb, made, refused);
    }

    method SaveApps(cb: nat, made: bool, refused: set<nat>)
      requires Valid() && track.Idle? && CanSave(Records(apps))
      modifies this`pending, this`tempDir, this`callback, this`log, this`track
      modifies apps`state, apps`sent, apps`jsCommandline, apps`commandline
      ensures Valid()
      ensures var ids := AskIds(old(Records(apps)));
              var waiting := Accepted(ids, refused);
              && old(log) + [Began(cb, ids)] <= log
              && (if made && waiting != [] then track == Saving(cb, ids, |ids|, waiting)
                  else track == Idle && log[|log| - 1] == Ended(cb, ids == []))
              && (!made && ids != [] ==> log == old(log) + [Began(cb, ids), Ended(cb, false)])
              && (forall app <- apps :: app.sent == old(app.sent) +
                    if (made || ids == []) && old(app.state) == Started && app.level == Level1 then [Usr1] else [])
              && forall i :: 0 <= i < |apps| ==>
                   apps[i].Rec() == if made && ids != [] && waiting == [] then old(apps[i].Rec()).(jsCommandline := None)
                                    else old(apps[i].Rec())
    {
      hide Valid, Core, Records, AskIds, Follow, Listed, Living, Barrier, Accepted;
      ghost var v := Records(apps);
      NobodyAccepted(refused);
      var success := BeginSave(v, cb, made, refused);
      if success {
        AskAll(v, cb, refused);
        if track.Saving? {
          AskingDone(v, cb, refused);
        } else {
          RefusedDone(v, cb, refused);
        }
      }
      if pending == 0 && callback.Some? {
        EndSave(cb, success);
      }
    }
  }

  lemma NobodyAccepted(refused: set<nat>)
    ensures Accepted([], refused) == []
  {
  }

  lemma AskIdsNone(v: seq<Record>)
    ensures AskIds(v[..0]) == []
  {
  }

  lemma NobodyWaits(ids: seq<nat>)
    ensures Covers(ids, Idle)
  {
  }

  lemma FinishedKeeps(r: Record, answered: bool, rotated: bool)
    ensures var f := Finished(r, answered, rotated);
            && f.id == r.id && f.level == r.level && f.zombie == r.zombie && f.state == r.state && f.pid == r.pid
            && (Coherent(r) ==> Coherent(f))
  {
  }

  lemma OneStart(r: Record, pid: nat)
    requires r.autorun
    ensures Autoran([r], [pid]) == [if pid == 0 then Unflagged(r) else Unflagged(r).(pid := pid, state := Started)]
  {
    assert [r][1..] == [] && [pid][1..] == [];
  }

  lemma RoundStart(v: seq<Record>)
    ensures v[..0] == [] && Autoran([], []) == [] && Flagged([]) == 0
  {
  }

  lemma RoundNext(v: seq<Record>, done: seq<Record>, pids: seq<nat>, pid: nat)
    requires |done| < |v| && 0 !in pids && |pids| == Flagged(v[..|done|]) && done == Autoran(v[..|done|], pids)
    requires v[|done|].autorun && pid != 0
    ensures Flagged(v[..|done| + 1]) == |pids| + 1
    ensures Autoran(v[..|done| + 1], pids + [pid]) == done + Autoran([v[|done|]], [pid])
  {
    var n := |done|;
    assert v[..n + 1] == v[..n] + [v[n]] && [v[n]][1..] == [];
    FlaggedAppend(v[..n], [v[n]]);
    AutoranSplit(v[..n], [v[n]], pids, [pid]);
  }

  lemma RoundSkips(v: seq<Record>, done: seq<Record>, pids: seq<nat>)
    requires |done| < |v| && 0 !in pids && |pids| == Flagged(v[..|done|]) && done == Autoran(v[..|done|], pids)
    requires !v[|done|].autorun
    ensures Flagged(v[..|done| + 1]) == |pids|
    ensures Autoran(v[..|done| + 1], pids) == done + [v[|done|]]
  {
    var n := |done|;
    assert v[..n + 1] == v[..n] + [v[n]] && [v[n]][1..] == [] && pids + [] == pids;
    FlaggedAppend(v[..n], [v[n]]);
    AutoranSplit(v[..n], [v[n]], pids, []);
  }

  lemma RoundFails(v: seq<Record>, done: seq<Record>, pids: seq<nat>, tail: seq<nat>)
    requires |done| < |v| && 0 !in pids && |pids| == Flagged(v[..|done|]) && done == Autoran(v[..|done|], pids)
    requires v[|done|].autorun && (tail != [] ==> tail[0] == 0)
    ensures Autoran(v, pids + tail) == done + Autoran([v[|done|]], [0]) + v[|done| + 1..]
  {
    hide Autoran;
    var n := |done|;
    assert v == v[..n] + v[n..] && v[n..][1..] == v[n + 1..];
    AutoranSplit(v[..n], v[n..], pids, tail);
    FailsAtOnce(v[n..], tail);
    OneStart(v[n], 0);
  }

  lemma FailsAtOnce(v: seq<Record>, pids: seq<nat>)
    requires v != [] && v[0].autorun && (pids != [] ==> pids[0] == 0)
    ensures Autoran(v, pids) == [Unflagged(v[0])] + v[1..]
  {
  }

  /** Pids that are left over change nothing. */
  lemma RoundEnds(v: seq<Record>, pids: seq<nat>, rest: seq<nat>)
    requires 0 !in pids && |pids| == Flagged(v)
    ensures Autoran(v, pids + rest) == Autoran(v, pids)
  {
    AutoranSplit(v, [], pids, rest);
    assert v + [] == v && Autoran(v, pids) + [] == Autoran(v, pids);
  }
}
