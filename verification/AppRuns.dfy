/** Runs of the supervisor between the start of a save, its end and the next save: whose answers are where. */
module AppRuns {
  import opened Wrappers
  import opened Lists
  import opened AppLife

  /** The apps, and the id the next one gets. */
  datatype Life = Life(records: seq<Record>, nextId: nat)

  datatype Move =
    | Exits(pid: nat)
    | Starts(id: nat, pid: nat)
    | Stops(id: nat)
    | Kills(id: nat)
    | StopsAll
    | Autoruns(pids: seq<nat>)
    | Adds(level: Level, autorun: bool, commandline: string)
    | Removes(id: nat)
    | Clears
    | Answers(id: nat, text: Option<string>)

  /** What a move does to one app that stays. */
  function Change(r: Record, m: Move): Record {
    match m
    case Starts(id, pid) => if r.id == id then Launched(r, pid) else r
    case Stops(id) => if r.id == id then r.(state := Stopping) else r
    case Kills(id) => if r.id == id then r.(state := Killed) else r
    case Answers(id, text) => if r.id == id then r.(jsCommandline := text) else r
    case _ => r
  }

  /** A start that yields no pid only takes the zombie flag away. */
  function Launched(r: Record, pid: nat): Record {
    if pid == 0 then r.(zombie := false) else r.(zombie := false, pid := pid, state := Started)
  }

  function Changed(v: seq<Record>, m: Move): seq<Record> {
    seq(|v|, i requires 0 <= i < |v| => Change(v[i], m))
  }

  /** One app changed, and it is the one that the move names. */
  lemma OneChanged(v: seq<Record>, w: seq<Record>, k: nat, m: Move)
    requires k < |v| == |w| && forall i :: 0 <= i < |v| && i != k ==> w[i] == v[i] && v[i].id != v[k].id
    requires (m.Starts? || m.Stops? || m.Kills? || m.Answers?) && m.id == v[k].id && w[k] == Change(v[k], m)
    ensures w == Changed(v, m)
  {
    assert forall i :: 0 <= i < |v| ==> w[i] == Change(v[i], m);
  }

  function Without(v: seq<Record>, id: nat): seq<Record> {
    if v == [] then [] else if v[0].id == id then v[1..] else [v[0]] + Without(v[1..], id)
  }

  lemma {:induction false} WithoutAt(v: seq<Record>, i: nat)
    requires i < |v| && forall j :: 0 <= j < i ==> v[j].id != v[i].id
    ensures Without(v, v[i].id) == v[..i] + v[i + 1..]
  {
    if i > 0 {
      WithoutAt(v[1..], i - 1);
      assert [v[0]] + (v[1..][..i - 1] + v[i + 1..]) == v[..i] + v[i + 1..];
    }
  }

  function Added(nextId: nat, level: Level, autorun: bool, commandline: string): Record {
    Record(nextId, level, 0, Stopped, false, autorun, commandline, None)
  }

  function After(s: Life, m: Move): Life {
    match m
    case Exits(pid) => s.(records := Exited(s.records, pid))
    case StopsAll => s.(records := Halted(s.records))
    case Autoruns(pids) => s.(records := Autoran(s.records, pids))
    case Adds(level, autorun, commandline) =>
      Life(s.records + [Added(s.nextId, level, autorun, commandline)], s.nextId + 1)
    case Removes(id) => s.(records := Without(s.records, id))
    case Clears => s.(records := Cleared(s.records))
    case _ => s.(records := Changed(s.records, m))
  }

  lemma AfterClears(v: seq<Record>, next: nat)
    ensures After(Life(v, next), Clears) == Life(Cleared(v), next)
  {
  }

  function Run(s: Life, moves: seq<Move>): Life {
    if moves == [] then s else After(Run(s, moves[..|moves| - 1]), moves[|moves| - 1])
  }

  // ----- whose answer an app holds

  /** The new commandline that an app with this id holds. */
  function Held(v: seq<Record>, id: nat): Option<string> {
    if v == [] then None else if v[0].id == id then v[0].jsCommandline else Held(v[1..], id)
  }

  /** What an app was last told during the run, or else what it held before. */
  function Holds(v: seq<Record>, moves: seq<Move>, id: nat): Option<string> {
    if moves == [] then Held(v, id)
    else
      match moves[|moves| - 1]
      case Answers(answering, text) => if answering == id then text else Holds(v, moves[..|moves| - 1], id)
      case _ => Holds(v, moves[..|moves| - 1], id)
  }

  ghost predicate HasAnswered(moves: seq<Move>, id: nat) {
    exists i :: 0 <= i < |moves| && moves[i].Answers? && moves[i].id == id
  }

  /** Only apps that were added before can answer. */
  ghost predicate Legal(s: Life, moves: seq<Move>) {
    forall i :: 0 <= i < |moves| && moves[i].Answers? ==> moves[i].id < Run(s, moves[..i]).nextId
  }

  ghost predicate Numbered(s: Life) {
    && (forall i :: 0 <= i < |s.records| ==> s.records[i].id < s.nextId)
    && forall i, j :: 0 <= i < j < |s.records| ==> s.records[i].id < s.records[j].id
  }

  /** `w` is `v` without some apps; who stays keeps id, level and new commandline. */
  ghost predicate Descend(v: seq<Record>, w: seq<Record>) {
    if v == [] then w == []
    else (w != [] && SameAnswer(v[0], w[0]) && Descend(v[1..], w[1..])) || Descend(v[1..], w)
  }

  predicate SameAnswer(a: Record, b: Record) {
    a.id == b.id && a.level == b.level && a.jsCommandline == b.jsCommandline
  }

  lemma {:induction false} HeldIs(v: seq<Record>, i: nat)
    requires i < |v| && forall j :: 0 <= j < i ==> v[j].id != v[i].id
    ensures Held(v, v[i].id) == v[i].jsCommandline
  {
    if i > 0 {
      HeldIs(v[1..], i - 1);
    }
  }

  lemma {:induction false} HeldByNone(v: seq<Record>, id: nat)
    requires forall i :: 0 <= i < |v| ==> v[i].id != id
    ensures Held(v, id) == None
  {
    if v != [] {
      HeldByNone(v[1..], id);
    }
  }

  lemma {:induction false} DescendSame(v: seq<Record>)
    ensures Descend(v, v)
  {
    if v != [] {
      DescendSame(v[1..]);
    }
  }

  lemma {:induction false} ExitedDescend(v: seq<Record>, pid: nat)
    ensures Descend(v, Exited(v, pid))
  {
    if v != [] {
      DescendSame(v[1..]);
      ExitedDescend(v[1..], pid);
      assert v[0].pid == pid && v[0].zombie ==> [] + v[1..] == v[1..];
    }
  }

  lemma {:induction false} HaltedDescend(v: seq<Record>)
    ensures Descend(v, Halted(v))
  {
    if v != [] {
      HaltedDescend(v[1..]);
    }
  }

  lemma {:induction false} AutoranDescend(v: seq<Record>, pids: seq<nat>)
    ensures Descend(v, Autoran(v, pids))
  {
    if v != [] {
      DescendSame(v[1..]);
      AutoranDescend(v[1..], pids);
      if pids != [] {
        AutoranDescend(v[1..], pids[1..]);
      }
    }
  }

  lemma {:induction false} ClearedDescend(v: seq<Record>)
    ensures Descend(v, Cleared(v))
  {
    if v != [] {
      ClearedDescend(v[1..]);
      assert v[0].pid == 0 ==> [] + Cleared(v[1..]) == Cleared(v[1..]);
    }
  }

  lemma {:induction false} WithoutDescend(v: seq<Record>, id: nat)
    ensures Descend(v, Without(v, id))
  {
    if v != [] {
      DescendSame(v[1..]);
      WithoutDescend(v[1..], id);
    }
  }

  lemma {:induction false} ChangedDescend(v: seq<Record>, m: Move)
    requires !m.Answers?
    ensures Descend(v, Changed(v, m))
  {
    if v != [] {
      ChangedDescend(v[1..], m);
      assert Changed(v, m)[1..] == Changed(v[1..], m);
    }
  }

  lemma MoveDescends(s: Life, m: Move)
    requires !m.Answers? && !m.Adds?
    ensures Descend(s.records, After(s, m).records) && After(s, m).nextId == s.nextId
  {
    match m
    case Exits(pid) => ExitedDescend(s.records, pid);
    case StopsAll => HaltedDescend(s.records);
    case Autoruns(pids) => AutoranDescend(s.records, pids);
    case Removes(id) => WithoutDescend(s.records, id);
    case Clears => ClearedDescend(s.records);
    case _ => ChangedDescend(s.records, m);
  }

  ghost predicate From(v: seq<Record>, r: Record) {
    exists i :: 0 <= i < |v| && SameAnswer(v[i], r)
  }

  /** Who is left, and that the order of ids stays. */
  lemma {:induction false} DescendMeans(v: seq<Record>, w: seq<Record>)
    requires Descend(v, w)
    ensures forall j :: 0 <= j < |w| ==> From(v, w[j])
    ensures (forall i, j :: 0 <= i < j < |v| ==> v[i].id < v[j].id) ==> forall i, j :: 0 <= i < j < |w| ==> w[i].id < w[j].id
  {
    if v != [] {
      var taken := w != [] && SameAnswer(v[0], w[0]) && Descend(v[1..], w[1..]);
      var rest := if taken then w[1..] else w;
      DescendMeans(v[1..], rest);
      forall j | 0 <= j < |w|
        ensures From(v, w[j])
      {
        if taken && j == 0 {
          assert SameAnswer(v[0], w[j]);
        } else {
          var k := if taken then j - 1 else j;
          assert rest[k] == w[j];
          var i :| 0 <= i < |v[1..]| && SameAnswer(v[1..][i], rest[k]);
          assert v[i + 1] == v[1..][i];
        }
      }
      if forall i, j :: 0 <= i < j < |v| ==> v[i].id < v[j].id {
        TailAscends(v, rest);
        forall i, j | 0 <= i < j < |w|
          ensures w[i].id < w[j].id
        {
          if taken {
            assert w[j] == rest[j - 1] && (i > 0 ==> w[i] == rest[i - 1]);
          }
        }
      }
    }
  }

  lemma TailAscends(v: seq<Record>, rest: seq<Record>)
    requires v != [] && forall i, j :: 0 <= i < j < |v| ==> v[i].id < v[j].id
    requires forall j :: 0 <= j < |rest| ==> From(v[1..], rest[j])
    ensures forall i, j :: 0 <= i < j < |v[1..]| ==> v[1..][i].id < v[1..][j].id
    ensures forall j :: 0 <= j < |rest| ==> v[0].id < rest[j].id
  {
    forall j | 0 <= j < |rest|
      ensures v[0].id < rest[j].id
    {
      assert From(v[1..], rest[j]);
      var i :| 0 <= i < |v[1..]| && SameAnswer(v[1..][i], rest[j]);
      assert v[i + 1] == v[1..][i];
    }
  }

  /** What everybody holds, during the run, is what the run says; who is not there yet holds nothing. */
  ghost predicate Told(u: Life, w: seq<Record>, moves: seq<Move>) {
    && (forall j :: 0 <= j < |u.records| ==> u.records[j].jsCommandline == Holds(w, moves, u.records[j].id))
    && forall id :: id >= u.nextId ==> Holds(w, moves, id) == None
  }

  lemma HoldsNext(w: seq<Record>, moves: seq<Move>, m: Move, id: nat)
    ensures Holds(w, moves + [m], id) == if m.Answers? && m.id == id then m.text else Holds(w, moves, id)
  {
    assert (moves + [m])[..|moves|] == moves;
  }

  lemma ToldNext(s: Life, w: seq<Record>, moves: seq<Move>, m: Move)
    requires Numbered(s) && Told(s, w, moves) && (m.Answers? ==> m.id < s.nextId)
    ensures Numbered(After(s, m)) && Told(After(s, m), w, moves + [m]) && s.nextId <= After(s, m).nextId
  {
    hide Holds, Descend;
    var u := After(s, m);
    forall id: nat
      ensures Holds(w, moves + [m], id) == if m.Answers? && m.id == id then m.text else Holds(w, moves, id)
    {
      HoldsNext(w, moves, m, id);
    }
    if !m.Answers? && !m.Adds? {
      MoveDescends(s, m);
      hide After;
      DescendMeans(s.records, u.records);
      forall j | 0 <= j < |u.records|
        ensures u.records[j].id < s.nextId && u.records[j].jsCommandline == Holds(w, moves, u.records[j].id)
      {
        var i :| 0 <= i < |s.records| && SameAnswer(s.records[i], u.records[j]);
      }
    }
  }

  lemma {:induction false} RunTells(s: Life, moves: seq<Move>)
    requires Numbered(s) && Legal(s, moves)
    ensures Numbered(Run(s, moves)) && Told(Run(s, moves), s.records, moves)
  {
    hide Numbered, Told, After;
    if moves == [] {
      ToldFirst(s);
    } else {
      var n := |moves| - 1;
      LegalBefore(s, moves, n);
      RunTells(s, moves[..n]);
      assert moves == moves[..n] + [moves[n]];
      ToldNext(Run(s, moves[..n]), s.records, moves[..n], moves[n]);
    }
  }

  lemma ToldFirst(s: Life)
    requires Numbered(s)
    ensures Told(s, s.records, [])
  {
    forall j | 0 <= j < |s.records|
      ensures s.records[j].jsCommandline == Held(s.records, s.records[j].id)
    {
      HeldIs(s.records, j);
    }
    forall id | id >= s.nextId
      ensures Held(s.records, id) == None
    {
      HeldByNone(s.records, id);
    }
  }

  lemma LegalBefore(s: Life, moves: seq<Move>, n: nat)
    requires Legal(s, moves) && n < |moves|
    ensures Legal(s, moves[..n]) && (moves[n].Answers? ==> moves[n].id < Run(s, moves[..n]).nextId)
  {
    hide Run;
    forall i | 0 <= i < n && moves[..n][i].Answers?
      ensures moves[..n][i].id < Run(s, moves[..n][..i]).nextId
    {
      assert moves[..n][..i] == moves[..i];
    }
  }

  // ----- what a save leaves behind

  /** The app holds an answer when the save ends, and it is neither discarded nor used. */
  ghost predicate Left(v: seq<Record>, rotated: bool, i: nat)
    requires i < |v|
  {
    v[i].jsCommandline.Some? && AllAnswered(v) && !(rotated && Asks(v[i]))
  }

  ghost predicate Leftover(v: seq<Record>, rotated: bool, id: nat) {
    exists i :: 0 <= i < |v| && v[i].id == id && Left(v, rotated, i)
  }

  /** Who still holds a new commandline once the save is over. */
  lemma LeftAnswers(v: seq<Record>, w: seq<Record>, rotated: bool, i: nat)
    requires IsFinished(v, w, rotated) && i < |v|
    ensures w[i].id == v[i].id && (w[i].jsCommandline.Some? <==> Left(v, rotated, i))
  {
    hide AllAnswered;
    assert w[i] == Finished(v[i], AllAnswered(v), rotated);
  }

  lemma LeftoverHolds(v: seq<Record>, w: seq<Record>, rotated: bool, next: nat, id: nat)
    requires IsFinished(v, w, rotated) && Numbered(Life(w, next))
    ensures Held(w, id).Some? <==> Leftover(v, rotated, id)
  {
    hide Held, Left;
    if i :| 0 <= i < |w| && w[i].id == id {
      HeldIs(w, i);
      LeftAnswers(v, w, rotated, i);
      forall j | 0 <= j < |v| && v[j].id == id
        ensures j == i
      {
        LeftAnswers(v, w, rotated, j);
      }
    } else {
      HeldByNone(w, id);
      forall j | 0 <= j < |v|
        ensures v[j].id != id
      {
        LeftAnswers(v, w, rotated, j);
      }
    }
  }

  lemma {:induction false} NobodyTold(w: seq<Record>, moves: seq<Move>, id: nat)
    requires !HasAnswered(moves, id)
    ensures Holds(w, moves, id) == Held(w, id)
  {
    if moves != [] {
      var n := |moves| - 1;
      assert !(moves[n].Answers? && moves[n].id == id);
      assert forall i :: 0 <= i < n ==> moves[..n][i] == moves[i];
      NobodyTold(w, moves[..n], id);
    }
  }

  /** As long as nobody answers: a save's assertion holds exactly if no started jack session app held one before. */
  lemma CanSaveLater(s: Life, moves: seq<Move>)
    requires Numbered(s) && forall i :: 0 <= i < |moves| ==> !moves[i].Answers?
    ensures var u := Run(s, moves).records;
            CanSave(u) <==> forall j :: 0 <= j < |u| && Asks(u[j]) ==> Held(s.records, u[j].id).None?
  {
    hide Run, Holds, Held, Numbered;
    RunTells(s, moves);
    var u := Run(s, moves).records;
    forall j | 0 <= j < |u|
      ensures u[j].jsCommandline == Held(s.records, u[j].id)
    {
      NobodyTold(s.records, moves, u[j].id);
    }
  }

  /**
   * Whatever happens between a save and the next: the assertion of the next save holds exactly if no started
   * jack session app is one that was left with an answer.
   */
  lemma NextSaveAsserts(v: seq<Record>, w: seq<Record>, rotated: bool, next: nat, moves: seq<Move>)
    requires IsFinished(v, w, rotated) && Numbered(Life(w, next)) && forall i :: 0 <= i < |moves| ==> !moves[i].Answers?
    ensures var u := Run(Life(w, next), moves).records;
            CanSave(u) <==> forall j :: 0 <= j < |u| && Asks(u[j]) ==> !Leftover(v, rotated, u[j].id)
  {
    hide Run, Held, Leftover, Numbered, CanSave;
    CanSaveLater(Life(w, next), moves);
    var u := Run(Life(w, next), moves).records;
    forall j | 0 <= j < |u|
      ensures Held(w, u[j].id).Some? <==> Leftover(v, rotated, u[j].id)
    {
      LeftoverHolds(v, w, rotated, next, u[j].id);
    }
  }

  /**
   * Whose answer a save uses: what its app was told while the save went on, or else what an earlier save
   * left with an app that this one did not ask.
   */
  lemma WhoseAnswer(s: Life, moves: seq<Move>, w: seq<Record>, j: nat)
    requires Numbered(s) && CanSave(s.records) && Legal(s, moves)
    requires IsFinished(Run(s, moves).records, w, true) && AllAnswered(Run(s, moves).records)
    requires j < |w| && Asks(Run(s, moves).records[j])
    ensures Some(w[j].commandline) == Holds(s.records, moves, w[j].id)
    ensures !HasAnswered(moves, w[j].id) ==>
              Held(s.records, w[j].id) == Some(w[j].commandline) && w[j].id !in AskIds(s.records)
  {
    RunTells(s, moves);
    hide Run, Holds, Held, AskIds;
    var u := Run(s, moves).records;
    assert u[j] in u && w[j] == Finished(u[j], true, true);
    if !HasAnswered(moves, w[j].id) {
      NobodyTold(s.records, moves, w[j].id);
      if w[j].id in AskIds(s.records) {
        AskedHolds(s.records, w[j].id);
      }
    }
  }

  lemma {:induction false} AskedHolds(v: seq<Record>, id: nat)
    requires id in AskIds(v) && CanSave(v) && forall i, j :: 0 <= i < j < |v| ==> v[i].id < v[j].id
    ensures Held(v, id) == None
  {
    if v[0].id == id {
      if !Asks(v[0]) {
        assert id in AskIds(v[1..]);
        AskIdsAre(v[1..], id);
      }
    } else {
      assert id in AskIds(v[1..]);
      assert forall i :: 0 <= i < |v[1..]| ==> v[1..][i] == v[i + 1];
      AskedHolds(v[1..], id);
    }
  }

  lemma {:induction false} AskIdsAre(v: seq<Record>, id: nat)
    requires id in AskIds(v)
    ensures exists i :: 0 <= i < |v| && v[i].id == id
  {
    if Asks(v[0]) && v[0].id == id {
    } else {
      assert id in AskIds(v[1..]);
      AskIdsAre(v[1..], id);
      var i :| 0 <= i < |v[1..]| && v[1..][i].id == id;
      assert v[i + 1].id == id;
    }
  }

  /** A stopped app that kept an answer is not asked; started while the save goes on, it ends up with that old answer. */
  lemma OldAnswerUsed(r: Record, next: nat, pid: nat, w: seq<Record>)
    requires r.level == JackSession && r.state == Stopped && r.jsCommandline.Some? && r.id < next && pid != 0
    requires IsFinished(Run(Life([r], next), [Starts(r.id, pid)]).records, w, true)
    ensures AskIds([r]) == [] && CanSave([r])
    ensures |w| == 1 && w[0].id == r.id && Some(w[0].commandline) == r.jsCommandline
  {
    var moves := [Starts(r.id, pid)];
    assert moves[..0] == [];
    assert Run(Life([r], next), moves) == After(Run(Life([r], next), []), moves[0]);
  }

  lemma AnswerNoted(v: seq<Record>, id: nat, text: Option<string>)
    ensures var w := Changed(v, Answers(id, text));
            |w| == |v| && forall i :: 0 <= i < |v| ==>
              w[i] == v[i].(jsCommandline := if v[i].id == id then text else v[i].jsCommandline)
  {
  }

  /** The last answer of a save, app by app: what each has been told by then is used, kept or discarded. */
  lemma AnswerEnds(v: seq<Record>, id: nat, text: Option<string>, w: seq<Record>, rotated: bool)
    requires IsFinished(Changed(v, Answers(id, text)), w, rotated)
    ensures var all := AllAnswered(Changed(v, Answers(id, text)));
            && |w| == |v|
            && forall i :: 0 <= i < |v| ==>
                 var told := if v[i].id == id then text else v[i].jsCommandline;
                 var asks := v[i].state == Started && v[i].level == JackSession;
                 && w[i].jsCommandline == (if !all || (rotated && asks) then None else told)
                 && Some(w[i].commandline) == if all && rotated && asks then told else Some(v[i].commandline)
  {
    var u := Changed(v, Answers(id, text));
    assert forall i :: 0 <= i < |v| ==> u[i] == Change(v[i], Answers(id, text)) && u[i] in u;
  }

  lemma AllHaveAnswered(v: seq<Record>, id: nat, text: Option<string>)
    ensures AllAnswered(Changed(v, Answers(id, text))) <==>
              forall i :: 0 <= i < |v| && v[i].state == Started && v[i].level == JackSession ==>
                (if v[i].id == id then text else v[i].jsCommandline).Some?
  {
    var u := Changed(v, Answers(id, text));
    assert forall i :: 0 <= i < |v| ==> u[i] == Change(v[i], Answers(id, text)) && u[i] in u;
  }

  // ----- flags and starts

  /** What starting the flagged apps asserts: none of them runs. */
  ghost predicate CanAutorun(v: seq<Record>) {
    forall i :: 0 <= i < |v| && v[i].autorun ==> v[i].pid == 0
  }

  /** The two moves that leave a flagged app running: starting one, and stopping what runs before it has exited. */
  ghost predicate RunsFlagged(s: Life, m: Move) {
    match m
    case Starts(id, pid) => pid != 0 && exists i :: 0 <= i < |s.records| && s.records[i].id == id && s.records[i].autorun
    case StopsAll => exists i :: 0 <= i < |s.records| && s.records[i].pid != 0
    case _ => false
  }

  lemma {:induction false} ExitedRuns(v: seq<Record>, pid: nat)
    requires CanAutorun(v)
    ensures CanAutorun(Exited(v, pid))
  {
    if exists i :: 0 <= i < |v| && v[i].pid == pid {
      FirstWith(v, pid);
      var i :| 0 <= i < |v| && v[i].pid == pid && forall j :: 0 <= j < i ==> v[j].pid != pid;
      ExitedAt(v, pid, i);
    } else {
      NoExit(v, pid);
    }
  }

  lemma {:induction false} FirstWith(v: seq<Record>, pid: nat)
    requires exists i :: 0 <= i < |v| && v[i].pid == pid
    ensures exists i :: 0 <= i < |v| && v[i].pid == pid && forall j :: 0 <= j < i ==> v[j].pid != pid
  {
    var i := 0;
    while v[i].pid != pid
      invariant i < |v| && forall j :: 0 <= j < i ==> v[j].pid != pid
      decreases |v| - i
    {
      i := i + 1;
    }
  }

  lemma {:induction false} AutoranRuns(v: seq<Record>, pids: seq<nat>)
    requires CanAutorun(v)
    ensures CanAutorun(Autoran(v, pids))
  {
    if v != [] {
      assert forall i :: 0 <= i < |v[1..]| ==> v[1..][i] == v[i + 1];
      AutoranRuns(v[1..], pids);
      if pids != [] {
        AutoranRuns(v[1..], pids[1..]);
      }
    }
  }

  lemma {:induction false} ClearedRuns(v: seq<Record>)
    requires CanAutorun(v)
    ensures CanAutorun(Cleared(v))
  {
    if v != [] {
      assert forall i :: 0 <= i < |v[1..]| ==> v[1..][i] == v[i + 1];
      ClearedRuns(v[1..]);
    }
  }

  lemma {:induction false} WithoutRuns(v: seq<Record>, id: nat)
    requires CanAutorun(v)
    ensures CanAutorun(Without(v, id))
  {
    if v != [] {
      assert forall i :: 0 <= i < |v[1..]| ==> v[1..][i] == v[i + 1];
      WithoutRuns(v[1..], id);
    }
  }

  /** From where autorun's assertion holds, each move keeps it exactly unless it is one of those two. */
  lemma AutorunAsserts(s: Life, m: Move)
    requires CanAutorun(s.records)
    ensures CanAutorun(After(s, m).records) <==> !RunsFlagged(s, m)
  {
    match m
    case Exits(pid) => ExitedRuns(s.records, pid);
    case Autoruns(pids) => AutoranRuns(s.records, pids);
    case Clears => ClearedRuns(s.records);
    case Removes(id) => WithoutRuns(s.records, id);
    case StopsAll => HaltedEach(s.records);
    case Starts(id, pid) => StartRuns(s.records, id, pid);
    case _ =>
  }

  lemma StartRuns(v: seq<Record>, id: nat, pid: nat)
    requires CanAutorun(v)
    ensures CanAutorun(Changed(v, Starts(id, pid))) <==>
              !(pid != 0 && exists i :: 0 <= i < |v| && v[i].id == id && v[i].autorun)
  {
    var w := Changed(v, Starts(id, pid));
    assert forall i :: 0 <= i < |v| ==> w[i] == Change(v[i], Starts(id, pid));
  }

  /** So it holds all along a run exactly if no such move is made; a stop whose exits have all come restores it. */
  lemma RunCanAutorun(s: Life, moves: seq<Move>)
    requires CanAutorun(s.records)
    ensures (forall k :: 0 <= k <= |moves| ==> CanAutorun(Run(s, moves[..k]).records)) <==>
            forall i :: 0 <= i < |moves| ==> !RunsFlagged(Run(s, moves[..i]), moves[i])
  {
    hide Run, RunsFlagged, CanAutorun;
    if forall i :: 0 <= i < |moves| ==> !RunsFlagged(Run(s, moves[..i]), moves[i]) {
      forall k | 0 <= k <= |moves|
        ensures CanAutorun(Run(s, moves[..k]).records)
      {
        assert forall i :: 0 <= i < k ==> moves[..k][..i] == moves[..i];
        KeepsCanAutorun(s, moves[..k]);
      }
    } else {
      var i :| 0 <= i < |moves| && RunsFlagged(Run(s, moves[..i]), moves[i]);
      OneMore(s, moves, i);
      if CanAutorun(Run(s, moves[..i]).records) {
        AutorunAsserts(Run(s, moves[..i]), moves[i]);
      }
    }
  }

  lemma OneMore(s: Life, moves: seq<Move>, i: nat)
    requires i < |moves|
    ensures Run(s, moves[..i + 1]) == After(Run(s, moves[..i]), moves[i])
  {
    assert moves[..i + 1][..i] == moves[..i];
  }

  lemma {:induction false} KeepsCanAutorun(s: Life, moves: seq<Move>)
    requires CanAutorun(s.records) && forall i :: 0 <= i < |moves| ==> !RunsFlagged(Run(s, moves[..i]), moves[i])
    ensures CanAutorun(Run(s, moves).records)
  {
    if moves != [] {
      var n := |moves| - 1;
      forall i | 0 <= i < n
        ensures !RunsFlagged(Run(s, moves[..n][..i]), moves[..n][i])
      {
        assert moves[..n][..i] == moves[..i];
      }
      KeepsCanAutorun(s, moves[..n]);
      AutorunAsserts(Run(s, moves[..n]), moves[n]);
    }
  }

  lemma StopThenCanAutorun(v: seq<Record>, exits: seq<nat>)
    requires AllCoherent(v) && 0 !in exits && multiset(exits) == multiset(Pids(v))
    ensures CanAutorun(ExitAll(Halted(v), exits))
  {
    HaltedSettles(v);
    ExitsSettle(Halted(v), exits);
  }

  /** A new app is added with its flag and started at once: until it exits, autorun's assertion would fail. */
  lemma NewAppRunsFlagged(s: Life, level: Level, commandline: string, pid: nat)
    requires pid != 0
    ensures !CanAutorun(Run(s, [Adds(level, true, commandline), Starts(s.nextId, pid)]).records)
  {
    var moves := [Adds(level, true, commandline), Starts(s.nextId, pid)];
    assert moves[..1] == [moves[0]] && moves[..1][..0] == [];
    assert Run(s, [moves[0]]) == After(Run(s, []), moves[0]);
    var u := Run(s, moves).records;
    assert u == Changed(After(s, moves[0]).records, moves[1]);
    assert u[|s.records|].autorun && u[|s.records|].pid == pid;
  }
}
