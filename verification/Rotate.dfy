/** Backup rotation of a directory: `dst`, `dst.1`, `dst.2`, ... */
module Rotate {
  import opened Lists
  import opened Wrappers

  datatype Path = Src | Dst | Backup(n: nat) | Elsewhere(name: string)

  datatype Node<T> = Directory(content: T) | File(content: T)

  type Tree<T> = map<Path, Node<T>>

  ghost function At<T>(m: Tree<T>, p: Path): Option<Node<T>> {
    if p in m then Some(m[p]) else None
  }

  ghost function Renamed<T>(m: Tree<T>, from: Path, to: Path): Tree<T>
    requires from in m
  {
    (m - {from})[to := m[from]]
  }

  datatype Status = IsDirectory | NotDirectory | Missing | Unknown

  datatype Outcome = Done | NoEntry | Failed

  /** The directory tree, with calls that may fail for reasons of their own. */
  class FileSystem<T> {
    var nodes: Tree<T>

    /** A call failed for a reason that the tree does not show. */
    ghost var faulty: bool

    method Stat(p: Path) returns (r: Status)
      modifies this`faulty
      ensures faulty == (old(faulty) || r.Unknown?)
      ensures r.IsDirectory? ==> p in nodes && nodes[p].Directory?
      ensures r.NotDirectory? ==> p in nodes && nodes[p].File?
      ensures r.Missing? ==> p !in nodes
    {
      r := *;
      faulty := faulty || r.Unknown?;
      if !r.Unknown? {
        r := if p !in nodes then Missing else if nodes[p].Directory? then IsDirectory else NotDirectory;
      }
    }

    /** Every rename of a rotation goes to a free name. */
    method Rename(from: Path, to: Path) returns (r: Outcome)
      requires to !in nodes && from != to
      modifies this
      ensures r.Done? ==> from in old(nodes) && nodes == Renamed(old(nodes), from, to)
      ensures !r.Done? ==> nodes == old(nodes)
      ensures r.NoEntry? ==> from !in nodes
      ensures faulty == (old(faulty) || r.Failed?)
    {
      var broken: bool := *;
      if from !in nodes {
        return NoEntry;
      }
      if broken {
        faulty := true;
        return Failed;
      }
      nodes := (nodes - {from})[to := nodes[from]];
      return Done;
    }

    /** A failed recursive removal may already have taken part of the contents. */
    method RemoveRecursively(p: Path, remains: Node<T>) returns (ok: bool)
      requires p in nodes
      modifies this
      ensures ok ==> nodes == old(nodes) - {p}
      ensures !ok ==> nodes == old(nodes)[p := remains]
      ensures faulty == (old(faulty) || !ok)
    {
      ok := *;
      faulty := faulty || !ok;
      nodes := if ok then nodes - {p} else nodes[p := remains];
    }
  }

  /** Where the node found at `p` after a rotation was before it. */
  function Origin(p: Path, max: nat): Option<Path> {
    match p
    case Src => None
    case Dst => Some(Src)
    case Backup(n) => if 1 == n <= max then Some(Dst) else if 1 < n <= max then Some(Backup(n - 1)) else Some(p)
    case Elsewhere(_) => Some(p)
  }

  ghost predicate Rotated<T(!new)>(m: Tree<T>, m': Tree<T>, max: nat) {
    forall p {:trigger At(m', p)} :: At(m', p) == match Origin(p, max) { case None => None case Some(q) => At(m, q) }
  }

  /** No gap below an existing backup. */
  ghost predicate Contiguous<T(!new)>(m: Tree<T>, max: nat) {
    forall i, j :: 1 <= i <= j <= max && Backup(j) in m ==> Backup(i) in m
  }

  /** What a rotation needs to find: something new, and backups that are directories without a gap. */
  ghost predicate Rotatable<T(!new)>(m: Tree<T>, max: nat) {
    && Src in m && Contiguous(m, max)
    && forall i :: 1 <= i <= max && Backup(i) in m ==> m[Backup(i)].Directory?
  }

  /** After the countdown has passed `backup`: the backups above it have moved up by one. */
  ghost predicate MovedAbove<T(!new)>(m: Tree<T>, m': Tree<T>, max: nat, backup: nat) {
    && (forall i {:trigger Backup(i)} :: backup + 1 < i <= max ==> At(m', Backup(i)) == At(m, Backup(i - 1)))
    && (backup < max ==> Backup(backup + 1) !in m')
    && (forall p: Path {:trigger At(m', p)} :: (p.Backup? ==> p.n <= backup || p.n > max) ==> At(m', p) == At(m, p))
  }

  /** Everything but the oldest backup is still somewhere. */
  ghost predicate Kept<T(!new)>(m: Tree<T>, m': Tree<T>, max: nat) {
    forall p <- m :: p != Backup(max) ==> exists q <- m' :: m'[q] == m[p]
  }

  lemma MovedKeeps<T(!new)>(m: Tree<T>, m': Tree<T>, max: nat, backup: nat)
    requires MovedAbove(m, m', max, backup) && backup <= max
    ensures Kept(m, m', max)
  {
    forall p <- m | p != Backup(max) ensures exists q <- m' :: m'[q] == m[p] {
      if p.Backup? && backup < p.n < max {
        assert At(m', Backup(p.n + 1)) == At(m, p);
        assert Backup(p.n + 1) in m';
      } else {
        assert At(m', p) == At(m, p);
      }
    }
  }

  lemma StepUp<T(!new)>(m: Tree<T>, before: Tree<T>, after: Tree<T>, max: nat, backup: nat)
    requires 0 < backup <= max && MovedAbove(m, before, max, backup) && Backup(backup) in before
    requires after == if backup < max then Renamed(before, Backup(backup), Backup(backup + 1))
                      else before - {Backup(backup)}
    ensures MovedAbove(m, after, max, backup - 1)
  {
    forall i | backup < i <= max ensures At(after, Backup(i)) == At(m, Backup(i - 1)) {
      assert At(before, Backup(backup)) == At(m, Backup(backup));
      if i > backup + 1 {
        assert At(before, Backup(i)) == At(m, Backup(i - 1));
      }
    }
    forall p: Path | p.Backup? ==> p.n <= backup - 1 || p.n > max ensures At(after, p) == At(m, p) {
      assert At(before, p) == At(m, p);
    }
  }

  /** An existing backup goes one up, the oldest goes for good. */
  method MoveUp<T(!new)>(fs: FileSystem<T>, path: Path, older: Path, max: nat, backup: nat, remains: Node<T>, ghost m: Tree<T>)
    returns (ok: bool)
    requires 0 < backup <= max && path == Backup(backup) && path in fs.nodes && MovedAbove(m, fs.nodes, max, backup)
    requires backup < max ==> older == Backup(backup + 1)
    modifies fs
    ensures ok ==> MovedAbove(m, fs.nodes, max, backup - 1)
    ensures Kept(m, fs.nodes, max) && fs.faulty == (old(fs.faulty) || !ok)
  {
    MovedKeeps(m, fs.nodes, max, backup);
    ghost var before := fs.nodes;
    assert At(before, path) == At(m, path);
    if backup < max {
      var r := fs.Rename(path, older);
      ok := r.Done?;
      if ok {
        StepUp(m, before, fs.nodes, max, backup);
        MovedKeeps(m, fs.nodes, max, backup - 1);
      }
    } else {
      ok := fs.RemoveRecursively(path, remains);
      if ok {
        StepUp(m, before, fs.nodes, max, backup);
      }
      assert forall p <- m :: p != path ==> At(before, p) == At(m, p) && At(fs.nodes, p) == At(before, p);
      assert forall p <- m :: p != path ==> p in fs.nodes && fs.nodes[p] == m[p];
    }
  }

  method KeepingRename<T(!new)>(fs: FileSystem<T>, from: Path, to: Path) returns (r: Outcome)
    requires to !in fs.nodes && from != to
    modifies fs
    ensures r.Done? ==> from in old(fs.nodes) && fs.nodes == Renamed(old(fs.nodes), from, to)
    ensures !r.Done? ==> fs.nodes == old(fs.nodes)
    ensures r.NoEntry? ==> from !in fs.nodes
    ensures AllKept(old(fs.nodes), fs.nodes) && fs.faulty == (old(fs.faulty) || r.Failed?)
  {
    hide AllKept;
    ghost var m := fs.nodes;
    r := fs.Rename(from, to);
    RenameKeeps(m, fs.nodes, from, to, r);
  }

  /** All backups have moved up, `dst` among them; `src` still waits. */
  ghost predicate Halfway<T(!new)>(m: Tree<T>, m': Tree<T>, max: nat) {
    && Dst !in m' && At(m', Src) == At(m, Src)
    && forall p {:trigger At(m', p)} :: p != Src && p != Dst ==> At(m', p) == At(m, Origin(p, max).value)
  }

  method DstToBackup<T(!new)>(fs: FileSystem<T>, newest: Path, max: nat, ghost m: Tree<T>) returns (ok: bool)
    requires max > 0 && newest == Backup(1) && MovedAbove(m, fs.nodes, max, 0)
    modifies fs
    ensures ok ==> Halfway(m, fs.nodes, max)
    ensures Kept(m, fs.nodes, max) && fs.faulty == (old(fs.faulty) || !ok)
  {
    MovedKeeps(m, fs.nodes, max, 0);
    ghost var m0 := fs.nodes;
    BeforeFinish(m, m0, max);
    hide Kept, AllKept, MovedAbove, Halfway, Renamed;
    var r := KeepingRename(fs, Dst, newest);
    KeptThrough(m, m0, fs.nodes, max);
    ok := !r.Failed?;
    if ok {
      HalfwayNow(m, m0, fs.nodes, max);
    }
  }

  /** Two renames: `dst` becomes the newest backup, `src` becomes `dst`. */
  method Finish<T(!new)>(fs: FileSystem<T>, newest: Path, max: nat, ghost m: Tree<T>) returns (ok: bool)
    requires max > 0 && newest == Backup(1) && MovedAbove(m, fs.nodes, max, 0)
    modifies fs
    ensures ok ==> Src in m && Rotated(m, fs.nodes, max)
    ensures Kept(m, fs.nodes, max)
    ensures ok ==> fs.faulty == old(fs.faulty)
    ensures !ok && Src in m ==> fs.faulty
  {
    hide Kept, AllKept, MovedAbove, Rotated, Renamed;
    ok := DstToBackup(fs, newest, max, m);
    if ok {
      ghost var m1 := fs.nodes;
      var r := KeepingRename(fs, Src, Dst);
      KeptThrough(m, m1, fs.nodes, max);
      ok := r.Done?;
      if ok {
        RotatedNow(m, m1, fs.nodes, max);
      }
    }
  }

  lemma BeforeFinish<T(!new)>(m: Tree<T>, m0: Tree<T>, max: nat)
    requires max > 0 && MovedAbove(m, m0, max, 0)
    ensures Backup(1) !in m0
  {
  }

  ghost predicate AllKept<T(!new)>(m: Tree<T>, m': Tree<T>) {
    forall p <- m :: exists q <- m' :: m'[q] == m[p]
  }

  lemma RenameKeeps<T(!new)>(m: Tree<T>, m': Tree<T>, from: Path, to: Path, r: Outcome)
    requires r.Done? ==> from in m && to !in m && from != to && m' == Renamed(m, from, to)
    requires !r.Done? ==> m' == m
    ensures AllKept(m, m')
  {
    forall p <- m ensures exists q <- m' :: m'[q] == m[p] {
      if r.Done? && p == from {
        assert to in m' && m'[to] == m[p];
      } else {
        assert p in m' && m'[p] == m[p];
      }
    }
  }

  lemma KeptThrough<T(!new)>(m: Tree<T>, m1: Tree<T>, m2: Tree<T>, max: nat)
    requires Kept(m, m1, max) && AllKept(m1, m2)
    ensures Kept(m, m2, max)
  {
    forall p <- m | p != Backup(max) ensures exists q <- m2 :: m2[q] == m[p] {
      var q :| q in m1 && m1[q] == m[p];
      var q' :| q' in m2 && m2[q'] == m1[q];
    }
  }

  lemma HalfwayNow<T(!new)>(m: Tree<T>, m0: Tree<T>, m1: Tree<T>, max: nat)
    requires max > 0 && MovedAbove(m, m0, max, 0)
    requires m1 == if Dst in m0 then Renamed(m0, Dst, Backup(1)) else m0
    ensures Halfway(m, m1, max)
  {
    assert At(m0, Src) == At(m, Src) && At(m0, Dst) == At(m, Dst);
    forall p | p != Src && p != Dst ensures At(m1, p) == At(m, Origin(p, max).value) {
      if p.Backup? && 1 < p.n <= max {
        assert At(m0, Backup(p.n)) == At(m, Backup(p.n - 1));
      } else if p != Backup(1) {
        assert At(m0, p) == At(m, p);
      }
    }
  }

  lemma RotatedNow<T(!new)>(m: Tree<T>, m1: Tree<T>, m2: Tree<T>, max: nat)
    requires max > 0 && Halfway(m, m1, max) && Src in m1 && m2 == Renamed(m1, Src, Dst)
    ensures Src in m && Rotated(m, m2, max)
  {
    assert Src in m;
    forall p ensures At(m2, p) == match Origin(p, max) { case None => None case Some(q) => At(m, q) } {
      assert p != Src && p != Dst ==> At(m1, p) == At(m, Origin(p, max).value);
    }
  }

  /** The countdown has come down to `backup`; `found` if there was any backup above. */
  ghost predicate Counted<T(!new)>(m: Tree<T>, m': Tree<T>, max: nat, backup: nat, found: bool) {
    && backup <= max && MovedAbove(m, m', max, backup)
    && (found <==> exists i :: backup < i <= max && Backup(i) in m)
    && (forall i, j :: backup < i <= j <= max && Backup(j) in m ==> Backup(i) in m)
    && forall i :: backup < i <= max && Backup(i) in m ==> m[Backup(i)].Directory?
  }

  lemma CountNext<T(!new)>(m: Tree<T>, before: Tree<T>, after: Tree<T>, max: nat, backup: nat, found: bool)
    requires 0 < backup && Counted(m, before, max, backup, found)
    requires if Backup(backup) in m then m[Backup(backup)].Directory? && MovedAbove(m, after, max, backup - 1)
             else !found && after == before
    ensures Counted(m, after, max, backup - 1, found || Backup(backup) in m)
  {
    if Backup(backup) !in m {
      Skip(m, before, max, backup);
    }
    hide MovedAbove;
  }

  /** A backup that was not there counts as moved. */
  lemma Skip<T(!new)>(m: Tree<T>, m': Tree<T>, max: nat, backup: nat)
    requires 0 < backup <= max && MovedAbove(m, m', max, backup)
    ensures At(m', Backup(backup)) == At(m, Backup(backup))
    ensures Backup(backup) !in m ==> MovedAbove(m, m', max, backup - 1)
  {
    assert At(m', Backup(backup)) == At(m, Backup(backup));
  }

  lemma NotRotatable<T(!new)>(m: Tree<T>, m': Tree<T>, max: nat, backup: nat, found: bool)
    requires 0 < backup && Counted(m, m', max, backup, found)
    requires if Backup(backup) in m then !m[Backup(backup)].Directory? else found
    ensures !Rotatable(m, max)
  {
    hide MovedAbove;
  }

  /** One backup of the countdown. */
  method CountDown<T(!new)>(fs: FileSystem<T>, path: Path, older: Path, max: nat, backup: nat, found: bool,
                            remains: Node<T>, ghost m: Tree<T>) returns (ok: bool, found': bool)
    requires 0 < backup && path == Backup(backup) && Counted(m, fs.nodes, max, backup, found)
    requires backup < max ==> older == Backup(backup + 1)
    modifies fs
    ensures ok ==> Counted(m, fs.nodes, max, backup - 1, found') && fs.faulty == old(fs.faulty)
    ensures !ok ==> fs.faulty || !Rotatable(m, max)
    ensures Kept(m, fs.nodes, max)
  {
    hide Kept, MovedAbove, Rotatable;
    ghost var before := fs.nodes;
    MovedKeeps(m, before, max, backup);
    Skip(m, before, max, backup);
    ok, found' := true, found;
    var status := fs.Stat(path);
    if status.Missing? {
      ok := !found;
    } else if !status.IsDirectory? {
      ok := false;
    } else {
      found' := true;
      ok := MoveUp(fs, path, older, max, backup, remains, m);
    }
    if ok {
      CountNext(m, before, fs.nodes, max, backup, found);
    } else if !fs.faulty {
      NotRotatable(m, before, max, backup, found);
    }
  }

  /** The countdown over two alternating path buffers; `older` always names the next higher backup. */
  method Rotate<T(!new)>(fs: FileSystem<T>, max: nat, remains: Node<T>) returns (ok: bool)
    requires max > 0
    modifies fs
    ensures ok ==> Rotated(old(fs.nodes), fs.nodes, max)
    ensures ok ==>
              var m, m' := old(fs.nodes), fs.nodes;
              && Src in m && Src !in m' && Dst in m' && m'[Dst] == m[Src]
              && (if Dst in m then Backup(1) in m' && m'[Backup(1)] == m[Dst] else Backup(1) !in m')
              && (forall i :: 1 < i <= max ==>
                    if Backup(i - 1) in m then Backup(i) in m' && m'[Backup(i)] == m[Backup(i - 1)] else Backup(i) !in m')
              && (forall i :: i == 0 || i > max ==>
                    if Backup(i) in m then Backup(i) in m' && m'[Backup(i)] == m[Backup(i)] else Backup(i) !in m')
              && forall name :: if Elsewhere(name) in m then Elsewhere(name) in m' && m'[Elsewhere(name)] == m[Elsewhere(name)]
                                else Elsewhere(name) !in m'
    ensures Kept(old(fs.nodes), fs.nodes, max)
    ensures forall p <- old(fs.nodes) :: p != Backup(max) ==> exists q <- fs.nodes :: fs.nodes[q] == old(fs.nodes)[p]
    ensures !old(fs.faulty) ==> (ok <==> !fs.faulty && Rotatable(old(fs.nodes), max))
    ensures var m := old(fs.nodes);
            Rotatable(m, max) <==>
              && Src in m && (forall i, j :: 1 <= i <= j <= max && Backup(j) in m ==> Backup(i) in m)
              && forall i :: 1 <= i <= max && Backup(i) in m ==> m[Backup(i)].Directory?
  {
    hide Kept, Rotated, Rotatable;
    ok := CountAndFinish(fs, max, remains);
    ghost var m := old(fs.nodes);
    KeptMeans(m, fs.nodes, max);
    RotatableMeans(m, max);
    if ok {
      RotatedMeans(m, fs.nodes, max);
    }
  }

  lemma KeptMeans<T(!new)>(m: Tree<T>, m': Tree<T>, max: nat)
    requires Kept(m, m', max)
    ensures forall p <- m :: p != Backup(max) ==> exists q <- m' :: m'[q] == m[p]
  {
  }

  lemma RotatableMeans<T(!new)>(m: Tree<T>, max: nat)
    ensures Rotatable(m, max) <==>
              && Src in m && (forall i, j :: 1 <= i <= j <= max && Backup(j) in m ==> Backup(i) in m)
              && forall i :: 1 <= i <= max && Backup(i) in m ==> m[Backup(i)].Directory?
  {
  }

  /** Every place, with `Origin` spelled out. */
  lemma RotatedMeans<T(!new)>(m: Tree<T>, m': Tree<T>, max: nat)
    requires Rotated(m, m', max) && max > 0 && Src in m
    ensures Src !in m' && Dst in m' && m'[Dst] == m[Src]
    ensures if Dst in m then Backup(1) in m' && m'[Backup(1)] == m[Dst] else Backup(1) !in m'
    ensures forall i :: 1 < i <= max ==>
              if Backup(i - 1) in m then Backup(i) in m' && m'[Backup(i)] == m[Backup(i - 1)] else Backup(i) !in m'
    ensures forall i :: i == 0 || i > max ==>
              if Backup(i) in m then Backup(i) in m' && m'[Backup(i)] == m[Backup(i)] else Backup(i) !in m'
    ensures forall name :: if Elsewhere(name) in m then Elsewhere(name) in m' && m'[Elsewhere(name)] == m[Elsewhere(name)]
                           else Elsewhere(name) !in m'
  {
    assert At(m', Src) == None && At(m', Dst) == At(m, Src) && At(m', Backup(1)) == At(m, Dst);
    forall i: nat
      ensures 1 < i <= max ==> At(m', Backup(i)) == At(m, Backup(i - 1))
      ensures i == 0 || i > max ==> At(m', Backup(i)) == At(m, Backup(i))
    {
      assert At(m', Backup(i)) == match Origin(Backup(i), max) { case None => None case Some(q) => At(m, q) };
    }
    forall name
      ensures At(m', Elsewhere(name)) == At(m, Elsewhere(name))
    {
    }
  }

  method CountAndFinish<T(!new)>(fs: FileSystem<T>, max: nat, remains: Node<T>) returns (ok: bool)
    requires max > 0
    modifies fs
    ensures ok ==> Src in old(fs.nodes) && Rotated(old(fs.nodes), fs.nodes, max)
    ensures Kept(old(fs.nodes), fs.nodes, max)
    ensures !old(fs.faulty) ==> (ok <==> !fs.faulty && Rotatable(old(fs.nodes), max))
  {
    hide Kept, Rotated, MovedAbove;
    ghost var m := fs.nodes;
    var paths := new Path[2](_ => Src);
    var path, older := 2, 2;
    var found := false;
    var backup := max;
    NothingMoved(m, max);
    while backup > 0
      invariant Counted(m, fs.nodes, max, backup, found) && fs.faulty == old(fs.faulty)
      invariant backup < max ==> path == older == (backup + 1) % 2 && paths[older] == Backup(backup + 1)
    {
      path := backup % 2;
      paths[path] := Backup(backup);
      ok, found := CountDown(fs, paths[path], if backup < max then paths[older] else Src, max, backup, found, remains, m);
      if !ok {
        return;
      }
      older := path;
      backup := backup - 1;
    }
    ok := Finish(fs, paths[path], max, m);
  }

  lemma NothingMoved<T(!new)>(m: Tree<T>, max: nat)
    ensures MovedAbove(m, m, max, max)
  {
  }

  // ----- history

  /** The backups from `i` on, up to the first gap. */
  ghost function Backups<T>(m: Tree<T>, i: nat, max: nat): seq<Node<T>>
    decreases max + 1 - i
  {
    if i <= max && Backup(i) in m then [m[Backup(i)]] + Backups(m, i + 1, max) else []
  }

  /** `dst` and its backups, newest first. */
  ghost function History<T>(m: Tree<T>, max: nat): seq<Node<T>> {
    if Dst in m then [m[Dst]] + Backups(m, 1, max) else []
  }

  ghost predicate Shaped<T(!new)>(m: Tree<T>, max: nat) {
    Contiguous(m, max) && (max >= 1 && Backup(1) in m ==> Dst in m)
  }

  /** With `Origin` spelled out. */
  lemma RotatedAt<T(!new)>(m: Tree<T>, m': Tree<T>, max: nat, i: nat)
    requires Rotated(m, m', max) && max > 0
    ensures At(m', Dst) == At(m, Src) && At(m', Backup(1)) == At(m, Dst)
    ensures 1 < i <= max ==> At(m', Backup(i)) == At(m, Backup(i - 1))
  {
    assert At(m', Backup(i)) == match Origin(Backup(i), max) { case None => None case Some(q) => At(m, q) };
  }

  lemma {:induction false} BackupsMoved<T(!new)>(m: Tree<T>, m': Tree<T>, i: nat, max: nat)
    requires Rotated(m, m', max) && 0 < i && max > 0
    ensures Backups(m', i + 1, max) == Backups(m, i, max - 1)
    decreases max - i
  {
    if i < max {
      RotatedAt(m, m', max, i + 1);
      BackupsMoved(m, m', i + 1, max);
    }
  }

  lemma {:induction false} BackupsCut<T>(m: Tree<T>, i: nat, max: nat)
    requires 0 < i && max > 0
    ensures var b := Backups(m, i, max);
            Backups(m, i, max - 1) == if i <= max && |b| == max + 1 - i then b[..max - i] else b
    ensures |Backups(m, i, max)| <= if i <= max then max + 1 - i else 0
    decreases max + 1 - i
  {
    if i <= max && Backup(i) in m {
      BackupsCut(m, i + 1, max);
    }
  }

  lemma CutOfCut<T>(x: T, s: seq<T>, max: nat)
    ensures Cut([x] + Cut(s, max + 1), max + 1) == Cut([x] + s, max + 1)
  {
  }

  /** A rotation puts the new snapshot in front and drops only what exceeds `max` backups. */
  lemma RotationKeepsHistory<T(!new)>(m: Tree<T>, m': Tree<T>, max: nat)
    requires Rotated(m, m', max) && max > 0 && Src in m && Shaped(m, max)
    ensures Shaped(m', max)
    ensures History(m', max) == Cut([m[Src]] + History(m, max), max + 1)
  {
    RotatedAt(m, m', max, 1);
    forall i, j | 1 <= i <= j <= max && Backup(j) in m' ensures Backup(i) in m' {
      RotatedAt(m, m', max, i);
      RotatedAt(m, m', max, j);
    }
    if Dst in m {
      BackupsMoved(m, m', 1, max);
      BackupsCut(m, 1, max);
    } else {
      assert Backup(1) !in m';
    }
  }

  /** Without a gap before, there is one after exactly when `dst` was missing under an existing backup. */
  lemma GapAfterRotation<T(!new)>(m: Tree<T>, m': Tree<T>, max: nat)
    requires Rotated(m, m', max) && max > 0 && Contiguous(m, max)
    ensures Contiguous(m', max) <==> (max >= 2 && Backup(1) in m ==> Dst in m)
  {
    RotatedAt(m, m', max, 1);
    RotatedAt(m, m', max, 2);
    if max >= 2 && Backup(1) in m ==> Dst in m {
      forall i, j | 1 <= i <= j <= max && Backup(j) in m' ensures Backup(i) in m' {
        RotatedAt(m, m', max, i);
        RotatedAt(m, m', max, j);
      }
    }
  }

  /** `trees` are the states just before each rotation, and the last one after them all. */
  ghost predicate Rotations<T(!new)>(trees: seq<Tree<T>>, after: seq<Tree<T>>, max: nat) {
    && |after| == |trees|
    && (forall i :: 0 <= i < |trees| ==> Src in trees[i] && Rotated(trees[i], after[i], max))
    && (forall i {:trigger trees[i]} :: 0 < i < |trees| ==> History(trees[i], max) == History(after[i - 1], max) && Shaped(trees[i], max) == Shaped(after[i - 1], max))
  }

  ghost function Reversed<T>(trees: seq<Tree<T>>): seq<Node<T>>
    requires forall i :: 0 <= i < |trees| ==> Src in trees[i]
  {
    if trees == [] then [] else [trees[|trees| - 1][Src]] + Reversed(trees[..|trees| - 1])
  }

  /**
   * After any number of rotations, with only `src` renewed in between, `dst` and its backups are
   * the newest snapshots in order.
   */
  lemma {:induction false} RunKeepsHistory<T(!new)>(trees: seq<Tree<T>>, after: seq<Tree<T>>, max: nat)
    requires trees != [] && Rotations(trees, after, max) && max > 0 && Shaped(trees[0], max)
    ensures Shaped(after[|after| - 1], max)
    ensures History(after[|after| - 1], max) == Cut(Reversed(trees) + History(trees[0], max), max + 1)
  {
    hide History, Shaped, Rotated, Cut;
    var n := |trees| - 1;
    if n > 0 {
      RunKeepsHistory(trees[..n], after[..n], max);
      RotationKeepsHistory(trees[n], after[n], max);
      var older := Reversed(trees[..n]) + History(trees[0], max);
      CutOfCut(trees[n][Src], older, max);
      assert Reversed(trees) + History(trees[0], max) == [trees[n][Src]] + older;
    } else {
      RotationKeepsHistory(trees[0], after[0], max);
      assert trees[..0] == [] && Reversed(trees) == [trees[0][Src]] + [];
      assert Reversed(trees) + History(trees[0], max) == [trees[0][Src]] + History(trees[0], max);
    }
  }
}
