/** Reading a child's output: a fixed buffer with a carry pointer, and the last line with its repeat counter. */
module Loader {
  import opened CStrings
  import opened Wrappers
  import opened ChildLog

  /** A line ends: what was carried of it, and what this read brought. */
  lemma LineEnds(ps: seq<Piece>, carried: string, more: string, rest: string)
    requires Strchr(carried + more) == None && NUL !in carried + more && |carried + more| < ROOM
    ensures Feed(Cut(ps, carried), more + [NEWLINE] + rest) == Feed(Cut(ps + [Line(carried + more)], []), rest)
  {
    hide Strchr, Feed;
    FeedQuiet(ps, carried, more);
    FeedAppend(Cut(ps, carried), more + [NEWLINE], rest);
    FeedAppend(Cut(ps, carried), more, [NEWLINE]);
    FeedOne(Cut(ps, carried + more), NEWLINE);
  }

  /** What is left when no more newline is found. */
  lemma RestIsCarried(ps: seq<Piece>, carried: string, more: string)
    requires Strchr(carried + more) == None && |carried| < ROOM && |carried + more| <= ROOM
    ensures Feed(Cut(ps, carried), more)
         == if |carried + more| == ROOM then Cut(ps + [Truncated(carried + more)], []) else Cut(ps, carried + more)
  {
    hide Feed;
    if |carried + more| == ROOM {
      assert more == more[..|more| - 1] + [more[|more| - 1]];
      LastByteFills(ps, carried, more[..|more| - 1], more[|more| - 1]);
    } else {
      FeedQuiet(ps, carried, more);
    }
  }

  lemma LastByteFills(ps: seq<Piece>, carried: string, more: string, c: char)
    requires Strchr(carried + (more + [c])) == None && |carried + more| + 1 == ROOM
    ensures Feed(Cut(ps, carried), more + [c]) == Cut(ps + [Truncated(carried + (more + [c]))], [])
  {
    hide Feed, Strchr;
    var held := carried + more;
    assert carried + (more + [c]) == held + [c] && (held + [c])[..|held|] == held;
    StrchrPrefix(held + [c], |held|);
    StrchrGrows(held, c);
    FeedQuiet(ps, carried, more);
    FeedAppend(Cut(ps, carried), more, [c]);
    FeedOne(Cut(ps, held), c);
  }

  class Child {
    const buffer: array<char>
    const last: array<char>
    var carry: nat
    var repeats: nat
    var log: seq<Entry>
    ghost var consumed: string

    ghost predicate Shape()
      reads this`carry
    {
      buffer.Length == SIZE && last.Length == SIZE && buffer != last && carry < ROOM
    }

    ghost predicate Logged(ps: seq<Piece>)
      reads this`log, this`repeats, last
    {
      var r := Suppressed(ps);
      log == r.log && repeats == r.repeats && (repeats > 0 ==> CString(last[..]) == r.last)
    }

    /** The buffer and the log are what splitting all the output so far byte by byte gives. */
    ghost predicate Valid()
      reads this, buffer, last
    {
      var t := Split(consumed);
      Shape() && buffer[..carry] == t.carry && Logged(t.pieces)
    }

    constructor ()
      ensures Valid() && fresh(buffer) && fresh(last) && consumed == [] && log == []
    {
      buffer, last := new char[SIZE], new char[SIZE];
      carry, repeats, log, consumed := 0, 0, [], [];
    }

    method CheckLineRepeatEnd()
      modifies this`log
      ensures log == old(log) + RepeatEnd(repeats)
    {
      if repeats >= 2 {
        log := log + [Repeated(repeats)];
      }
    }

    /** Logs the string at `buffer + start`, unless it repeats the last one. */
    method LogLine(start: nat, ghost ps: seq<Piece>)
      requires Shape() && start <= SIZE && NUL in buffer[start..] && Logged(ps)
      modifies this`log, this`repeats, last
      ensures Logged(ps + [Line(old(CString(buffer[start..])))]) && old(log) <= log
    {
      hide CString;
      var line := CString(buffer[start..]);
      ghost var more := ps + [Line(line)];
      assert more[..|more| - 1] == ps;
      if repeats > 0 && CString(last[..]) == line {
        if repeats == 1 {
          log := log + [Repeating];
        }
        assert log == old(log) + if repeats == 1 then [Repeating] else [];
        repeats := (repeats + 1) % WRAP;
      } else {
        CheckLineRepeatEnd();
        forall i | 0 <= i < |line| {
          last[i] := line[i];
        }
        last[|line|] := NUL;
        CStringIs(last[..], |line|);
        assert last[..][..|line|] == line;
        log := log + [Text(line)];
        assert log == old(log) + (RepeatEnd(repeats) + [Text(line)]);
        repeats := 1;
      }
    }

    /** The next newline in the buffer, read off the bytes that `data` remembers. */
    lemma Search(data: string, start: nat, mid: nat)
      requires Shape() && start <= mid <= |data| < SIZE
      requires buffer[|data|] == NUL && buffer[start..|data|] == data[start..] && Strchr(data[start..mid]) == None
      ensures Strchr(buffer[start..]) == Strchr(data[start..])
      ensures match Strchr(buffer[start..]) {
                case None => true
                case Some(i) =>
                  && mid <= start + i < |data| && data[start + i] == NEWLINE
                  && NUL !in data[start..start + i] && Strchr(data[start..start + i]) == None
              }
    {
      hide Strchr;
      var view := buffer[start..];
      assert view[|data| - start] == NUL && view[..|data| - start] == data[start..];
      StrchrPrefix(view, |data| - start);
      StrchrPrefix(data[start..], mid - start);
      assert data[start..][..mid - start] == data[start..mid];
      match Strchr(view)
      case None =>
      case Some(i) =>
        StrchrPrefix(data[start..], i);
        assert data[start..][..i] == data[start..start + i];
    }

    /** Takes one line off the front: its newline becomes its NUL. */
    method TakeLine(start: nat, eol: nat, ghost line: string, ghost ps: seq<Piece>)
      requires Shape() && start <= eol < ROOM && buffer[start..eol] == line && NUL !in line && Logged(ps)
      modifies this`log, this`repeats, last, buffer
      ensures Logged(ps + [Line(line)]) && old(log) <= log && buffer[eol + 1..] == old(buffer[eol + 1..])
    {
      hide Logged;
      buffer[eol] := NUL;
      assert buffer[start..][eol - start] == NUL && buffer[start..][..eol - start] == line;
      CStringIs(buffer[start..], eol - start);
      LogLine(start, ps);
    }

    /** The lines before `start` are cut; the rest will give `goal`. */
    ghost predicate Halfway(data: string, start: nat, mid: nat, ps: seq<Piece>, goal: Cut)
      reads this`carry, this`log, this`repeats, last, buffer
    {
      && Shape() && start <= mid <= |data| <= ROOM && mid - start < ROOM
      && buffer[|data|] == NUL && buffer[start..|data|] == data[start..]
      && Logged(ps) && Strchr(data[start..mid]) == None
      && Feed(Cut(ps, data[start..mid]), data[mid..]) == goal
    }

    lemma LineFound(start: nat, i: nat, data: string, mid: nat, ps: seq<Piece>, goal: Cut)
      requires Halfway(data, start, mid, ps, goal) && Strchr(buffer[start..]) == Some(i)
      ensures var eol := start + i;
              && eol < |data| && buffer[start..eol] == data[start..eol] && buffer[eol + 1..|data|] == data[eol + 1..]
              && NUL !in data[start..eol]
              && Feed(Cut(ps + [Line(data[start..eol])], []), data[eol + 1..]) == goal
    {
      hide Logged, Strchr, Feed, Byte, CString, Settled, Suppressed, Split;
      Search(data, start, mid);
      var eol := start + i;
      assert data[start..mid] + data[mid..eol] == data[start..eol];
      assert data[mid..eol] + [NEWLINE] + data[eol + 1..] == data[mid..];
      LineEnds(ps, data[start..mid], data[mid..eol], data[eol + 1..]);
      assert buffer[start..eol] == buffer[start..|data|][..i] == data[start..][..i] == data[start..eol];
      assert buffer[eol + 1..|data|] == buffer[start..|data|][i + 1..] == data[start..][i + 1..] == data[eol + 1..];
    }

    method CutLine(start: nat, i: nat, ghost data: string, ghost mid: nat, ghost ps: seq<Piece>, ghost goal: Cut)
        returns (ghost more: seq<Piece>)
      requires Halfway(data, start, mid, ps, goal) && Strchr(buffer[start..]) == Some(i)
      modifies this`log, this`repeats, last, buffer
      ensures start + i < |data| && old(log) <= log
      ensures Halfway(data, start + i + 1, start + i + 1, more, goal)
    {
      hide Logged, Strchr, Feed;
      LineFound(start, i, data, mid, ps, goal);
      ghost var line, n := data[start..start + i], |data| - start - i - 1;
      TakeLine(start, start + i, line, ps);
      more := ps + [Line(line)];
      assert buffer[start + i + 1..|data|] == buffer[start + i + 1..][..n] && buffer[|data|] == buffer[start + i + 1..][n];
      assert data[start + i + 1..start + i + 1] == [];
      NothingYet();
    }

    lemma NothingYet()
      ensures Strchr([]) == None
    {
    }

    /** Cuts the buffer at its newlines; returns where the unfinished line starts. */
    method TakeLines(end: nat, ghost t: Cut) returns (start: nat, ghost ps: seq<Piece>)
      requires Shape() && carry <= end <= ROOM && buffer[end] == NUL
      requires Logged(t.pieces) && t.carry == buffer[..carry] && Strchr(t.carry) == None
      modifies this`log, this`repeats, last, buffer
      ensures start <= end && buffer[end] == NUL && Logged(ps) && old(log) <= log
      ensures Feed(t, old(buffer[carry..end]))
           == if end - start == ROOM then Cut(ps + [Truncated(buffer[start..end])], []) else Cut(ps, buffer[start..end])
    {
      hide Logged, Strchr, Feed;
      ghost var data := buffer[..end];
      ghost var mid := carry;
      ghost var goal := Feed(t, data[carry..]);
      start, ps := 0, t.pieces;
      assert data[0..mid] == t.carry && data[mid..] == buffer[carry..end];
      while true
        invariant start <= end && Halfway(data, start, mid, ps, goal) && old(log) <= log
        decreases end - start
      {
        match Strchr(buffer[start..]) {
          case None =>
            Search(data, start, mid);
            assert data[start..mid] + data[mid..] == data[start..];
            RestIsCarried(ps, data[start..mid], data[mid..]);
            break;
          case Some(i) =>
            ps := CutLine(start, i, data, mid, ps, goal);
            start, mid := start + i + 1, start + i + 1;
        }
      }
    }

    method LogTruncated(start: nat, ghost ps: seq<Piece>)
      requires Shape() && start + ROOM < SIZE && buffer[start + ROOM] == NUL && Logged(ps)
      modifies this`log
      ensures Logged(ps + [Truncated(buffer[start..start + ROOM])]) && old(log) <= log
    {
      hide CString;
      ghost var block := buffer[start..start + ROOM];
      assert (ps + [Truncated(block)])[..|ps|] == ps;
      SameCString(buffer[start..], ROOM);
      assert buffer[start..][..ROOM] == block;
      log := log + [Chopped(CString(buffer[start..]))];
    }

    /** What the lines leave: moved to the front, or logged at once when it fills the buffer. */
    method KeepRest(start: nat, end: nat, ghost ps: seq<Piece>) returns (ghost after: Cut)
      requires Shape() && start <= end <= ROOM && buffer[end] == NUL && Logged(ps)
      modifies this`log, this`carry, buffer
      ensures Shape() && old(log) <= log
      ensures buffer[..carry] == after.carry && Logged(after.pieces)
      ensures after == if end - start == ROOM then Cut(ps + [Truncated(old(buffer[start..end]))], [])
                       else Cut(ps, old(buffer[start..end]))
    {
      hide Logged;
      var left := end - start;
      ghost var rest := buffer[start..end];
      after := if left == ROOM then Cut(ps + [Truncated(rest)], []) else Cut(ps, rest);
      if left != 0 {
        if left == ROOM {
          LogTruncated(start, ps);
          left := 0;
        } else {
          forall i | 0 <= i < left {
            buffer[i] := buffer[start + i];
          }
          assert buffer[..left] == rest;
        }
      }
      carry := left;
    }

    /** One successful `read` of `chunk` behind what is carried. */
    method Accept(chunk: string)
      requires Valid() && 0 < |chunk| <= ROOM - carry
      modifies this, buffer, last
      ensures Valid() && consumed == old(consumed) + chunk && old(log) <= log
    {
      hide Logged, Split, Feed, Strchr;
      ghost var t := Split(consumed);
      SplitKeepsBytes(consumed);
      ChunkIndependence(consumed, chunk);
      var end := carry + |chunk|;
      forall i | 0 <= i < |chunk| {
        buffer[carry + i] := chunk[i];
      }
      buffer[end] := NUL;
      assert buffer[..carry] == t.carry && buffer[carry..end] == chunk;
      var start, ps := TakeLines(end, t);
      ghost var after := KeepRest(start, end, ps);
      consumed := consumed + chunk;
    }

    /**
     * Reads until a `read` returns less than was asked for. Each takes what there is, up to the room in the
     * buffer, and up to the next of the `limits` as long as there are any.
     */
    method ReadOutput(available: string, limits: seq<nat>) returns (rest: string)
      requires Valid()
      modifies this, buffer, last
      ensures Valid() && consumed + rest == old(consumed) + available && old(log) <= log
      ensures limits == [] ==> rest == []
      ensures rest != [] ==> exists limit <- limits :: limit < ROOM
    {
      hide Split, Logged;
      rest := available;
      var i := 0;
      while true
        invariant Valid() && consumed + rest == old(consumed) + available && old(log) <= log
        invariant i <= |limits|
        decreases |rest|
      {
        var maxRead := ROOM - carry;
        var n := if |rest| < maxRead then |rest| else maxRead;
        if i < |limits| && limits[i] < n {
          n := limits[i];
        }
        if n > 0 {
          assert rest == rest[..n] + rest[n..];
          Accept(rest[..n]);
          rest := rest[n..];
        }
        if n != maxRead {
          assert rest != [] ==> i < |limits| && limits[i] in limits && limits[i] < ROOM;
          break;
        }
        if i < |limits| {
          i := i + 1;
        }
      }
    }

    /**
     * The end of a child. The log then reads back as its complete lines, unless the counter wrapped; an
     * unfinished last line is never logged.
     */
    method Bury() returns (ghost ps: seq<Piece>)
      requires Valid()
      modifies this`log
      ensures ps == Split(consumed).pieces && old(log) <= log
      ensures Join(ps) + buffer[..carry] == consumed
      ensures Read(log).lines == Lines(ps) <==> CountsFit(Lines(ps))
      ensures CountsFit(Lines(ps)) ==> AboutLines(log) == ShownAll(Runs(Lines(ps)))
      ensures Chops(log) == Blocks(ps)
    {
      ps := Split(consumed).pieces;
      CheckLineRepeatEnd();
      SplitKeepsBytes(consumed);
      LogReadsBack(ps);
      if CountsFit(Lines(ps)) {
        ClosedShowsRuns(ps);
      }
      TruncatedAreLogged(ps);
      SiftAppend(Suppressed(ps).log, RepeatEnd(repeats));
      SiftLines(RepeatEnd(repeats));
    }
  }
}
