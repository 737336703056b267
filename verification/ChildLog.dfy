/** What a child's output is cut into, and what of it the log shows. */
module ChildLog {
  import opened CStrings
  import opened Wrappers

  const NEWLINE := '\n'
  const SIZE := 2048
  const ROOM := SIZE - 1

  // ----- C strings

  /** `strchr(s, '\n')`: the first newline that no NUL hides. */
  function Strchr(s: string): (r: Option<nat>)
    ensures r.Some? ==> r.value < |s| && s[r.value] == NEWLINE && forall i :: 0 <= i < r.value ==> s[i] != NEWLINE && s[i] != NUL
    ensures r.None? ==> forall i :: 0 <= i < |s| && s[i] == NEWLINE ==> NUL in s[..i]
  {
    if s == [] || s[0] == NUL then None
    else if s[0] == NEWLINE then Some(0)
    else
      match Strchr(s[1..])
      case None =>
        assert forall i :: 1 <= i < |s| && s[i] == NEWLINE ==> NUL in s[1..][..i - 1] && s[1..][..i - 1] == s[..i][1..];
        None
      case Some(i) => Some(1 + i)
  }

  // ----- cutting

  /** A whole line without its newline, or a full buffer that had none. */
  datatype Piece = Line(text: string) | Truncated(block: string)

  datatype Cut = Cut(pieces: seq<Piece>, carry: string)

  /** The splitter, one byte at a time. Behind a NUL, newlines go unseen until the buffer is full. */
  function Byte(t: Cut, c: char): Cut {
    if c == NEWLINE && NUL !in t.carry then Cut(t.pieces + [Line(t.carry)], [])
    else if |t.carry| + 1 == ROOM then Cut(t.pieces + [Truncated(t.carry + [c])], [])
    else t.(carry := t.carry + [c])
  }

  function Feed(t: Cut, s: string): Cut {
    if s == [] then t else Byte(Feed(t, s[..|s| - 1]), s[|s| - 1])
  }

  function Split(s: string): Cut {
    Feed(Cut([], []), s)
  }

  lemma {:induction false} FeedAppend(t: Cut, a: string, b: string)
    ensures Feed(t, a + b) == Feed(Feed(t, a), b)
  {
    if b == [] {
      assert a + b == a;
    } else {
      var n := |b| - 1;
      assert (a + b)[..|a + b| - 1] == a + b[..n];
      FeedAppend(t, a, b[..n]);
    }
  }

  lemma FeedOne(t: Cut, c: char)
    ensures Feed(t, [c]) == Byte(t, c)
  {
    assert [c][..0] == [];
  }

  /** How the output was cut into reads does not matter. */
  lemma ChunkIndependence(a: string, b: string)
    ensures Split(a + b) == Feed(Split(a), b)
  {
    FeedAppend(Cut([], []), a, b);
  }

  function Bytes(p: Piece): string {
    match p case Line(text) => text + [NEWLINE] case Truncated(block) => block
  }

  function Join(ps: seq<Piece>): string {
    if ps == [] then [] else Join(ps[..|ps| - 1]) + Bytes(ps[|ps| - 1])
  }

  lemma JoinOne(ps: seq<Piece>, p: Piece)
    ensures Join(ps + [p]) == Join(ps) + Bytes(p)
  {
    assert (ps + [p])[..|ps|] == ps;
  }

  ghost predicate Fits(p: Piece) {
    match p
    case Line(text) => |text| < ROOM && NUL !in text && NEWLINE !in text
    case Truncated(block) => |block| == ROOM && Strchr(block) == None
  }

  /** What waits in the buffer: short of full, and no newline the next `strchr` would find. */
  ghost predicate Settled(carry: string) {
    |carry| < ROOM && Strchr(carry) == None
  }

  lemma {:induction false} StrchrGrows(s: string, c: char)
    requires Strchr(s) == None
    ensures Strchr(s + [c]) == if c == NEWLINE && NUL !in s then Some(|s|) else None
  {
    if s == [] {
    } else if s[0] == NUL {
      assert (s + [c])[0] == NUL;
    } else {
      assert (s + [c])[1..] == s[1..] + [c];
      StrchrGrows(s[1..], c);
      assert NUL in s <==> NUL in s[1..];
    }
  }

  ghost predicate Keeps(t: Cut, s: string) {
    Join(t.pieces) + t.carry == s && Settled(t.carry) && forall p <- t.pieces :: Fits(p)
  }

  lemma ByteKeeps(t: Cut, s: string, c: char)
    requires Keeps(t, s)
    ensures Keeps(Byte(t, c), s + [c])
  {
    hide Join, Strchr;
    StrchrGrows(t.carry, c);
    if c == NEWLINE && NUL !in t.carry {
      assert NEWLINE !in t.carry;
      JoinOne(t.pieces, Line(t.carry));
    } else if |t.carry| + 1 == ROOM {
      JoinOne(t.pieces, Truncated(t.carry + [c]));
    }
  }

  /** No byte is lost, duplicated or moved, and every piece is a line or a full buffer. */
  lemma {:induction false} SplitKeepsBytes(s: string)
    ensures var t := Split(s);
            Join(t.pieces) + t.carry == s && Settled(t.carry) && forall p <- t.pieces :: Fits(p)
  {
    if s != [] {
      var n := |s| - 1;
      SplitKeepsBytes(s[..n]);
      ByteKeeps(Split(s[..n]), s[..n], s[n]);
      assert s == s[..n] + [s[n]];
    }
  }

  /** Bytes without a visible newline only lengthen what is carried. */
  lemma {:induction false} FeedQuiet(ps: seq<Piece>, carry: string, s: string)
    requires Strchr(carry + s) == None && |carry + s| < ROOM
    ensures Feed(Cut(ps, carry), s) == Cut(ps, carry + s)
  {
    if s == [] {
      assert carry + s == carry;
    } else {
      var n := |s| - 1;
      assert carry + s == (carry + s[..n]) + [s[n]];
      StrchrPrefix(carry + s, |carry| + n);
      assert (carry + s)[..|carry| + n] == carry + s[..n];
      FeedQuiet(ps, carry, s[..n]);
      StrchrGrows(carry + s[..n], s[n]);
    }
  }

  lemma {:induction false} StrchrPrefix(s: string, n: nat)
    requires n <= |s|
    ensures Strchr(s[..n]) == match Strchr(s) { case None => None case Some(i) => if i < n then Some(i) else None }
  {
    if n > 0 && s[0] != NUL && s[0] != NEWLINE {
      assert s[..n][1..] == s[1..][..n - 1];
      StrchrPrefix(s[1..], n - 1);
    }
  }

  /**
   * The two kinds of pieces: a line of fewer than 2047 bytes with its newline, and 2047 bytes among which the
   * buffer shows no newline. Nothing else ends a piece.
   */
  lemma OnePiece(ps: seq<Piece>, text: string, block: string)
    requires |text| < 2047 && '\n' !in text && '\0' !in text
    requires |block| == 2047 && forall i :: 0 <= i < |block| && block[i] == '\n' ==> '\0' in block[..i]
    ensures Split("") == Cut([], "")
    ensures Feed(Cut(ps, ""), text + "\n") == Cut(ps + [Line(text)], "")
    ensures Feed(Cut(ps, ""), block) == Cut(ps + [Truncated(block)], "")
    ensures Bytes(Line(text)) == text + "\n" && Bytes(Truncated(block)) == block
  {
    hide Strchr, Feed;
    NoNewline(text);
    NoNewline(block);
    assert "" + text == text;
    FeedQuiet(ps, "", text);
    FeedAppend(Cut(ps, ""), text, "\n");
    FeedOne(Cut(ps, text), '\n');
    StrchrPrefix(block, 2046);
    assert "" + block[..2046] == block[..2046] && block == block[..2046] + [block[2046]];
    FeedQuiet(ps, "", block[..2046]);
    FeedAppend(Cut(ps, ""), block[..2046], [block[2046]]);
    FeedOne(Cut(ps, block[..2046]), block[2046]);
    StrchrGrows(block[..2046], block[2046]);
    EmptySplit();
  }

  lemma EmptySplit()
    ensures Split("") == Cut([], "")
  {
  }

  lemma NoNewline(s: string)
    requires forall i :: 0 <= i < |s| && s[i] == '\n' ==> '\0' in s[..i]
    ensures Strchr(s) == None
  {
    if Strchr(s) != None {
      NewlineSeen(s);
    }
  }

  lemma NewlineSeen(s: string)
    requires Strchr(s) != None
    ensures exists i :: 0 <= i < |s| && s[i] == '\n' && '\0' !in s[..i]
  {
    var i := Strchr(s).value;
    assert s[i] == '\n' && '\0' !in s[..i];
  }

  // ----- repeated lines

  datatype Entry = Text(text: string) | Repeating | Repeated(times: nat) | Chopped(text: string)

  /** The counter is an `unsigned int`. */
  const WRAP := 0x1_0000_0000

  datatype Record = Record(log: seq<Entry>, last: string, repeats: nat)

  function RepeatEnd(repeats: nat): seq<Entry> {
    if repeats >= 2 then [Repeated(repeats)] else []
  }

  function Added(r: Record, p: Piece): seq<Entry> {
    match p
    case Truncated(block) => [Chopped(CString(block))]
    case Line(text) =>
      if r.repeats > 0 && r.last == text then if r.repeats == 1 then [Repeating] else []
      else RepeatEnd(r.repeats) + [Text(text)]
  }

  function Note(r: Record, p: Piece): Record {
    var log := r.log + Added(r, p);
    match p
    case Truncated(_) => r.(log := log)
    case Line(text) =>
      if r.repeats > 0 && r.last == text then Record(log, text, (r.repeats + 1) % WRAP) else Record(log, text, 1)
  }

  function Suppressed(ps: seq<Piece>): Record {
    if ps == [] then Record([], [], 0) else Note(Suppressed(ps[..|ps| - 1]), ps[|ps| - 1])
  }

  /** The log once the child is buried. */
  function Closed(r: Record): seq<Entry> {
    r.log + RepeatEnd(r.repeats)
  }

  function Lines(ps: seq<Piece>): seq<string> {
    if ps == [] then []
    else Lines(ps[..|ps| - 1]) + match ps[|ps| - 1] { case Line(text) => [text] case Truncated(_) => [] }
  }

  /** The entries about lines; those about truncated blocks lie in between. */
  function AboutLines(log: seq<Entry>): seq<Entry> {
    if log == [] then []
    else AboutLines(log[..|log| - 1]) + if log[|log| - 1].Chopped? then [] else [log[|log| - 1]]
  }

  function Chops(log: seq<Entry>): seq<Entry> {
    if log == [] then []
    else Chops(log[..|log| - 1]) + if log[|log| - 1].Chopped? then [log[|log| - 1]] else []
  }

  function Blocks(ps: seq<Piece>): seq<Entry> {
    if ps == [] then []
    else Blocks(ps[..|ps| - 1]) + match ps[|ps| - 1] { case Line(_) => [] case Truncated(block) => [Chopped(CString(block))] }
  }

  lemma {:induction false} SiftAppend(a: seq<Entry>, b: seq<Entry>)
    ensures AboutLines(a + b) == AboutLines(a) + AboutLines(b)
    ensures Chops(a + b) == Chops(a) + Chops(b)
  {
    if b == [] {
      assert a + b == a;
    } else {
      var n := |b| - 1;
      assert (a + b)[..|a + b| - 1] == a + b[..n];
      SiftAppend(a, b[..n]);
    }
  }

  lemma {:induction false} SiftLines(a: seq<Entry>)
    requires forall e <- a :: !e.Chopped?
    ensures AboutLines(a) == a && Chops(a) == []
  {
    if a != [] {
      SiftLines(a[..|a| - 1]);
      assert a == a[..|a| - 1] + [a[|a| - 1]];
    }
  }

  lemma SiftNoted(r: Record, p: Piece)
    ensures AboutLines(Note(r, p).log) == AboutLines(r.log) + if p.Line? then Added(r, p) else []
    ensures Chops(Note(r, p).log) == Chops(r.log) + if p.Line? then [] else Added(r, p)
  {
    SiftAppend(r.log, Added(r, p));
    if p.Line? {
      SiftLines(Added(r, p));
    } else {
      assert Added(r, p)[..0] == [];
    }
  }

  // ----- runs: the reading of the log that its repeat counts are meant for

  /** `times` copies of `text`, as many as there are in a row. */
  datatype Run = Run(text: string, times: nat)

  function Runs(lines: seq<string>): seq<Run> {
    if lines == [] then [] else Prolong(Runs(lines[..|lines| - 1]), lines[|lines| - 1])
  }

  function Prolong(runs: seq<Run>, text: string): seq<Run> {
    if runs != [] && runs[|runs| - 1].text == text then runs[..|runs| - 1] + [Run(text, runs[|runs| - 1].times + 1)]
    else runs + [Run(text, 1)]
  }

  function Copies(text: string, n: nat): seq<string> {
    if n == 0 then [] else Copies(text, n - 1) + [text]
  }

  function Expand(runs: seq<Run>): seq<string> {
    if runs == [] then [] else Expand(runs[..|runs| - 1]) + Copies(runs[|runs| - 1].text, runs[|runs| - 1].times)
  }

  ghost predicate Maximal(runs: seq<Run>) {
    && (forall i :: 0 <= i < |runs| ==> runs[i].times > 0)
    && forall i :: 0 < i < |runs| ==> runs[i - 1].text != runs[i].text
  }

  lemma ProlongExpands(runs: seq<Run>, text: string)
    requires Maximal(runs)
    ensures Expand(Prolong(runs, text)) == Expand(runs) + [text] && Maximal(Prolong(runs, text))
  {
    var all := Prolong(runs, text);
    var m := |all| - 1;
    if runs != [] && runs[|runs| - 1].text == text {
      assert all[..m] == runs[..m] && all[m] == Run(text, runs[m].times + 1);
    } else {
      assert all[..m] == runs && all[m] == Run(text, 1);
      assert Copies(text, 1) == Copies(text, 0) + [text];
    }
  }

  /** The runs are those of `lines`, and as long as they can be. */
  lemma {:induction false} RunsExpand(lines: seq<string>)
    ensures Expand(Runs(lines)) == lines && Maximal(Runs(lines))
  {
    if lines != [] {
      hide Maximal;
      var n := |lines| - 1;
      RunsExpand(lines[..n]);
      ProlongExpands(Runs(lines[..n]), lines[n]);
      assert lines == lines[..n] + [lines[n]];
    }
  }

  /** A run as the log shows it. */
  function Shown(run: Run): seq<Entry> {
    [Text(run.text)] + if run.times >= 2 then [Repeating, Repeated(run.times)] else []
  }

  function ShownAll(runs: seq<Run>): seq<Entry> {
    if runs == [] then [] else ShownAll(runs[..|runs| - 1]) + Shown(runs[|runs| - 1])
  }

  /** A reader of the log: the lines, and the last text. */
  datatype Reading = Reading(lines: seq<string>, last: string)

  function Read(log: seq<Entry>): Reading {
    if log == [] then Reading([], []) else ReadEntry(Read(log[..|log| - 1]), log[|log| - 1])
  }

  function ReadEntry(r: Reading, e: Entry): Reading {
    match e
    case Text(text) => Reading(r.lines + [text], text)
    case Repeated(times) => r.(lines := r.lines + Copies(r.last, if times > 0 then times - 1 else 0))
    case Repeating => r
    case Chopped(_) => r
  }

  lemma ReadOne(log: seq<Entry>, e: Entry)
    ensures Read(log + [e]) == ReadEntry(Read(log), e)
  {
    assert (log + [e])[..|log|] == log;
  }

  lemma {:induction false} ReadSifted(log: seq<Entry>)
    ensures Read(AboutLines(log)) == Read(log)
  {
    if log != [] {
      var n := |log| - 1;
      ReadSifted(log[..n]);
      ReadOne(AboutLines(log[..n]), log[n]);
      assert AboutLines(log[..n]) + [] == AboutLines(log[..n]);
    }
  }

  lemma {:induction false} CopiesMore(text: string, n: nat)
    ensures [text] + Copies(text, n) == Copies(text, n + 1) && |Copies(text, n)| == n
  {
    if n > 0 {
      CopiesMore(text, n - 1);
      assert [text] + (Copies(text, n - 1) + [text]) == ([text] + Copies(text, n - 1)) + [text];
    }
  }

  /** Reading the log of some runs expands them. */
  lemma {:induction false} ReadRuns(runs: seq<Run>)
    requires Maximal(runs)
    ensures Read(ShownAll(runs)).lines == Expand(runs)
  {
    if runs != [] {
      var n := |runs| - 1;
      ReadRuns(runs[..n]);
      ReadRun(ShownAll(runs[..n]), runs[n]);
    }
  }

  lemma ReadRun(log: seq<Entry>, run: Run)
    requires run.times > 0
    ensures Read(log + Shown(run)).lines == Read(log).lines + Copies(run.text, run.times)
  {
    var start := log + [Text(run.text)];
    ReadOne(log, Text(run.text));
    CopiesMore(run.text, run.times - 1);
    if run.times >= 2 {
      ReadOne(start, Repeating);
      ReadOne(start + [Repeating], Repeated(run.times));
      assert log + Shown(run) == start + [Repeating] + [Repeated(run.times)];
    } else {
      assert log + Shown(run) == start;
      assert Copies(run.text, 1) == Copies(run.text, 0) + [run.text];
    }
  }

  ghost predicate CountsFit(lines: seq<string>) {
    forall run <- Runs(lines) :: run.times < WRAP
  }

  /** What the log shows of some runs while the last may still go on. */
  function ShownPending(runs: seq<Run>): seq<Entry>
    requires runs != []
  {
    var run := runs[|runs| - 1];
    var before := ShownAll(runs[..|runs| - 1]) + [Text(run.text)];
    if run.times >= 2 then before + [Repeating] else before
  }

  /** The record of a suppression in progress, for runs that the counter can count. */
  ghost predicate Tracks(r: Record, runs: seq<Run>) {
    if runs == [] then r.repeats == 0 && AboutLines(r.log) == []
    else
      var run := runs[|runs| - 1];
      && r.repeats == run.times > 0 && r.last == run.text
      && AboutLines(r.log) == ShownPending(runs)
  }

  lemma NoteTracks(r: Record, runs: seq<Run>, text: string)
    requires Tracks(r, runs)
    requires forall run <- Prolong(runs, text) :: run.times < WRAP
    ensures Tracks(Note(r, Line(text)), Prolong(runs, text))
  {
    hide AboutLines, Chops;
    SiftNoted(r, Line(text));
    var more := Prolong(runs, text);
    var m := |more| - 1;
    assert more[m] in more;
    if runs != [] && runs[|runs| - 1].text == text {
      assert more[..m] == runs[..m];
    } else {
      assert more[..m] == runs;
      if runs != [] {
        ShownLast(runs, r.repeats);
      }
    }
  }

  lemma {:induction false} ShownLast(runs: seq<Run>, n: nat)
    requires runs != [] && runs[|runs| - 1].times == n
    ensures ShownAll(runs) == ShownPending(runs) + RepeatEnd(n)
  {
    var before, text := ShownAll(runs[..|runs| - 1]), Text(runs[|runs| - 1].text);
    if n >= 2 {
      assert before + [text] + [Repeating] + [Repeated(n)] == before + ([text] + [Repeating, Repeated(n)]);
    } else {
      assert before + [text] + [] == before + ([text] + []);
    }
  }

  lemma NoteTruncated(r: Record, runs: seq<Run>, block: string)
    requires Tracks(r, runs)
    ensures Tracks(Note(r, Truncated(block)), runs)
  {
    SiftNoted(r, Truncated(block));
  }

  lemma {:induction false} CountsFitBefore(lines: seq<string>, n: nat)
    requires n <= |lines| && CountsFit(lines)
    ensures CountsFit(lines[..n])
    decreases |lines|
  {
    if n < |lines| {
      var m := |lines| - 1;
      var before := Runs(lines[..m]);
      var after := Runs(lines);
      forall i | 0 <= i < |before| ensures before[i].times < WRAP {
        assert after[i] in after && before[i].times <= after[i].times;
      }
      CountsFitBefore(lines[..m], n);
      assert lines[..m][..n] == lines[..n];
    } else {
      assert lines[..n] == lines;
    }
  }

  lemma {:induction false} SuppressedTracks(ps: seq<Piece>)
    requires CountsFit(Lines(ps))
    ensures Tracks(Suppressed(ps), Runs(Lines(ps)))
  {
    if ps != [] {
      var n := |ps| - 1;
      var before := Lines(ps[..n]);
      assert Lines(ps)[..|before|] == before;
      CountsFitBefore(Lines(ps), |before|);
      SuppressedTracks(ps[..n]);
      match ps[n]
      case Truncated(block) => NoteTruncated(Suppressed(ps[..n]), Runs(before), block); assert Lines(ps) == before;
      case Line(text) => NoteTracks(Suppressed(ps[..n]), Runs(before), text);
    }
  }

  /** What was truncated is logged as it came, in its order, whatever repeats around it. */
  lemma {:induction false} TruncatedAreLogged(ps: seq<Piece>)
    ensures Chops(Suppressed(ps).log) == Blocks(ps)
  {
    if ps != [] {
      var n := |ps| - 1;
      TruncatedAreLogged(ps[..n]);
      SiftNoted(Suppressed(ps[..n]), ps[n]);
    }
  }

  /** The closed log shows every run of equal lines once, marked and counted if it is longer than one line. */
  lemma ClosedShowsRuns(ps: seq<Piece>)
    requires CountsFit(Lines(ps))
    ensures AboutLines(Closed(Suppressed(ps))) == ShownAll(Runs(Lines(ps)))
  {
    hide AboutLines, Chops;
    SuppressedTracks(ps);
    var r, runs := Suppressed(ps), Runs(Lines(ps));
    SiftAppend(r.log, RepeatEnd(r.repeats));
    SiftLines(RepeatEnd(r.repeats));
    if runs != [] {
      ShownLast(runs, r.repeats);
    }
  }

  /** The entries, spelled out: the run so far goes on, or a new one starts behind what was shown before. */
  lemma ShownMeans(runs: seq<Run>, text: string, n: nat)
    requires n > 0
    ensures ShownAll([]) == []
    ensures ShownAll(runs + [Run(text, n)]) == ShownAll(runs) + if n == 1 then [Text(text)] else [Text(text), Repeating, Repeated(n)]
  {
    assert (runs + [Run(text, n)])[..|runs|] == runs;
  }

  lemma PiecesMean(ps: seq<Piece>, text: string, block: string)
    ensures Lines([]) == [] && Lines(ps + [Line(text)]) == Lines(ps) + [text] && Lines(ps + [Truncated(block)]) == Lines(ps)
    ensures Blocks([]) == [] && Blocks(ps + [Line(text)]) == Blocks(ps)
    ensures Blocks(ps + [Truncated(block)]) == Blocks(ps) + [Chopped(CString(block))]
    ensures Join([]) == "" && Join(ps + [Line(text)]) == Join(ps) + text + "\n" && Join(ps + [Truncated(block)]) == Join(ps) + block
  {
    assert (ps + [Line(text)])[..|ps|] == ps && (ps + [Truncated(block)])[..|ps|] == ps;
    JoinOne(ps, Line(text));
    JoinOne(ps, Truncated(block));
  }

  /** Where the entries about lines and those about truncated blocks go when the log is sifted, and what runs stand for. */
  lemma SiftMeans(log: seq<Entry>, e: Entry, runs: seq<Run>, text: string, n: nat)
    ensures AboutLines([]) == [] && AboutLines(log + [e]) == AboutLines(log) + if e.Chopped? then [] else [e]
    ensures Chops([]) == [] && Chops(log + [e]) == Chops(log) + if e.Chopped? then [e] else []
    ensures Expand([]) == [] && Expand(runs + [Run(text, n)]) == Expand(runs) + seq(n, _ => text)
    ensures Maximal(runs) <==> (forall i :: 0 <= i < |runs| ==> runs[i].times > 0)
                               && forall i :: 0 < i < |runs| ==> runs[i - 1].text != runs[i].text
  {
    assert (log + [e])[..|log|] == log && (runs + [Run(text, n)])[..|runs|] == runs;
    CopiesAre(text, n);
  }

  /** How a log reads: a counted repetition of `n` stands for `n - 1` lines more. */
  lemma ReadMeans(log: seq<Entry>, text: string, n: nat)
    requires n > 0
    ensures Read([]).lines == []
    ensures Read(log + [Text(text)]).lines == Read(log).lines + [text]
    ensures Read(log + [Text(text), Repeating, Repeated(n)]).lines == Read(log).lines + seq(n, _ => text)
    ensures Read(log + [Chopped(text)]) == Read(log)
  {
    hide Read, Copies;
    NothingRead();
    ReadOne(log, Text(text));
    ReadOne(log, Chopped(text));
    ReadOne(log + [Text(text)], Repeating);
    ReadOne(log + [Text(text)] + [Repeating], Repeated(n));
    assert log + [Text(text), Repeating, Repeated(n)] == log + [Text(text)] + [Repeating] + [Repeated(n)];
    var r := Read(log).lines;
    CopiesMore(text, n - 1);
    CopiesAre(text, n);
    assert r + [text] + Copies(text, n - 1) == r + ([text] + Copies(text, n - 1));
    assert n == 1 ==> Copies(text, 0) == [];
  }

  lemma NothingRead()
    ensures Read([]) == Reading([], "")
  {
  }

  lemma {:induction false} CopiesAre(text: string, n: nat)
    ensures Copies(text, n) == seq(n, _ => text)
  {
    if n > 0 {
      CopiesAre(text, n - 1);
    }
  }

  /** The counter holds the runs exactly if none is 2^32 lines long. */
  lemma CountsFitWhen(lines: seq<string>)
    ensures CountsFit(lines) <==> forall run <- Runs(lines) :: run.times < 4294967296
  {
  }

  // ----- how much a wrapped counter loses

  lemma LinesGrow(r: Record, text: string)
    ensures |Read(Closed(Note(r, Line(text)))).lines| <= |Read(Closed(r)).lines| + 1
    ensures r.repeats == WRAP - 1 && r.last == text ==> |Read(Closed(Note(r, Line(text)))).lines| < |Read(Closed(r)).lines|
  {
    hide Read, Added;
    ReadClosed(r);
    ReadClosed(Note(r, Line(text)));
    ReadNoted(r, text);
  }

  lemma ReadNoted(r: Record, text: string)
    ensures |Read(Note(r, Line(text)).log).lines| ==
            if r.repeats > 0 && r.last == text then |Read(r.log).lines| else |Read(Closed(r)).lines| + 1
  {
    hide Read;
    var extra := Added(r, Line(text));
    if r.repeats > 0 && r.last == text {
      assert extra == [] ==> r.log + extra == r.log;
      ReadOne(r.log, Repeating);
    } else {
      ReadOne(Closed(r), Text(text));
      assert r.log + extra == Closed(r) + [Text(text)];
    }
  }

  lemma ReadClosed(r: Record)
    ensures |Read(Closed(r)).lines| == |Read(r.log).lines| + if r.repeats >= 2 then r.repeats - 1 else 0
  {
    hide Read, Copies;
    if r.repeats >= 2 {
      ReadOne(r.log, Repeated(r.repeats));
      CopiesMore(Read(r.log).last, r.repeats - 1);
    } else {
      assert Closed(r) == r.log;
    }
  }

  lemma ChopReads(r: Record, block: string)
    ensures |Read(Closed(Note(r, Truncated(block)))).lines| == |Read(Closed(r)).lines|
  {
    ReadClosed(r);
    ReadClosed(Note(r, Truncated(block)));
    ReadOne(r.log, Chopped(CString(block)));
  }

  lemma {:induction false} WrapLoses(ps: seq<Piece>)
    ensures |Read(Closed(Suppressed(ps))).lines| <= |Lines(ps)|
    ensures !CountsFit(Lines(ps)) ==> |Read(Closed(Suppressed(ps))).lines| < |Lines(ps)|
  {
    if ps != [] {
      var n := |ps| - 1;
      var r, before := Suppressed(ps[..n]), Lines(ps[..n]);
      WrapLoses(ps[..n]);
      match ps[n]
      case Truncated(block) => ChopReads(r, block); assert Lines(ps) == before;
      case Line(text) =>
        LinesGrow(r, text);
        assert Lines(ps) == before + [text];
        if CountsFit(before) && !CountsFit(Lines(ps)) {
          SuppressedTracks(ps[..n]);
          FirstWrap(before, text);
        }
    }
  }

  lemma FirstWrap(lines: seq<string>, text: string)
    requires CountsFit(lines) && !CountsFit(lines + [text])
    ensures Runs(lines) != [] && Runs(lines)[|Runs(lines)| - 1] == Run(text, WRAP - 1)
  {
    assert (lines + [text])[..|lines|] == lines;
    var before, after := Runs(lines), Runs(lines + [text]);
    assert after == Prolong(before, text);
    var i :| 0 <= i < |after| && after[i].times >= WRAP;
    assert forall j :: 0 <= j < |before| ==> before[j] in before;
  }

  /** A reader gets back exactly the child's lines, each as often as it came, iff no line repeats 2^32 times in a row. */
  lemma LogReadsBack(ps: seq<Piece>)
    ensures Read(Closed(Suppressed(ps))).lines == Lines(ps) <==> CountsFit(Lines(ps))
  {
    if CountsFit(Lines(ps)) {
      ClosedShowsRuns(ps);
      ReadSifted(Closed(Suppressed(ps)));
      RunsExpand(Lines(ps));
      ReadRuns(Runs(Lines(ps)));
    } else {
      WrapLoses(ps);
    }
  }
}
