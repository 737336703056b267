/** The name a new application gets. */
module NewApp {
  import opened CStrings
  import opened Lists

  function Digit(n: nat): char
    requires n < 10
  {
    '0' + (n as char)
  }

  /** `%u`. */
  function Decimal(n: nat): string {
    if n < 10 then [Digit(n)] else Decimal(n / 10) + [Digit(n % 10)]
  }

  /** `base`, or `base-n`. */
  function Candidate(base: string, n: nat): string {
    if n < 2 then base else base + ['-'] + Decimal(n)
  }

  lemma {:induction false} DecimalOnce(a: nat, b: nat)
    requires Decimal(a) == Decimal(b)
    ensures a == b
  {
    var x, y := Decimal(a), Decimal(b);
    assert x[|x| - 1] == y[|y| - 1];
    if a >= 10 && b >= 10 {
      assert x[..|x| - 1] == Decimal(a / 10) && y[..|y| - 1] == Decimal(b / 10);
      DecimalOnce(a / 10, b / 10);
    } else if a >= 10 {
      DecimalNotEmpty(a / 10);
    } else if b >= 10 {
      DecimalNotEmpty(b / 10);
    }
  }

  /** The number that a string of digits spells. */
  function Spelled(s: string): nat {
    if s == [] then 0
    else 10 * Spelled(s[..|s| - 1]) + if '0' <= s[|s| - 1] <= '9' then (s[|s| - 1] - '0') as nat else 0
  }

  /** Decimal digits that spell the number, without a leading zero. */
  lemma {:induction false} DecimalSpells(n: nat)
    ensures Spelled(Decimal(n)) == n && (forall c <- Decimal(n) :: '0' <= c <= '9')
    ensures Decimal(n)[0] == '0' ==> n == 0
  {
    if n >= 10 {
      DecimalSpells(n / 10);
      assert Decimal(n)[..|Decimal(n)| - 1] == Decimal(n / 10);
    } else {
      assert Decimal(n)[..0] == [];
    }
  }

  lemma DecimalNotEmpty(n: nat)
    ensures |Decimal(n)| >= 1
  {
  }

  lemma CandidateOnce(base: string, a: nat, b: nat)
    requires 1 <= a < b
    ensures Candidate(base, a) != Candidate(base, b)
  {
    var x, y := Candidate(base, a), Candidate(base, b);
    DecimalNotEmpty(b);
    if a >= 2 && x == y {
      assert x[|base| + 1..] == Decimal(a) && y[|base| + 1..] == Decimal(b);
      DecimalOnce(a, b);
    }
  }

  lemma {:induction false} ElemsFew<T>(xs: seq<T>)
    ensures |Elems(xs)| <= |xs|
  {
    if xs != [] {
      ElemsFew(xs[1..]);
      assert Elems(xs) == {xs[0]} + Elems(xs[1..]);
    }
  }

  ghost function Tried(base: string, n: nat): set<string>
    requires n >= 1
  {
    if n == 1 then {} else Tried(base, n - 1) + {Candidate(base, n - 1)}
  }

  lemma {:induction false} TriedMany(base: string, n: nat)
    requires n >= 1
    ensures |Tried(base, n)| == n - 1
    ensures forall x <- Tried(base, n) :: exists j :: 1 <= j < n && x == Candidate(base, j)
  {
    if n > 1 {
      TriedMany(base, n - 1);
      forall j | 1 <= j < n - 1 ensures Candidate(base, j) != Candidate(base, n - 1) {
        CandidateOnce(base, j, n - 1);
      }
    }
  }

  lemma Within<T>(a: set<T>, b: set<T>)
    requires a <= b
    ensures |a| <= |b|
  {
    assert b == a + (b - a);
  }

  /** Names taken by distinct candidates cannot be fewer than the candidates. */
  lemma Pigeonhole(names: seq<string>, base: string, n: nat)
    requires n >= 1 && forall j :: 1 <= j < n ==> Candidate(base, j) in names
    ensures n - 1 <= |names|
  {
    TriedMany(base, n);
    ElemsFew(names);
    assert Tried(base, n) <= Elems(names);
    Within(Tried(base, n), Elems(names));
  }

  lemma {:induction false} DecimalLength(n: nat, k: nat)
    requires n < Power10(k) && k >= 1
    ensures |Decimal(n)| <= k
  {
    if n >= 10 {
      assert k >= 2;
      DecimalLength(n / 10, k - 1);
    }
  }

  function Power10(k: nat): nat {
    if k == 0 then 1 else 10 * Power10(k - 1)
  }

  /** The C string at offset `from`, of length `n`. */
  ghost predicate Spells(a: array<char>, from: nat, s: string)
    reads a
  {
    from + |s| < a.Length && a[from..from + |s|] == s && a[from + |s|] == NUL
  }

  method IsTaken(names: seq<string>, name: string) returns (taken: bool)
    ensures taken <==> name in names
  {
    for i := 0 to |names|
      invariant name !in names[..i]
    {
      if names[i] == name {
        return true;
      }
    }
    return false;
  }

  /** `sprintf(end, "-%u", index)`. */
  method PutSuffix(buffer: array<char>, start: nat, end: nat, index: nat, ghost base: string)
    requires start + |base| == end && index >= 2 && end + 2 + |Decimal(index)| <= buffer.Length
    requires buffer[start..end] == base
    modifies buffer
    ensures Spells(buffer, start, Candidate(base, index)) && buffer[start..end] == base
  {
    hide Decimal;
    var digits := Decimal(index);
    buffer[end] := '-';
    for i := 0 to |digits|
      invariant buffer[start..end] == base && buffer[end] == '-'
      invariant buffer[end + 1..end + 1 + i] == digits[..i]
    {
      buffer[end + 1 + i] := digits[i];
    }
    buffer[end + 1 + |digits|] := NUL;
    assert buffer[end + 1..end + 1 + |digits|] == digits;
    assert buffer[start..end + 1 + |digits|] == buffer[start..end] + [buffer[end]] + buffer[end + 1..end + 1 + |digits|];
  }

  /** One turn of the loop: the buffer then spells the next candidate. */
  method NextName(buffer: array<char>, start: nat, end: nat, index: nat, ghost base: string) returns (name: string)
    requires start + |base| == end && 2 <= index < 0x1_0000_0000 && end + 100 <= buffer.Length && buffer[start..end] == base
    modifies buffer
    ensures name == Candidate(base, index) && Spells(buffer, start, name) && buffer[start..end] == base
  {
    hide Decimal;
    DecimalLength(index, 10);
    PutSuffix(buffer, start, end, index, base);
    name := buffer[start..end + 1 + |Decimal(index)|];
  }

  /**
   * The loop that makes the name unique. It ends with the first candidate no app has: the base
   * name itself, or the base with the least suffix from 2 upwards.
   */
  method MakeUnique(names: seq<string>, buffer: array<char>, start: nat, end: nat, ghost base: string)
    returns (name: string, ghost n: nat)
    requires start + |base| == end && Spells(buffer, start, base) && end + 100 <= buffer.Length
    requires |names| < 0x1_0000_0000 - 2
    modifies buffer
    ensures n >= 1 && name == Candidate(base, n) && name !in names
    ensures forall j :: 1 <= j < n ==> Candidate(base, j) in names
    ensures n - 1 <= |names|
    ensures Spells(buffer, start, name)
  {
    hide Decimal, Candidate, Spells;
    var index := 2;
    n := 1;
    name := buffer[start..end];
    assert name == base && Candidate(base, 1) == base by { BaseFirst(buffer, start, end, base); }
    var taken := IsTaken(names, name);
    while taken
      invariant index == n + 1 && n >= 1 && taken == (name in names)
      invariant name == Candidate(base, n) && Spells(buffer, start, name) && buffer[start..end] == base
      invariant forall j :: 1 <= j < n ==> Candidate(base, j) in names
      invariant n - 1 <= |names|
      decreases |names| + 1 - n
    {
      Pigeonhole(names, base, n + 1);
      name := NextName(buffer, start, end, index, base);
      n := index;
      index := index + 1;
      taken := IsTaken(names, name);
    }
    Pigeonhole(names, base, n);
  }

  lemma BaseFirst(buffer: array<char>, start: nat, end: nat, base: string)
    requires start + |base| == end && Spells(buffer, start, base) && end <= buffer.Length
    ensures buffer[start..end] == base && Candidate(base, 1) == base
  {
  }

  // ----- the base name

  predicate IsSpace(c: char) {
    c == ' ' || '\t' <= c <= '\r'
  }

  function FirstWord(s: string): string {
    if s == [] || IsSpace(s[0]) then [] else [s[0]] + FirstWord(s[1..])
  }

  /** What follows the last slash. */
  function AfterSlash(s: string): string
    decreases |s|
  {
    if s == [] then [] else if s[|s| - 1] == '/' then [] else AfterSlash(s[..|s| - 1]) + [s[|s| - 1]]
  }

  function BaseName(name: string, commandline: string): string {
    if name != [] then name else AfterSlash(FirstWord(commandline))
  }

  /** The command: no blank before position `i`, no slash from `k` on, and neither could be moved outwards. */
  lemma NameInCommand(commandline: string) returns (k: nat, i: nat)
    ensures k <= i <= |commandline| && BaseName("", commandline) == commandline[k..i]
    ensures forall j :: 0 <= j < i ==> commandline[j] !in {' ', '\t', '\n', '\U{000B}', '\U{000C}', '\r'}
    ensures i < |commandline| ==> commandline[i] in {' ', '\t', '\n', '\U{000B}', '\U{000C}', '\r'}
    ensures '/' !in commandline[k..i] && (k > 0 ==> commandline[k - 1] == '/')
    ensures forall name: string :: name != [] ==> BaseName(name, commandline) == name
  {
    i := WordEnds(commandline);
    k := SlashEnds(commandline[..i]);
    assert commandline[..i][k..] == commandline[k..i];
  }

  lemma {:induction false} WordEnds(s: string) returns (i: nat)
    ensures i <= |s| && FirstWord(s) == s[..i]
    ensures forall j :: 0 <= j < i ==> s[j] !in {' ', '\t', '\n', '\U{000B}', '\U{000C}', '\r'}
    ensures i < |s| ==> s[i] in {' ', '\t', '\n', '\U{000B}', '\U{000C}', '\r'}
  {
    i := 0;
    if s != [] && !IsSpace(s[0]) {
      var n := WordEnds(s[1..]);
      i := n + 1;
      assert s[..i] == [s[0]] + s[1..][..n];
    }
  }

  lemma {:induction false} SlashEnds(s: string) returns (k: nat)
    ensures k <= |s| && AfterSlash(s) == s[k..] && '/' !in s[k..] && (k > 0 ==> s[k - 1] == '/')
    decreases |s|
  {
    k := |s|;
    if s != [] && s[|s| - 1] != '/' {
      k := SlashEnds(s[..|s| - 1]);
      assert s[k..] == s[..|s| - 1][k..] + [s[|s| - 1]];
    }
  }

  lemma FirstWordAt(text: string, i: nat)
    requires i <= |text|
    ensures FirstWord(text[i..]) == if i == |text| || IsSpace(text[i]) then [] else [text[i]] + FirstWord(text[i + 1..])
  {
    assert i < |text| ==> text[i..][1..] == text[i + 1..];
  }

  /** Cuts the buffer after its first word. */
  method CutFirstWord(buffer: array<char>, length: nat) returns (end: nat)
    requires length < buffer.Length && buffer[length] == NUL
    modifies buffer
    ensures end <= length && buffer[end] == NUL && buffer[..end] == FirstWord(old(buffer[..length]))
  {
    hide FirstWord;
    ghost var text := buffer[..length];
    end := 0;
    FirstWordAt(text, length);
    assert text[0..] == text;
    while end < length && !IsSpace(buffer[end])
      invariant end <= length && buffer[..length] == text && FirstWord(text) == text[..end] + FirstWord(text[end..])
    {
      FirstWordAt(text, end);
      assert text[end] == buffer[..length][end];
      assert text[..end + 1] == text[..end] + [text[end]];
      end := end + 1;
    }
    FirstWordAt(text, end);
    assert end < length ==> text[end] == buffer[..length][end];
    assert buffer[..end] == text[..end];
    buffer[end] := NUL;
  }

  /** `strrchr(buffer, '/') + 1`, or the start. */
  method NameStart(buffer: array<char>, end: nat) returns (start: nat)
    requires end < buffer.Length
    ensures start <= end && buffer[start..end] == AfterSlash(buffer[..end])
  {
    ghost var word := buffer[..end];
    start := end;
    assert word[..end] == word;
    while start > 0 && buffer[start - 1] != '/'
      invariant start <= end && AfterSlash(word) == AfterSlash(word[..start]) + word[start..]
    {
      assert word[..start][..start - 1] == word[..start - 1];
      assert [word[start - 1]] + word[start..] == word[start - 1..];
      start := start - 1;
    }
    assert start > 0 ==> word[..start][start - 1] == '/';
  }

  lemma CandidateIs(base: string, n: nat)
    ensures Candidate(base, n) == if n < 2 then base else base + "-" + Decimal(n)
  {
  }

  /** The name given, or the first word of the command line without its directory, made unique. */
  method NewName(names: seq<string>, name: string, commandline: string) returns (r: string, ghost n: nat)
    requires |names| < 0x1_0000_0000 - 2
    ensures n >= 1 && r == Candidate(BaseName(name, commandline), n) && r !in names
    ensures forall j :: 1 <= j < n ==> Candidate(BaseName(name, commandline), j) in names
    ensures n - 1 <= |names|
    ensures r == if n == 1 then BaseName(name, commandline) else BaseName(name, commandline) + "-" + Decimal(n)
  {
    hide AfterSlash, FirstWord, Candidate;
    var text := if name != [] then name else commandline;
    var buffer := new char[|text| + 100](i requires 0 <= i => if i < |text| then text[i] else NUL);
    assert buffer[..|text|] == text;
    var start, end := 0, |text|;
    if name == [] {
      end := CutFirstWord(buffer, |text|);
      start := NameStart(buffer, end);
    }
    r, n := MakeUnique(names, buffer, start, end, BaseName(name, commandline));
    CandidateIs(BaseName(name, commandline), n);
  }
}
