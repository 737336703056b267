/** The most recently used items: a NULL-terminated array, and the file it is saved in. */
module RecentStore {
  import opened CStrings
  import opened Wrappers
  import opened Lists

  /** The item in front of the others, which keep their order. */
  function Used(xs: seq<string>, item: string, max: nat): seq<string> {
    Cut([item] + Erase(xs, item), max)
  }

  lemma {:induction false} EraseAt(xs: seq<string>, x: string, h: nat)
    requires h <= |xs| && (forall i :: 0 <= i < h ==> xs[i] != x) && (h < |xs| ==> xs[h] == x)
    ensures Erase(xs, x) == xs[..h] + (if h < |xs| then xs[h + 1..] else [])
  {
    if h > 0 {
      EraseAt(xs[1..], x, h - 1);
    } else if h < |xs| {
      assert xs[..0] == [];
    }
  }

  /** Using keeps a duplicate-free list duplicate-free, and its own item is then the first. */
  lemma UsedKeepsDistinct(xs: seq<string>, item: string, max: nat)
    requires Distinct(xs)
    ensures Distinct(Used(xs, item, max))
    ensures max > 0 ==> Used(xs, item, max) != [] && Used(xs, item, max)[0] == item
    ensures forall x <- Used(xs, item, max) :: x == item || x in xs
  {
    hide Restrict, Erase;
    var keep := Elems(xs) - {item};
    EraseOne(xs, item, keep);
    RestrictMembers(xs, keep);
    var e := Erase(xs, item);
    assert forall i :: 0 <= i < |e| ==> e[i] in keep;
    var u := [item] + e;
    assert forall i, j :: 0 <= i < j < |u| ==> u[j] == e[j - 1] && (i > 0 ==> u[i] == e[i - 1]);
  }

  /** Using what is in front already changes nothing, so use is idempotent. */
  lemma UsedTwice(xs: seq<string>, item: string, max: nat)
    requires Distinct(xs) && max > 0
    ensures Used(Used(xs, item, max), item, max) == Used(xs, item, max)
  {
    UsedKeepsDistinct(xs, item, max);
    var u := Used(xs, item, max);
    assert u[0] == item && Erase(u, item) == u[1..];
    assert [item] + u[1..] == u;
  }

  // ----- the file

  const NEWLINE := '\n'

  function Text(xs: seq<string>): string {
    if xs == [] then [] else xs[0] + [NEWLINE] + Text(xs[1..])
  }

  function LineEnd(s: string): (i: nat)
    ensures i <= |s|
  {
    if s == [] || s[0] == NEWLINE then 0 else 1 + LineEnd(s[1..])
  }

  /** What `strtok` finds: the non-empty stretches between newlines. */
  function Tokens(s: string): seq<string>
    decreases |s|
  {
    if s == [] then []
    else if s[0] == NEWLINE then Tokens(s[1..])
    else [s[..LineEnd(s)]] + Tokens(s[LineEnd(s)..])
  }

  /** The saved file: each item and a newline, in order. */
  lemma TextMeans(xs: seq<string>, x: string)
    ensures Text([]) == "" && Text(xs + [x]) == Text(xs) + x + "\n"
  {
    TextNext(xs + [x], |xs|);
    assert (xs + [x])[..|xs|] == xs && (xs + [x])[..|xs| + 1] == xs + [x];
  }

  /** The items of a file: what stands before its first newline unless that is nothing, and then those behind it. */
  lemma TokensMean(x: string, rest: string)
    requires '\n' !in x
    ensures Tokens(x) == if x == "" then [] else [x]
    ensures Tokens(x + "\n" + rest) == (if x == "" then [] else [x]) + Tokens(rest)
  {
    var s := x + "\n" + rest;
    LineEndAfter(x, rest);
    assert s == x + [NEWLINE] + rest;
    if x == "" {
      assert s[1..] == rest;
    } else {
      assert s[0] == x[0] && x[0] in x;
      assert s[..|x|] == x && s[|x|..] == [NEWLINE] + rest && ([NEWLINE] + rest)[1..] == rest;
      LineEndWhole(x);
      assert x[..|x|] == x && x[|x|..] == [];
    }
  }

  lemma {:induction false} LineEndWhole(x: string)
    requires NEWLINE !in x
    ensures LineEnd(x) == |x|
  {
    if x != [] {
      assert x[0] in x && forall c <- x[1..] :: c in x;
      LineEndWhole(x[1..]);
    }
  }

  lemma {:induction false} LineEndAfter(x: string, rest: string)
    requires NEWLINE !in x
    ensures LineEnd(x + [NEWLINE] + rest) == |x|
  {
    if x != [] {
      assert x[0] in x && forall c <- x[1..] :: c in x;
      LineEndAfter(x[1..], rest);
      assert (x + [NEWLINE] + rest)[1..] == x[1..] + [NEWLINE] + rest;
    }
  }

  ghost predicate Line(x: string) {
    x != [] && NEWLINE !in x
  }

  lemma {:induction false} TokensAreLines(s: string)
    ensures forall x <- Tokens(s) :: Line(x)
    decreases |s|
  {
    if s != [] {
      if s[0] == NEWLINE {
        TokensAreLines(s[1..]);
      } else {
        LineEndClean(s);
        TokensAreLines(s[LineEnd(s)..]);
      }
    }
  }

  lemma {:induction false} LineEndClean(s: string)
    ensures NEWLINE !in s[..LineEnd(s)]
  {
    if s != [] && s[0] != NEWLINE {
      LineEndClean(s[1..]);
      assert s[..LineEnd(s)] == [s[0]] + s[1..][..LineEnd(s[1..])];
    }
  }

  lemma {:induction false} TokensWithin(s: string)
    ensures forall x <- Tokens(s), c <- x :: c in s
    decreases |s|
  {
    if s != [] {
      if s[0] == NEWLINE {
        TokensWithin(s[1..]);
      } else {
        TokensWithin(s[LineEnd(s)..]);
      }
    }
  }

  /** Loading what was saved gives the same items exactly when none is empty or contains a newline or a NUL. */
  lemma LoadSavedWhen(xs: seq<string>)
    ensures Tokens(CString(Text(xs))) == xs <==> forall x <- xs :: Line(x) && NUL !in x
  {
    TokensAreLines(CString(Text(xs)));
    TokensWithin(CString(Text(xs)));
    if forall x <- xs :: Line(x) && NUL !in x {
      LoadSaved(xs);
      TextClean(xs);
      CStringIs(Text(xs), |Text(xs)|);
      assert Text(xs)[..|Text(xs)|] == Text(xs);
    }
  }

  lemma {:induction false} TextClean(xs: seq<string>)
    requires forall x <- xs :: NUL !in x
    ensures NUL !in Text(xs)
  {
    if xs != [] {
      assert xs[0] in xs && forall x <- xs[1..] :: x in xs;
      TextClean(xs[1..]);
    }
  }

  lemma {:induction false} LoadSaved(xs: seq<string>)
    requires forall x <- xs :: Line(x)
    ensures Tokens(Text(xs)) == xs
  {
    if xs != [] {
      var x, rest := xs[0], Text(xs[1..]);
      var s := x + [NEWLINE] + rest;
      assert x in xs && forall y <- xs[1..] :: y in xs;
      LineEndAfter(x, rest);
      assert s[0] == x[0] && x[0] in x;
      assert s[..|x|] == x && s[|x|..] == [NEWLINE] + rest;
      assert ([NEWLINE] + rest)[1..] == rest;
      LoadSaved(xs[1..]);
    }
  }

  ghost predicate Stored(items: seq<Option<string>>, xs: seq<string>) {
    && |xs| <= |items|
    && (forall i :: 0 <= i < |xs| ==> items[i] == Some(xs[i]))
    && (forall i :: |xs| <= i < |items| ==> items[i] == None)
  }

  lemma ShiftedIn(before: seq<Option<string>>, after: seq<Option<string>>, xs: seq<string>, h: nat, newItem: string, max: nat)
    requires |before| == |after| == max && h <= |xs| <= max
    requires forall k :: 0 <= k < max ==> before[k] == if k < |xs| && k != h then Some(xs[k]) else None
    requires forall k {:trigger after[k]} :: 0 <= k < max ==> after[k] == if k == 0 then Some(newItem) else if k <= h then before[k - 1] else before[k]
    ensures Stored(after, Cut([newItem] + (xs[..h] + (if h < |xs| then xs[h + 1..] else [])), max))
  {
    var all := [newItem] + (xs[..h] + (if h < |xs| then xs[h + 1..] else []));
    forall k | 0 <= k < max
      ensures after[k] == if k < |all| then Some(all[k]) else None
    {
      if k == 0 {
        assert all[0] == newItem;
      } else if k <= h {
        assert before[k - 1] == Some(xs[k - 1]) && all[k] == xs[k - 1];
      } else if h < k {
        assert before[k] == if k < |xs| then Some(xs[k]) else None;
        assert k < |xs| ==> all[k] == xs[h + 1..][k - 1 - h];
      }
    }
  }

  class Store {
    const max: nat
    const items: array<Option<string>>
    var file: string
    ghost var contents: seq<string>

    ghost predicate Valid()
      reads this, items
    {
      items.Length == max && Stored(items[..], contents)
    }

    /** Creating a store loads the file. */
    constructor (max: nat, file: string)
      ensures Valid() && this.max == max && this.file == file && fresh(items)
      ensures contents == Cut(Tokens(CString(file)), max)
    {
      this.max, this.file, this.contents := max, file, [];
      items := new Option<string>[max](_ => None);
      new;
      Load();
    }

    method Put(i: nat, item: string)
      requires Valid() && i == |contents| < max
      modifies this`contents, items
      ensures Valid() && contents == old(contents) + [item]
    {
      items[i] := Some(item);
      contents := contents + [item];
    }

    /** The `strtok` loop into an empty array; a NUL ends the file for it. */
    method Load()
      requires Valid() && contents == []
      modifies this`contents, items
      ensures Valid() && contents == Cut(Tokens(CString(file)), max)
    {
      hide Tokens, CString, Stored;
      var i := 0;
      var token, rest := NextToken(CString(file));
      while token != None && i < max
        invariant i == |contents| <= max && Valid()
        invariant contents + (if token == None then [] else [token.value] + Tokens(rest)) == Tokens(CString(file))
        decreases token != None, |rest|
      {
        Put(i, token.value);
        i := i + 1;
        assert contents + Tokens(rest) == Tokens(CString(file));
        token, rest := NextToken(rest);
      }
    }

    method Save()
      requires Valid()
      modifies this`file
      ensures file == Text(contents)
    {
      file := [];
      var i := 0;
      assert contents[..0] == [];
      while i < max && items[i] != None
        invariant i <= |contents| && file == Text(contents[..i])
      {
        file := file + items[i].value + [NEWLINE];
        TextNext(contents, i);
        i := i + 1;
      }
      assert contents[..i] == contents;
    }

    method UseItem(item: string) returns (ghost at: nat)
      requires Valid()
      modifies this`contents, this`file, items
      ensures Valid() && contents == Used(old(contents), item, max)
      ensures at <= |old(contents)| && (forall k :: 0 <= k < at ==> old(contents)[k] != item)
      ensures at < |old(contents)| ==> old(contents)[at] == item
      ensures var all := [item] + old(contents)[..at] + if at < |old(contents)| then old(contents)[at + 1..] else [];
              contents == if |all| <= max then all else all[..max]
      ensures old(contents) != [] && old(contents)[0] == item ==> file == old(file)
      ensures !(old(contents) != [] && old(contents)[0] == item) ==> file == Text(contents)
    {
      var i := 0;
      while i < max && items[i] != None && items[i].value != item
        invariant i <= |contents| && forall k :: 0 <= k < i ==> contents[k] != item
      {
        i := i + 1;
      }
      EraseAt(contents, item, i);
      at := i;
      assert [item] + (contents[..i] + if i < |contents| then contents[i + 1..] else [])
          == [item] + contents[..i] + if i < |contents| then contents[i + 1..] else [];
      if i < max && items[i] != None {
        if i == 0 {
          assert [item] + contents[1..] == contents;
          return;
        }
        items[i] := None;
      }
      Reorder(item, i);
      Save();
    }

    /** Moves every item one place back until it meets the hole at `h`, or the end of the array. */
    method Reorder(newItem: string, ghost h: nat)
      requires items.Length == max && h <= |contents| <= max
      requires forall k :: 0 <= k < max ==> items[k] == if k < |contents| && k != h then Some(contents[k]) else None
      modifies this`contents, items
      ensures Valid()
      ensures contents == Cut([newItem] + (old(contents)[..h] + (if h < |old(contents)| then old(contents)[h + 1..] else [])), max)
    {
      hide Erase, Distinct, Text, Tokens;
      ghost var xs, before := contents, items[..];
      var item := Some(newItem);
      var i := 0;
      while i < max && item != None
        invariant i <= max && i <= h + 1
        invariant item == if i == 0 then Some(newItem) else before[i - 1]
        invariant forall k :: 0 <= k < i ==> items[k] == if k == 0 then Some(newItem) else before[k - 1]
        invariant forall k :: i <= k < max ==> items[k] == before[k]
      {
        var itemSave := items[i];
        items[i] := item;
        item := itemSave;
        i := i + 1;
      }
      contents := Cut([newItem] + (xs[..h] + (if h < |xs| then xs[h + 1..] else [])), max);
      ShiftedIn(before, items[..], xs, h, newItem, max);
    }
  }

  /** `strtok`: skips newlines, then takes everything up to the next one. */
  method NextToken(s: string) returns (token: Option<string>, rest: string)
    ensures token == None ==> Tokens(s) == [] && rest == []
    ensures token != None ==> Tokens(s) == [token.value] + Tokens(rest) && |rest| < |s|
  {
    rest := s;
    while rest != [] && rest[0] == NEWLINE
      invariant Tokens(rest) == Tokens(s) && |rest| <= |s|
      decreases |rest|
    {
      rest := rest[1..];
    }
    if rest == [] {
      return None, rest;
    }
    var n := LineEnd(rest);
    return Some(rest[..n]), rest[n..];
  }

  lemma {:induction false} TextNext(xs: seq<string>, i: nat)
    requires i < |xs|
    ensures Text(xs[..i + 1]) == Text(xs[..i]) + xs[i] + [NEWLINE]
  {
    if i == 0 {
      assert xs[..1] == [xs[0]] && xs[..0] == [];
      assert Text([xs[0]]) == xs[0] + [NEWLINE] + Text([]);
    } else {
      assert xs[..i + 1][1..] == xs[1..][..i] && xs[..i][1..] == xs[1..][..i - 1];
      TextNext(xs[1..], i - 1);
    }
  }
}
