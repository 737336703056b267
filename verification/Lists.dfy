/** Sequences read as the contents of the daemon's linked lists. */
module Lists {

  ghost predicate Distinct<T>(xs: seq<T>) {
    forall i, j :: 0 <= i < j < |xs| ==> xs[i] != xs[j]
  }

  /** The members of `keep`, in their old order. */
  ghost function Restrict<T>(xs: seq<T>, keep: set<T>): seq<T> {
    if xs == [] then []
    else if xs[0] in keep then [xs[0]] + Restrict(xs[1..], keep)
    else Restrict(xs[1..], keep)
  }

  lemma {:induction false} RestrictMembers<T>(xs: seq<T>, keep: set<T>)
    ensures var r := Restrict(xs, keep);
            && (forall i :: 0 <= i < |r| ==> r[i] in xs && r[i] in keep)
            && (forall i :: 0 <= i < |xs| && xs[i] in keep ==> xs[i] in r)
            && (Distinct(xs) ==> Distinct(r))
  {
    if xs != [] {
      RestrictMembers(xs[1..], keep);
    }
  }

  lemma {:induction false} RestrictAll<T>(xs: seq<T>, keep: set<T>)
    requires forall x <- xs :: x in keep
    ensures Restrict(xs, keep) == xs
  {
    if xs != [] {
      RestrictAll(xs[1..], keep);
    }
  }

  lemma {:induction false} RestrictAppend<T>(xs: seq<T>, ys: seq<T>, keep: set<T>)
    ensures Restrict(xs + ys, keep) == Restrict(xs, keep) + Restrict(ys, keep)
  {
    if xs == [] {
      assert xs + ys == ys;
    } else {
      assert (xs + ys)[1..] == xs[1..] + ys;
      RestrictAppend(xs[1..], ys, keep);
    }
  }

  lemma {:induction false} RestrictTwice<T>(xs: seq<T>, a: set<T>, b: set<T>)
    ensures Restrict(Restrict(xs, a), b) == Restrict(xs, a * b)
  {
    if xs != [] {
      RestrictTwice(xs[1..], a, b);
      RestrictAppend([xs[0]], Restrict(xs[1..], a), b);
    }
  }

  lemma RestrictAgain<T>(xs: seq<T>, keep: set<T>)
    ensures Restrict(xs, keep) == Restrict(xs, Elems(Restrict(xs, keep)))
  {
    RestrictMembers(xs, keep);
    RestrictSame(xs, keep, Elems(Restrict(xs, keep)));
  }

  lemma {:induction false} RestrictSame<T>(xs: seq<T>, a: set<T>, b: set<T>)
    requires forall x <- xs :: x in a <==> x in b
    ensures Restrict(xs, a) == Restrict(xs, b)
  {
    if xs != [] {
      RestrictSame(xs[1..], a, b);
    }
  }

  /** Deleting position `i` of a duplicate-free list takes exactly its element away. */
  lemma {:induction false} DeleteAt<T>(xs: seq<T>, i: nat, keep: set<T>)
    requires i < |xs| && Distinct(xs) && xs[i] !in keep
    requires forall j :: 0 <= j < |xs| && j != i ==> xs[j] in keep
    ensures xs[..i] + xs[i + 1..] == Restrict(xs, keep)
  {
    if i == 0 {
      RestrictAll(xs[1..], keep);
    } else {
      DeleteAt(xs[1..], i - 1, keep);
    }
  }

  ghost function Elems<T>(xs: seq<T>): set<T> {
    set x | x in xs
  }

  lemma ElemsNext<T>(xs: seq<T>, i: nat)
    requires i < |xs|
    ensures Elems(xs[..i + 1]) == Elems(xs[..i]) + {xs[i]}
  {
    assert xs[..i + 1] == xs[..i] + [xs[i]];
  }

  lemma RestrictNothing<T>(keep: set<T>)
    ensures Restrict([], keep) == []
  {
  }

  /** `list_del`: the list without the node. */
  function Erase<T(==)>(xs: seq<T>, x: T): seq<T> {
    if xs == [] then []
    else if xs[0] == x then xs[1..]
    else [xs[0]] + Erase(xs[1..], x)
  }

  /** Exactly one entry is gone, and nothing else has moved. */
  lemma {:induction false} EraseCuts<T>(xs: seq<T>, x: T) returns (i: nat)
    requires x in xs
    ensures i < |xs| && xs[i] == x && Erase(xs, x) == xs[..i] + xs[i + 1..]
  {
    if xs[0] == x {
      i := 0;
    } else {
      var j := EraseCuts(xs[1..], x);
      i := j + 1;
      assert [xs[0]] + (xs[1..][..j] + xs[1..][j + 1..]) == xs[..i] + xs[i + 1..];
    }
  }

  lemma {:induction false} EraseOne<T>(xs: seq<T>, x: T, keep: set<T>)
    requires Distinct(xs) && x !in keep && forall i :: 0 <= i < |xs| && xs[i] != x ==> xs[i] in keep
    ensures Erase(xs, x) == Restrict(xs, keep)
  {
    if xs != [] {
      if xs[0] == x {
        RestrictAll(xs[1..], keep);
      } else {
        EraseOne(xs[1..], x, keep);
      }
    }
  }

  lemma RestrictOneMore<T>(xs: seq<T>, keep: set<T>, i: nat)
    requires i < |xs|
    ensures Restrict(xs[..i + 1], keep) == Restrict(xs[..i], keep) + if xs[i] in keep then [xs[i]] else []
    ensures Restrict(xs[..0], keep) == [] && xs[..|xs|] == xs
  {
    assert xs[..i + 1] == xs[..i] + [xs[i]];
    RestrictAppend(xs[..i], [xs[i]], keep);
  }

  lemma RestrictNext<T>(xs: seq<T>, keep: set<T>, i: nat)
    requires i < |xs|
    ensures |Restrict(xs[..i + 1], keep)| == |Restrict(xs[..i], keep)| + (if xs[i] in keep then 1 else 0)
    ensures |Restrict(xs[..0], keep)| == 0 && xs[..|xs|] == xs
  {
    RestrictOneMore(xs, keep, i);
  }

  /** The first `n` items of a list. */
  function Cut<T>(xs: seq<T>, n: nat): seq<T> {
    if |xs| <= n then xs else xs[..n]
  }
}
