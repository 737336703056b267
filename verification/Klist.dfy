/** Intrusive circular doubly linked lists: every pointer operation, and the sequence it works on. */
module Klist {
  import opened Lists

  /** `next` and `prev` of an entry taken out are poisoned, here null. */
  class ListHead {
    var next: ListHead?
    var prev: ListHead?

    /** A head pointing to itself is an empty list. */
    constructor ()
      ensures Ring(this, [])
    {
      next, prev := this, this;
    }
  }

  /** The entry after position `i` of the circle `c`. */
  ghost function After(c: seq<ListHead>, i: nat): ListHead
    requires i < |c|
  {
    if i + 1 < |c| then c[i + 1] else c[0]
  }

  /** Walking from `head` along `next` meets the entries `s` and comes back; `prev` walks the other way. */
  ghost predicate Ring(head: ListHead, s: seq<ListHead>)
    reads head, s
  {
    Circle([head] + s)
  }

  ghost predicate Circle(c: seq<ListHead>)
    reads c
  {
    && Distinct(c)
    && (forall i {:trigger c[i].next} :: 0 <= i < |c| ==> c[i].next == After(c, i))
    && (forall i {:trigger After(c, i)} :: 0 <= i < |c| ==> After(c, i).prev == c[i])
  }

  /** `c` with `entry` after position `k`. */
  ghost function Inserted(c: seq<ListHead>, k: nat, entry: ListHead): (r: seq<ListHead>)
    requires k < |c|
    ensures |r| == |c| + 1
    ensures forall i :: 0 <= i < |r| ==> r[i] == if i <= k then c[i] else if i == k + 1 then entry else c[i - 1]
  {
    c[..k + 1] + [entry] + c[k + 1..]
  }

  /** `__list_add`: `entry` goes between two neighbours, which are positions `k` and after of `c`. */
  method InsertBetween(entry: ListHead, prev: ListHead, next: ListHead, ghost c: seq<ListHead>, ghost k: nat)
    requires Circle(c) && k < |c| && prev == c[k] && next == After(c, k) && entry !in c
    modifies entry, prev`next, next`prev
    ensures Circle(Inserted(c, k, entry))
  {
    next.prev := entry;
    entry.next := next;
    entry.prev := prev;
    prev.next := entry;
    ghost var c' := Inserted(c, k, entry);
    InsertedDistinct(c, k, entry);
    assert entry == c'[k + 1];
    forall i | 0 <= i < |c'| ensures c'[i].next == After(c', i) && After(c', i).prev == c'[i] {
      if i < k {
        assert c[i].next == After(c, i) && After(c, i).prev == c[i];
      } else if i > k + 1 {
        assert c[i - 1].next == After(c, i - 1) && After(c, i - 1).prev == c[i - 1];
      }
    }
  }

  lemma InsertedDistinct(c: seq<ListHead>, k: nat, entry: ListHead)
    requires Distinct(c) && k < |c| && entry !in c
    ensures Distinct(Inserted(c, k, entry))
  {
  }

  method ListAdd(entry: ListHead, head: ListHead, ghost s: seq<ListHead>)
    requires Ring(head, s) && entry != head && entry !in s
    modifies entry, head`next, s`prev, head`prev
    ensures Ring(head, [entry] + s)
  {
    ghost var c := [head] + s;
    assert c[0].next == After(c, 0);
    InsertBetween(entry, head, head.next, c, 0);
    assert Inserted(c, 0, entry) == [head] + ([entry] + s);
  }

  method ListAddTail(entry: ListHead, head: ListHead, ghost s: seq<ListHead>)
    requires Ring(head, s) && entry != head && entry !in s
    modifies entry, head`prev, s`next, head`next
    ensures Ring(head, s + [entry])
  {
    ghost var c := [head] + s;
    assert After(c, |s|).prev == c[|s|];
    InsertBetween(entry, head.prev, head, c, |s|);
    assert Inserted(c, |s|, entry) == [head] + (s + [entry]);
  }

  /** `__list_del`: the neighbours of position `i` of `c` point at each other. */
  method Unlink(prev: ListHead, next: ListHead, ghost c: seq<ListHead>, ghost i: nat)
    requires Circle(c) && 0 < i < |c| && prev == c[i - 1] && next == After(c, i)
    modifies prev`next, next`prev
    ensures Circle(c[..i] + c[i + 1..])
  {
    next.prev := prev;
    prev.next := next;
    ghost var c' := c[..i] + c[i + 1..];
    forall j | 0 <= j < |c'| ensures c'[j].next == After(c', j) && After(c', j).prev == c'[j] {
      if j < i - 1 {
        assert c[j].next == After(c, j) && After(c, j).prev == c[j];
      } else if j >= i {
        assert c[j + 1].next == After(c, j + 1) && After(c, j + 1).prev == c[j + 1];
      }
    }
  }

  /** The first half of every deletion; the entry's own pointers are stale afterwards. */
  method UnlinkEntry(entry: ListHead, ghost head: ListHead, ghost s: seq<ListHead>, ghost i: nat)
    requires Ring(head, s) && i < |s| && entry == s[i]
    modifies head, s
    ensures Ring(head, s[..i] + s[i + 1..])
    ensures entry != head && entry !in s[..i] + s[i + 1..] && entry !in [head] + (s[..i] + s[i + 1..])
  {
    ghost var c := [head] + s;
    assert c[i + 1].next == After(c, i + 1) && After(c, i).prev == c[i];
    Unlink(entry.prev, entry.next, c, i + 1);
    ghost var c' := c[..i + 1] + c[i + 2..];
    assert c' == [head] + (s[..i] + s[i + 1..]);
    assert entry == c[i + 1] && entry !in c';
    assert forall x <- s[..i] + s[i + 1..] :: x in c';
  }

  method ListDel(entry: ListHead, ghost head: ListHead, ghost s: seq<ListHead>, ghost i: nat)
    requires Ring(head, s) && i < |s| && entry == s[i]
    modifies head, s
    ensures Ring(head, s[..i] + s[i + 1..])
    ensures entry.next == null && entry.prev == null
  {
    UnlinkEntry(entry, head, s, i);
    entry.next := null;
    entry.prev := null;
  }

  method ListDelInit(entry: ListHead, ghost head: ListHead, ghost s: seq<ListHead>, ghost i: nat)
    requires Ring(head, s) && i < |s| && entry == s[i]
    modifies head, s
    ensures Ring(head, s[..i] + s[i + 1..]) && Ring(entry, [])
  {
    UnlinkEntry(entry, head, s, i);
    entry.next := entry;
    entry.prev := entry;
  }

  ghost predicate Apart(head: ListHead, s: seq<ListHead>, other: ListHead, t: seq<ListHead>) {
    head != other && head !in t && other !in s && forall x <- s :: x !in t
  }

  /** To the front of another list. */
  method ListMove(entry: ListHead, to: ListHead, ghost head: ListHead, ghost s: seq<ListHead>, ghost i: nat, ghost t: seq<ListHead>)
    requires Ring(head, s) && i < |s| && entry == s[i]
    requires Ring(to, t) && Apart(head, s, to, t)
    modifies head, s, to, t
    ensures Ring(head, s[..i] + s[i + 1..]) && Ring(to, [entry] + t)
  {
    assert entry in s && forall j :: 0 <= j < |t| ==> t[j] in t;
    UnlinkEntry(entry, head, s, i);
    assert Ring(to, t);
    ghost var rest := s[..i] + s[i + 1..];
    assert forall j :: 0 <= j < |rest| ==> rest[j] in s;
    ListAdd(entry, to, t);
  }

  /** To the front of the list it is in already. */
  method ListMoveWithin(entry: ListHead, head: ListHead, ghost s: seq<ListHead>, ghost i: nat)
    requires Ring(head, s) && i < |s| && entry == s[i]
    modifies head, s
    ensures Ring(head, [entry] + (s[..i] + s[i + 1..]))
  {
    UnlinkEntry(entry, head, s, i);
    ListAdd(entry, head, s[..i] + s[i + 1..]);
  }

  method ListMoveTail(entry: ListHead, to: ListHead, ghost head: ListHead, ghost s: seq<ListHead>, ghost i: nat, ghost t: seq<ListHead>)
    requires Ring(head, s) && i < |s| && entry == s[i]
    requires Ring(to, t) && Apart(head, s, to, t)
    modifies head, s, to, t
    ensures Ring(head, s[..i] + s[i + 1..]) && Ring(to, t + [entry])
  {
    assert entry in s && forall j :: 0 <= j < |t| ==> t[j] in t;
    UnlinkEntry(entry, head, s, i);
    assert Ring(to, t);
    ghost var rest := s[..i] + s[i + 1..];
    assert forall j :: 0 <= j < |rest| ==> rest[j] in s;
    ListAddTail(entry, to, t);
  }

  /** To the end of the list it is in already. */
  method ListMoveTailWithin(entry: ListHead, head: ListHead, ghost s: seq<ListHead>, ghost i: nat)
    requires Ring(head, s) && i < |s| && entry == s[i]
    modifies head, s
    ensures Ring(head, s[..i] + s[i + 1..] + [entry])
  {
    UnlinkEntry(entry, head, s, i);
    ListAddTail(entry, head, s[..i] + s[i + 1..]);
  }

  method ListEmpty(head: ListHead, ghost s: seq<ListHead>) returns (empty: bool)
    requires Ring(head, s)
    ensures empty <==> s == []
  {
    ghost var c := [head] + s;
    assert c[0].next == After(c, 0);
    empty := head.next == head;
  }

  /** `__list_splice`: the entries `s` of `list`, in order, before those of `head`. */
  method SpliceNonEmpty(list: ListHead, head: ListHead, ghost s: seq<ListHead>, ghost t: seq<ListHead>)
    requires Ring(list, s) && Ring(head, t) && Apart(list, s, head, t) && s != []
    modifies head, t, s
    ensures Ring(head, s + t)
    ensures list.next == old(list.next) && list.prev == old(list.prev)
  {
    ghost var c, d := [list] + s, [head] + t;
    assert c[0].next == After(c, 0) && After(c, |s|).prev == c[|s|];
    assert d[0].next == After(d, 0);
    var first, last, at := list.next, list.prev, head.next;
    first.prev := head;
    head.next := first;
    last.next := at;
    at.prev := last;
    ghost var e := [head] + s + t;
    SpliceDistinct(list, head, s, t);
    forall i | 0 <= i < |e| ensures e[i].next == After(e, i) && After(e, i).prev == e[i] {
      if 0 < i < |s| {
        assert old(c[i].next) == After(c, i) && old(After(c, i).prev) == c[i];
      } else if i > |s| {
        assert old(d[i - |s|].next) == After(d, i - |s|) && old(After(d, i - |s|).prev) == d[i - |s|];
      }
    }
    assert e == [head] + (s + t);
  }

  lemma SpliceDistinct(list: ListHead, head: ListHead, s: seq<ListHead>, t: seq<ListHead>)
    requires Distinct([list] + s) && Distinct([head] + t) && Apart(list, s, head, t)
    ensures Distinct([head] + s + t) && list !in s
  {
    DistinctCons(list, s);
    DistinctCons(head, s);
    DistinctCons(head, t);
    DistinctAppend([head] + s, t);
  }

  lemma DistinctCons(x: ListHead, s: seq<ListHead>)
    ensures Distinct([x] + s) <==> x !in s && Distinct(s)
  {
    var c := [x] + s;
    assert c[0] == x && forall j :: 0 <= j < |s| ==> c[j + 1] == s[j];
    if x !in s && Distinct(s) {
      assert forall i, j :: 0 <= i < j < |c| ==> c[j] == s[j - 1] && (i > 0 ==> c[i] == s[i - 1]);
    }
  }

  lemma DistinctAppend(a: seq<ListHead>, b: seq<ListHead>)
    requires Distinct(a) && Distinct(b) && forall x <- a :: x !in b
    ensures Distinct(a + b)
  {
    assert forall i :: 0 <= i < |a| ==> a[i] in a;
  }

  method ListSplice(list: ListHead, head: ListHead, ghost s: seq<ListHead>, ghost t: seq<ListHead>)
    requires Ring(list, s) && Ring(head, t) && Apart(list, s, head, t)
    modifies head, t, s
    ensures Ring(head, s + t)
  {
    var empty := ListEmpty(list, s);
    if !empty {
      SpliceNonEmpty(list, head, s, t);
    } else {
      assert s + t == t;
    }
  }

  method ListSpliceInit(list: ListHead, head: ListHead, ghost s: seq<ListHead>, ghost t: seq<ListHead>)
    requires Ring(list, s) && Ring(head, t) && Apart(list, s, head, t)
    modifies list, head, t, s
    ensures Ring(head, s + t) && Ring(list, [])
  {
    var empty := ListEmpty(list, s);
    SpliceDistinct(list, head, s, t);
    if !empty {
      SpliceNonEmpty(list, head, s, t);
      list.next := list;
      list.prev := list;
    } else {
      assert s + t == t;
    }
  }

  /** The pointers alone say what is in a list: there is one sequence they spell. */
  lemma RingOnce(head: ListHead, s: seq<ListHead>, t: seq<ListHead>)
    requires Ring(head, s) && Ring(head, t)
    ensures s == t
  {
    if |s| <= |t| {
      RingPrefix(head, s, t, |s|);
      ComesBack(head, s, |s|);
      ComesBack(head, t, |s|);
      assert s[..|s|] == s && t[..|t|] == t;
    } else {
      RingPrefix(head, s, t, |t|);
      ComesBack(head, s, |t|);
      ComesBack(head, t, |t|);
    }
  }

  /** What the two pointers of the head and of each entry are, and nothing else. */
  lemma RingMeans(head: ListHead, s: seq<ListHead>)
    ensures Ring(head, s) <==>
            && (forall i, j :: 0 <= i < j < |s| ==> s[i] != s[j]) && head !in s
            && head.next == (if s == [] then head else s[0]) && head.prev == (if s == [] then head else s[|s| - 1])
            && (forall i {:trigger s[i].next} :: 0 <= i < |s| ==> s[i].next == if i + 1 < |s| then s[i + 1] else head)
            && forall i {:trigger s[i].prev} :: 0 <= i < |s| ==> s[i].prev == if i > 0 then s[i - 1] else head
  {
    var c := [head] + s;
    DistinctCons(head, s);
    if Ring(head, s) {
      assert c[0].next == After(c, 0) && After(c, |s|).prev == c[|s|];
      forall i | 0 <= i < |s|
        ensures s[i].next == (if i + 1 < |s| then s[i + 1] else head) && s[i].prev == if i > 0 then s[i - 1] else head
      {
        assert c[i + 1].next == After(c, i + 1) && After(c, i).prev == c[i];
      }
    } else if forall i {:trigger s[i].next} :: 0 <= i < |s| ==> s[i].next == if i + 1 < |s| then s[i + 1] else head {
      assert forall i :: 0 <= i < |c| ==> After(c, i) == if i < |s| then s[i] else head;
    }
  }

  /** Only the last entry leads back to the head. */
  lemma ComesBack(head: ListHead, s: seq<ListHead>, i: nat)
    requires Ring(head, s) && i <= |s|
    ensures ([head] + s)[i].next == head <==> i == |s|
  {
    var c := [head] + s;
    assert c[i].next == After(c, i);
    DistinctCons(head, s);
  }

  lemma {:induction false} RingPrefix(head: ListHead, s: seq<ListHead>, t: seq<ListHead>, n: nat)
    requires Ring(head, s) && Ring(head, t) && n <= |s| && n <= |t|
    ensures s[..n] == t[..n]
  {
    if n > 0 {
      RingPrefix(head, s, t, n - 1);
      var c, d := [head] + s, [head] + t;
      assert c[n - 1] == d[n - 1];
      assert c[n - 1].next == After(c, n - 1) && d[n - 1].next == After(d, n - 1);
      assert s[..n] == s[..n - 1] + [s[n - 1]] && t[..n] == t[..n - 1] + [t[n - 1]];
    }
  }

  /** Who is in the list once the doomed before position `v` are out. */
  ghost function Kept(s: seq<ListHead>, doomed: set<ListHead>, v: nat): seq<ListHead>
    requires v <= |s|
  {
    Restrict(s[..v], Elems(s) - doomed) + s[v..]
  }

  /** The walk stands at position `v`, with the next entry already read. */
  ghost predicate Walking(head: ListHead, s: seq<ListHead>, v: nat, pos: ListHead, n: ListHead?) {
    && v <= |s|
    && pos == (if v < |s| then s[v] else head)
    && (v < |s| ==> pos != head && n == if v + 1 < |s| then s[v + 1] else head)
  }

  method WalkFirst(head: ListHead, ghost doomed: set<ListHead>, ghost s: seq<ListHead>) returns (pos: ListHead, n: ListHead?)
    requires Ring(head, s)
    ensures Walking(head, s, 0, pos, n) && Ring(head, Kept(s, doomed, 0))
  {
    hide Ring, Restrict, Elems;
    RestrictNothing(Elems(s) - doomed);
    assert s[..0] == [] && [] + s[0..] == s;
    pos := First(head, s);
    StepOver(head, s, 0);
    n := pos.next;
  }

  method WalkNext(pos: ListHead, n: ListHead, doomed: set<ListHead>, ghost head: ListHead, ghost s: seq<ListHead>, ghost v: nat)
      returns (n': ListHead?)
    requires Walking(head, s, v, pos, n) && v < |s| && Ring(head, Kept(s, doomed, v))
    modifies head, s
    ensures Walking(head, s, v + 1, n, n') && Ring(head, Kept(s, doomed, v + 1))
  {
    hide Ring, Restrict, Elems;
    Visit(pos, doomed, head, s, v);
    ghost var before, list := Restrict(s[..v + 1], Elems(s) - doomed), s[v + 1..];
    StepOver(head, before + list, |before|);
    assert v + 1 < |s| ==> (before + list)[|before|] == s[v + 1];
    assert v + 2 < |s| ==> (before + list)[|before| + 1] == s[v + 2];
    n' := n.next;
  }

  lemma WalkEnds(head: ListHead, s: seq<ListHead>, doomed: set<ListHead>, v: nat, n: ListHead?)
    requires Walking(head, s, v, head, n) && Ring(head, Kept(s, doomed, v))
    ensures v == |s| && Ring(head, Restrict(s, Elems(s) - doomed))
  {
    hide Ring, Restrict, Elems;
    assert s[|s|..] == [] && s[..|s|] == s;
    assert Restrict(s, Elems(s) - doomed) + [] == Restrict(s, Elems(s) - doomed);
  }

  /**
   * `list_for_each_safe` whose body takes the current entry out when it is `doomed`: every
   * original entry is visited once and in order, and the others stay.
   */
  method RemoveDoomed(head: ListHead, doomed: set<ListHead>, ghost s: seq<ListHead>) returns (visited: seq<ListHead>)
    requires Ring(head, s)
    modifies head, s
    ensures visited == s
    ensures Ring(head, Restrict(s, Elems(s) - doomed))
  {
    hide Ring, Restrict, Elems;
    visited := [];
    var pos, n := WalkFirst(head, doomed, s);
    while pos != head
      invariant |visited| <= |s| && visited == s[..|visited|] && Walking(head, s, |visited|, pos, n)
      invariant Ring(head, Kept(s, doomed, |visited|))
      decreases |s| - |visited|
    {
      var next: ListHead := n;
      n := WalkNext(pos, next, doomed, head, s, |visited|);
      visited := visited + [pos];
      pos := next;
    }
    WalkEnds(head, s, doomed, |visited|, n);
  }

  /** The loop body at position `v`, the entries before it already dealt with. */
  method Visit(pos: ListHead, doomed: set<ListHead>, ghost head: ListHead, ghost s: seq<ListHead>, ghost v: nat)
    requires v < |s| && pos == s[v]
    requires Ring(head, Restrict(s[..v], Elems(s) - doomed) + s[v..])
    modifies head, s
    ensures Ring(head, Restrict(s[..v + 1], Elems(s) - doomed) + s[v + 1..])
  {
    ghost var before := Restrict(s[..v], Elems(s) - doomed);
    VisitList(s, doomed, v);
    if pos in doomed {
      ghost var list := before + s[v..];
      assert forall j :: 0 <= j < |list| ==> list[j] in list;
      ListDel(pos, head, list, |before|);
    }
  }

  lemma VisitList(s: seq<ListHead>, doomed: set<ListHead>, v: nat)
    requires v < |s|
    ensures var keep := Elems(s) - doomed;
            var before := Restrict(s[..v], keep);
            var list := before + s[v..];
            var after := Restrict(s[..v + 1], keep) + s[v + 1..];
            && (forall x <- list :: x in s) && list[|before|] == s[v]
            && after == if s[v] in doomed then list[..|before|] + list[|before| + 1..] else list
  {
    var keep := Elems(s) - doomed;
    RestrictOneMore(s, keep, v);
    RestrictMembers(s[..v], keep);
  }

  method First(head: ListHead, ghost s: seq<ListHead>) returns (pos: ListHead)
    requires Ring(head, s)
    ensures pos == if s == [] then head else s[0]
  {
    ghost var c := [head] + s;
    assert c[0].next == After(c, 0);
    pos := head.next;
  }

  /** From the entry at position `i` along `next`. */
  lemma StepOver(head: ListHead, s: seq<ListHead>, i: nat)
    requires Ring(head, s)
    ensures i < |s| ==> s[i] != head && s[i].next == if i + 1 < |s| then s[i + 1] else head
  {
    var c := [head] + s;
    if i < |s| {
      assert c[i + 1] == s[i] && c[i + 1].next == After(c, i + 1) && c[0] != c[i + 1];
      assert i + 1 < |s| ==> c[i + 2] == s[i + 1];
    }
  }
}
