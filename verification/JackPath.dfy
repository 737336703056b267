/** JACK parameter addresses, saved as escaped slash-separated paths. */
module JackPath {
  import opened Escape

  type Component = seq<byte>

  /** Components, each ended by a NUL; an address is this and one more NUL. */
  function Flat(comps: seq<Component>): seq<byte> {
    if comps == [] then [] else comps[0] + [NUL] + Flat(comps[1..])
  }

  function Path(comps: seq<Component>): seq<byte> {
    if comps == [] then [] else [SLASH] + Escaped(comps[0], ALL) + Path(comps[1..])
  }

  /** One component more: its bytes and a NUL in the address, a slash and its escape in the path. */
  lemma OneComponent(comps: seq<Component>, c: Component)
    ensures Flat([]) == [] && Flat(comps + [c]) == Flat(comps) + c + [0]
    ensures Path([]) == [] && Path(comps + [c]) == Path(comps) + [47] + Escaped(c, ALL)
  {
    hide Escaped;
    FlatConcat(comps, [c]);
    PathConcat(comps, [c]);
    assert Flat([c]) == c + [NUL] + [] && Path([c]) == [SLASH] + Escaped(c, ALL) + [];
  }

  ghost predicate IsAddress(comps: seq<Component>) {
    comps != [] && forall c <- comps :: c != [] && NUL !in c
  }

  lemma {:induction false} FlatConcat(a: seq<Component>, b: seq<Component>)
    ensures Flat(a + b) == Flat(a) + Flat(b)
  {
    if a == [] {
      assert a + b == b;
    } else {
      assert (a + b)[1..] == a[1..] + b;
      FlatConcat(a[1..], b);
    }
  }

  lemma {:induction false} PathConcat(a: seq<Component>, b: seq<Component>)
    ensures Path(a + b) == Path(a) + Path(b)
  {
    if a == [] {
      assert a + b == b;
    } else {
      assert (a + b)[1..] == a[1..] + b;
      PathConcat(a[1..], b);
    }
  }

  /** Around component `k`: what is before it, itself, and what follows. */
  lemma Around(comps: seq<Component>, k: nat)
    requires k < |comps|
    ensures Flat(comps) == Flat(comps[..k]) + (comps[k] + [NUL] + Flat(comps[k + 1..]))
    ensures Flat(comps[..k + 1]) == Flat(comps[..k]) + (comps[k] + [NUL])
    ensures Path(comps[..k + 1]) == Path(comps[..k]) + ([SLASH] + Escaped(comps[k], ALL))
    ensures |Path(comps[..k + 1])| <= |Path(comps)|
  {
    assert comps == comps[..k] + comps[k..] && comps[k..][1..] == comps[k + 1..];
    FlatConcat(comps[..k], comps[k..]);
    assert comps[..k + 1] == comps[..k] + [comps[k]];
    FlatConcat(comps[..k], [comps[k]]);
    PathConcat(comps[..k], [comps[k]]);
    assert Path([comps[k]]) == [SLASH] + Escaped(comps[k], ALL) + [];
    assert Flat([comps[k]]) == comps[k] + [NUL] + [];
    assert comps == comps[..k + 1] + comps[k + 1..];
    PathConcat(comps[..k + 1], comps[k + 1..]);
  }

  /** Where component `k` lies in the address buffer, and whether another one follows. */
  lemma InAddress(buffer: seq<byte>, comps: seq<Component>, k: nat)
    requires IsAddress(comps) && k < |comps| && Flat(comps) + [NUL] <= buffer
    ensures var from := |Flat(comps[..k])|;
            && from + |comps[k]| + 1 < |buffer| && buffer[from..from + |comps[k]|] == comps[k] && buffer[from + |comps[k]|] == NUL
            && (forall i :: from <= i < from + |comps[k]| ==> buffer[i] != NUL)
            && (buffer[from + |comps[k]| + 1] == NUL <==> k + 1 == |comps|)
  {
    hide Flat;
    Around(comps, k);
    var pre, c, rest := Flat(comps[..k]), comps[k], Flat(comps[k + 1..]) + [NUL];
    RestStarts(comps, k + 1);
    assert c in comps;
    assert Flat(comps) + [NUL] == pre + (c + [NUL] + rest);
    Layout(buffer, pre, c, rest);
  }

  lemma Layout(buffer: seq<byte>, pre: seq<byte>, c: seq<byte>, rest: seq<byte>)
    requires pre + (c + [NUL] + rest) <= buffer && rest != [] && NUL !in c
    ensures |pre| + |c| + 1 < |buffer| && buffer[|pre|..|pre| + |c|] == c && buffer[|pre| + |c|] == NUL
    ensures forall i :: |pre| <= i < |pre| + |c| ==> buffer[i] != NUL
    ensures buffer[|pre| + |c| + 1] == rest[0]
  {
    var all := pre + (c + [NUL] + rest);
    assert all[|pre| + |c| + 1] == rest[0] && all[|pre| + |c|] == NUL;
    assert all[|pre|..|pre| + |c|] == c && all == buffer[..|all|];
    assert forall i :: |pre| <= i < |pre| + |c| ==> buffer[i] == all[i] == c[i - |pre|];
  }

  lemma RestStarts(comps: seq<Component>, k: nat)
    requires IsAddress(comps) && k <= |comps|
    ensures (Flat(comps[k..]) + [NUL])[0] == NUL <==> k == |comps|
  {
    if k < |comps| {
      assert comps[k] in comps && comps[k][0] in comps[k];
    }
  }

  /** One turn: a slash and component `k`, escaped. */
  method WriteComponent(address: array<byte>, from: nat, path: array<byte>, at: nat, ghost c: Component)
    returns (src: nat, n: nat)
    requires address != path && StringAt(address, from, |c|) && address[from..from + |c|] == c
    requires at + 1 + |Escaped(c, ALL)| < path.Length
    modifies path
    ensures src == from + |c| + 1 && n == at + 1 + |Escaped(c, ALL)|
    ensures path[..n] == old(path[..at]) + ([SLASH] + Escaped(c, ALL))
  {
    hide Escaped;
    path[at] := SLASH;
    assert path[..at + 1] == old(path[..at]) + [SLASH];
    src, n := EscapeTo(address, from, path, at + 1, ALL, |c|);
    assert path[..n] == path[..at + 1] + path[at + 1..n];
    src := src + 1;
  }

  /** The do-while loop, until the second NUL. */
  method WritePath(address: array<byte>, path: array<byte>, ghost comps: seq<Component>) returns (n: nat)
    requires address != path && IsAddress(comps) && Flat(comps) + [NUL] <= address[..]
    requires |Path(comps)| < path.Length
    modifies path
    ensures n == |Path(comps)| && path[..n] == Path(comps) && path[n] == NUL
  {
    hide Flat, Path, Escaped;
    var src := 0;
    n := 0;
    var first := true;
    ghost var k := 0;
    assert comps[..0] == [] && comps[0] in comps;
    PathOfNone();
    InBuffer(address, comps, 0);
    while first || address[src] != NUL
      invariant k <= |comps| && src == |Flat(comps[..k])| && src < address.Length
      invariant n == |Path(comps[..k])| < path.Length && path[..n] == Path(comps[..k])
      invariant first <==> k == 0
      invariant address[src] == NUL <==> k == |comps|
      decreases |comps| - k
    {
      first := false;
      Around(comps, k);
      InBuffer(address, comps, k);
      src, n := WriteComponent(address, src, path, n, comps[k]);
      k := k + 1;
    }
    assert comps[..k] == comps;
    path[n] := NUL;
  }

  lemma InBuffer(address: array<byte>, comps: seq<Component>, k: nat)
    requires IsAddress(comps) && k < |comps| && Flat(comps) + [NUL] <= address[..]
    ensures var from := |Flat(comps[..k])|;
            && StringAt(address, from, |comps[k]|) && address[from..from + |comps[k]|] == comps[k]
            && from + |comps[k]| + 1 < address.Length
            && (address[from + |comps[k]| + 1] == NUL <==> k + 1 == |comps|) && address[from] != NUL
  {
    hide Flat;
    InAddress(address[..], comps, k);
    var from := |Flat(comps[..k])|;
    assert comps[k] in comps;
    assert forall i :: 0 <= i < address.Length ==> address[i] == address[..][i];
    assert address[from..from + |comps[k]|] == address[..][from..from + |comps[k]|];
  }

  lemma PathOfNone()
    ensures Path([]) == [] && Flat([]) == []
  {
  }

  /** The path of any address that fits its buffer fits a buffer three times that size. */
  lemma {:induction false} PathFits(comps: seq<Component>)
    ensures |Path(comps)| + 2 * |comps| <= 3 * |Flat(comps)|
  {
    if comps != [] {
      EscapedLength(comps[0], ALL);
      PathFits(comps[1..]);
    }
  }

  // ----- and back

  function FirstSlash(s: seq<byte>): (i: nat)
    ensures i <= |s| && (forall j :: 0 <= j < i ==> s[j] != SLASH) && (i < |s| ==> s[i] == SLASH)
  {
    if s == [] || s[0] == SLASH then 0 else 1 + FirstSlash(s[1..])
  }

  /** What follows the first part and its separator. */
  function Following(s: seq<byte>): (r: seq<byte>)
    ensures s != [] ==> |r| < |s|
  {
    if FirstSlash(s) < |s| then s[FirstSlash(s) + 1..] else []
  }

  function Parts(s: seq<byte>): seq<seq<byte>>
    decreases |s|
  {
    if s == [] then [] else [s[..FirstSlash(s)]] + Parts(Following(s))
  }

  function Decode(parts: seq<seq<byte>>): seq<Component> {
    if parts == [] then [] else [Unescaped(parts[0])] + Decode(parts[1..])
  }

  /** One component and its NUL for each part. */
  function DecodedAddress(s: seq<byte>): seq<byte> {
    Flat(Decode(Parts(s)))
  }

  lemma DecodeStep(s: seq<byte>)
    requires s != []
    ensures DecodedAddress(s) == Unescaped(s[..FirstSlash(s)]) + [NUL] + DecodedAddress(Following(s))
    ensures DecodedAddress([]) == []
  {
    var p, rest := s[..FirstSlash(s)], Parts(Following(s));
    assert ([p] + rest)[1..] == rest;
    assert Decode(Parts(s)) == [Unescaped(p)] + Decode(rest);
    assert ([Unescaped(p)] + Decode(rest))[1..] == Decode(rest);
  }

  /** Any path behind its first byte: each stretch between slashes is decoded and ended by a NUL. */
  lemma OnePart(part: seq<byte>, rest: seq<byte>)
    requires 47 !in part
    ensures DecodedAddress([]) == [] && (part != [] ==> DecodedAddress(part) == Unescaped(part) + [0])
    ensures DecodedAddress(part + [47] + rest) == Unescaped(part) + [0] + DecodedAddress(rest)
  {
    hide DecodedAddress, Unescaped;
    SlashAfter(part, [47] + rest);
    SlashAfter(part, []);
    var s := part + [47] + rest;
    assert s == part + ([47] + rest) && part == part + [];
    DecodeStep(s);
    assert Following(s) == rest;
    if part != [] {
      DecodeStep(part);
      assert Following(part) == [] && part[..|part|] == part;
      assert Unescaped(part) + [NUL] + [] == Unescaped(part) + [NUL];
    }
  }

  /** The decoded address is no longer than the path with its slash and its NUL. */
  lemma {:induction false} DecodedFits(s: seq<byte>)
    ensures |DecodedAddress(s)| <= |s| + 1 && (s == [] ==> DecodedAddress(s) == [])
    decreases |s|
  {
    if s != [] {
      DecodeStep(s);
      UnescapedLength(s[..FirstSlash(s)]);
      DecodedFits(Following(s));
    }
  }

  /** `strchr` for a slash, or else the end of the string. */
  method PartEnd(str: array<byte>, from: nat, end: nat) returns (i: nat)
    requires from <= end < str.Length && str[end] == NUL
    ensures i == from + FirstSlash(str[from..end])
  {
    i := from;
    while i < end && str[i] != SLASH
      invariant from <= i <= end && FirstSlash(str[from..end]) == i - from + FirstSlash(str[i..end])
    {
      assert str[i..end][1..] == str[i + 1..end];
      i := i + 1;
    }
  }

  /** One turn: the next part, decoded and ended by a NUL. */
  method ReadPart(str: array<byte>, src: nat, end: nat, address: array<byte>, at: nat) returns (src': nat, at': nat)
    requires str != address && src < end < str.Length && str[end] == NUL
    requires at + |DecodedAddress(str[src..end])| < address.Length
    modifies address
    ensures src < src' <= end && str[src'..end] == Following(str[src..end])
    ensures at' == at + |Unescaped(str[src..end][..FirstSlash(str[src..end])])| + 1 <= address.Length
    ensures address[..at'] == old(address[..at]) + (Unescaped(str[src..end][..FirstSlash(str[src..end])]) + [NUL])
  {
    hide Unescaped, DecodedAddress;
    ghost var s := str[src..end];
    DecodeStep(s);
    var sep := PartEnd(str, src, end);
    assert str[src..sep] == s[..FirstSlash(s)];
    var n := UnescapeTo(str, src, sep - src, address, at);
    address[at + n] := NUL;
    assert address[..at + n + 1] == address[..at] + (address[at..at + n] + [NUL]);
    at' := at + n + 1;
    src' := if sep < end then sep + 1 else sep;
    assert sep < end ==> s[FirstSlash(s) + 1..] == str[sep + 1..end];
  }

  /**
   * The path begins with a slash, which is skipped whatever it is; the address ends with one more NUL. An empty
   * path has nothing to skip: reading would start behind its end, and there is no address then.
   */
  method ReadPath(str: array<byte>, end: nat, address: array<byte>) returns (inside: bool, n: nat)
    requires str != address && StringAt(str, 0, end) && address.Length == end + 1
    modifies address
    ensures inside <==> end > 0
    ensures inside ==> n == |DecodedAddress(str[1..end])| + 1 <= address.Length
    ensures inside ==> address[..n] == DecodedAddress(str[1..end]) + [NUL]
    ensures !inside ==> address[..] == old(address[..])
  {
    hide DecodedAddress, Unescaped, Following, FirstSlash;
    if end == 0 {
      return false, 0;
    }
    inside := true;
    ghost var s := str[1..end];
    DecodedFits(s);
    var src := 1;
    n := 0;
    ghost var out: seq<byte> := [];
    while src < end
      invariant 1 <= src <= end && n == |out| && n + |DecodedAddress(str[src..end])| < address.Length
      invariant address[..n] == out && out + DecodedAddress(str[src..end]) == DecodedAddress(s)
      decreases end - src
    {
      ghost var rest := str[src..end];
      ghost var x := Unescaped(rest[..FirstSlash(rest)]) + [NUL];
      DecodeStep(rest);
      src, n := ReadPart(str, src, end, address, n);
      assert out + (x + DecodedAddress(str[src..end])) == (out + x) + DecodedAddress(str[src..end]);
      out := out + x;
    }
    DecodedFits(str[src..end]);
    assert str[src..end] == [] && out + [] == out;
    address[n] := NUL;
    n := n + 1;
    assert address[..n] == out + [NUL];
  }

  /** Written as a path and read back, an address is the same again. */
  lemma {:induction false} AddressRoundTrip(comps: seq<Component>)
    requires IsAddress(comps)
    ensures DecodedAddress(Path(comps)[1..]) == Flat(comps)
  {
    hide DecodedAddress, Unescaped, Escaped;
    var c, e, more := comps[0], Escaped(comps[0], ALL), Path(comps[1..]);
    assert c in comps;
    NoSlash(c);
    RoundTrip(c);
    assert Path(comps)[1..] == e + more;
    if |comps| == 1 {
      assert comps[1..] == [] && e + more == e;
      OnePart(e, []);
    } else {
      assert e + more == e + [47] + more[1..];
      OnePart(e, more[1..]);
      assert forall d <- comps[1..] :: d in comps;
      AddressRoundTrip(comps[1..]);
    }
  }

  lemma NoSlash(c: Component)
    ensures SLASH !in Escaped(c, ALL) && |Escaped(c, ALL)| >= |c|
  {
    hide Escaped;
    EscapedIsClean(c, ALL);
    EscapedLength(c, ALL);
  }

  lemma {:induction false} SlashAfter(e: seq<byte>, rest: seq<byte>)
    requires SLASH !in e && (rest != [] ==> rest[0] == SLASH)
    ensures FirstSlash(e + rest) == |e| && (e + rest)[..|e|] == e
  {
    if e != [] {
      assert (e + rest)[1..] == e[1..] + rest && e[0] in e;
      SlashAfter(e[1..], rest);
    }
  }
}
