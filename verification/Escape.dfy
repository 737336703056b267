/** Percent escaping of names, values and paths in the saved XML files. */
module Escape {

  newtype byte = n: int | 0 <= n < 256

  const NUL: byte := 0
  const PERCENT: byte := 37
  const SLASH: byte := 47

  /** LADISH_ESCAPE_FLAG_XML_ATTR and LADISH_ESCAPE_FLAG_OTHER. */
  datatype Flags = Flags(xmlAttr: bool, other: bool)

  const ALL := Flags(true, true)
  const XML_ATTR := Flags(true, false)

  /** `<`, `&` and `"` cannot stand in an XML attribute value. */
  predicate XmlSpecial(b: byte) {
    b == 60 || b == 38 || b == 34
  }

  /** `/`, `'`, `>` and `%`. */
  predicate OtherSpecial(b: byte) {
    b == SLASH || b == 39 || b == 62 || b == PERCENT
  }

  /** The fall-through of the switch: the other specials need both flags. */
  predicate Escapes(b: byte, flags: Flags) {
    flags.xmlAttr && (XmlSpecial(b) || (flags.other && OtherSpecial(b)))
  }

  function HexDigit(n: byte): byte
    requires n < 16
  {
    if n < 10 then 48 + n else 55 + n
  }

  predicate IsHex(b: byte) {
    48 <= b <= 57 || 65 <= b <= 70
  }

  function HexValue(b: byte): byte
    requires IsHex(b)
  {
    if b <= 57 then b - 48 else b - 55
  }

  function EscapedByte(b: byte, flags: Flags): seq<byte> {
    if Escapes(b, flags) then [PERCENT, HexDigit(b / 16), HexDigit(b % 16)] else [b]
  }

  function Escaped(s: seq<byte>, flags: Flags): seq<byte> {
    if s == [] then [] else EscapedByte(s[0], flags) + Escaped(s[1..], flags)
  }

  predicate Triple(s: seq<byte>) {
    |s| >= 3 && s[0] == PERCENT && IsHex(s[1]) && IsHex(s[2])
  }

  /** The byte that the start of `s` stands for, and how many bytes spell it. */
  function Decoded(s: seq<byte>): byte
    requires s != []
  {
    if Triple(s) then HexValue(s[1]) * 16 + HexValue(s[2]) else s[0]
  }

  function Taken(s: seq<byte>): nat {
    if Triple(s) then 3 else 1
  }

  function Unescaped(s: seq<byte>): seq<byte> {
    if s == [] then [] else [Decoded(s)] + Unescaped(s[Taken(s)..])
  }

  // ----- the loops

  lemma EscapedSnoc(s: seq<byte>, b: byte, flags: Flags)
    ensures Escaped(s + [b], flags) == Escaped(s, flags) + EscapedByte(b, flags)
  {
    if s == [] {
      assert s + [b] == [b];
      assert Escaped([b], flags) == EscapedByte(b, flags) + [];
    } else {
      assert (s + [b])[0] == s[0] && (s + [b])[1..] == s[1..] + [b];
      EscapedSnoc(s[1..], b, flags);
    }
  }

  lemma EscapedPrefix(s: seq<byte>, i: nat, flags: Flags)
    requires i < |s|
    ensures Escaped(s[..i + 1], flags) == Escaped(s[..i], flags) + EscapedByte(s[i], flags)
    ensures |Escaped(s[..i + 1], flags)| <= |Escaped(s, flags)|
  {
    assert s[..i + 1] == s[..i] + [s[i]];
    EscapedSnoc(s[..i], s[i], flags);
    assert s == s[..i + 1] + s[i + 1..];
    EscapedConcat(s[..i + 1], s[i + 1..], flags);
  }

  lemma EscapedConcat(s: seq<byte>, t: seq<byte>, flags: Flags)
    ensures Escaped(s + t, flags) == Escaped(s, flags) + Escaped(t, flags)
  {
    if s == [] {
      assert s + t == t;
    } else {
      assert (s + t)[0] == s[0] && (s + t)[1..] == s[1..] + t;
      EscapedConcat(s[1..], t, flags);
    }
  }

  /** The NUL-terminated string of length `n` at offset `from`. */
  ghost predicate StringAt(a: array<byte>, from: nat, n: nat)
    reads a
  {
    from + n < a.Length && a[from + n] == NUL && forall i :: from <= i < from + n ==> a[i] != NUL
  }

  /** One turn of the loop: three bytes or one. */
  method PutByte(dst: array<byte>, at: nat, b: byte, flags: Flags) returns (end: nat)
    requires at + |EscapedByte(b, flags)| <= dst.Length
    modifies dst
    ensures end == at + |EscapedByte(b, flags)|
    ensures dst[..at] == old(dst[..at]) && dst[at..end] == EscapedByte(b, flags) && dst[end..] == old(dst[end..])
  {
    if Escapes(b, flags) {
      dst[at] := PERCENT;
      dst[at + 1] := HexDigit(b / 16);
      dst[at + 2] := HexDigit(b % 16);
      end := at + 3;
    } else {
      dst[at] := b;
      end := at + 1;
    }
  }

  /** Both pointers end up where the loop stopped: at the NUL, and behind the last byte written. */
  method EscapeTo(src: array<byte>, from: nat, dst: array<byte>, to: nat, flags: Flags, ghost n: nat)
    returns (srcEnd: nat, dstEnd: nat)
    requires src != dst && StringAt(src, from, n)
    requires to + |Escaped(src[from..from + n], flags)| <= dst.Length
    modifies dst
    ensures srcEnd == from + n
    ensures dstEnd == to + |Escaped(src[from..from + n], flags)|
    ensures dst[..to] == old(dst[..to])
    ensures dst[to..dstEnd] == Escaped(src[from..from + n], flags)
    ensures dst[dstEnd..] == old(dst[dstEnd..])
  {
    hide Escaped, EscapedByte;
    NothingEscaped(flags);
    ghost var s := src[from..from + n];
    srcEnd, dstEnd := from, to;
    while src[srcEnd] != NUL
      invariant from <= srcEnd <= from + n && to <= dstEnd <= dst.Length
      invariant dst[..to] == old(dst[..to]) && dst[to..dstEnd] == Escaped(s[..srcEnd - from], flags)
      invariant dst[dstEnd..] == old(dst[dstEnd..])
      decreases from + n - srcEnd
    {
      var b := src[srcEnd];
      EscapedPrefix(s, srcEnd - from, flags);
      ghost var before, i := dst[..], dstEnd;
      dstEnd := PutByte(dst, dstEnd, b, flags);
      KeptAround(before, dst[..], old(dst[..]), to, i, dstEnd);
      srcEnd := srcEnd + 1;
    }
    assert s[..n] == s;
  }

  lemma NothingEscaped(flags: Flags)
    ensures Escaped([], flags) == []
  {
  }

  lemma KeptAround(before: seq<byte>, after: seq<byte>, start: seq<byte>, to: nat, i: nat, end: nat)
    requires |before| == |after| == |start| && to <= i <= end <= |after|
    requires after[..i] == before[..i] && after[end..] == before[end..]
    requires before[..to] == start[..to] && before[i..] == start[i..]
    ensures after[..to] == start[..to] && after[end..] == start[end..]
    ensures after[to..end] == before[to..i] + after[i..end]
  {
    assert after[..to] == after[..i][..to] && before[..to] == before[..i][..to];
    assert before[end..] == before[i..][end - i..] && start[end..] == start[i..][end - i..];
    assert after[to..i] == after[..i][to..] && before[to..i] == before[..i][to..];
  }

  /**
   * Reads `len` bytes at `from` and writes their decoding at `to`. The source may be the
   * destination, as long as writing starts no later than reading.
   */
  method UnescapeTo(src: array<byte>, from: nat, len: nat, dst: array<byte>, to: nat) returns (n: nat)
    requires from + len <= src.Length && to + |Unescaped(src[from..from + len])| <= dst.Length
    requires src == dst ==> to <= from
    modifies dst
    ensures n == |Unescaped(old(src[from..from + len]))|
    ensures dst[..to] == old(dst[..to])
    ensures dst[to..to + n] == Unescaped(old(src[from..from + len]))
    ensures dst[to + n..] == old(dst[to + n..])
  {
    hide Unescaped, Decoded, Taken, Unescaping;
    ghost var s, was := src[from..from + len], dst[..];
    ghost var out: seq<byte> := [];
    var i := 0;
    n := 0;
    UnescapingStarts(src, from, len, dst, to);
    while i < len
      invariant Unescaping(src, from, len, dst, to, i, n, s, out, was)
      decreases len - i
    {
      var b, k := UnescapeNext(src, from, len, dst, to, i, n, s, out, was);
      out := out + [b];
      i := i + k;
      n := n + 1;
    }
    UnescapingEnds(src, from, len, dst, to, i, n, s, out, was);
  }

  /** The loop has read `i` bytes of `s` and written `n`; what it has not reached is as it was. */
  ghost predicate Unescaping(src: array<byte>, from: nat, len: nat, dst: array<byte>, to: nat, i: nat, n: nat,
                             s: seq<byte>, out: seq<byte>, was: seq<byte>)
    reads src, dst
  {
    && from + len <= src.Length && |s| == len && n <= i <= len && |was| == dst.Length
    && (src == dst ==> to <= from)
    && to + n + |Unescaped(s[i..])| <= dst.Length && src[from + i..from + len] == s[i..]
    && |out| == n && out + Unescaped(s[i..]) == Unescaped(s)
    && dst[..to] == was[..to] && dst[to..to + n] == out && dst[to + n..] == was[to + n..]
  }

  lemma UnescapingStarts(src: array<byte>, from: nat, len: nat, dst: array<byte>, to: nat)
    requires from + len <= src.Length && to + |Unescaped(src[from..from + len])| <= dst.Length
    requires src == dst ==> to <= from
    ensures Unescaping(src, from, len, dst, to, 0, 0, src[from..from + len], [], dst[..])
  {
    hide Unescaped;
    UnescapeEnd(src[from..from + len]);
  }

  lemma UnescapingEnds(src: array<byte>, from: nat, len: nat, dst: array<byte>, to: nat, i: nat, n: nat,
                       s: seq<byte>, out: seq<byte>, was: seq<byte>)
    requires Unescaping(src, from, len, dst, to, i, n, s, out, was) && i >= len
    ensures n == |Unescaped(s)| && to + n <= dst.Length == |was|
    ensures dst[..to] == was[..to] && dst[to..to + n] == Unescaped(s) && dst[to + n..] == was[to + n..]
  {
    hide Unescaped;
    UnescapeEnd(s);
    assert out + [] == out;
  }

  method UnescapeNext(src: array<byte>, from: nat, len: nat, dst: array<byte>, to: nat, i: nat, n: nat,
                      ghost s: seq<byte>, ghost out: seq<byte>, ghost was: seq<byte>) returns (b: byte, k: nat)
    requires Unescaping(src, from, len, dst, to, i, n, s, out, was) && i < len
    modifies dst
    ensures 0 < k <= len - i && Unescaping(src, from, len, dst, to, i + k, n + 1, s, out + [b], was)
  {
    hide Unescaped, Decoded, Taken;
    ghost var before := dst[..];
    b, k := ReadByte(src, from + i, len - i);
    UnescapeStep(s, out, i);
    dst[to + n] := b;
    KeptAround(before, dst[..], was, to, to + n, to + n + 1);
    StillAhead(s, src[from..from + len], i, k);
  }

  lemma UnescapeEnd(s: seq<byte>)
    ensures Unescaped(s[|s|..]) == [] && s[0..] == s
  {
  }

  lemma UnescapeStep(s: seq<byte>, out: seq<byte>, i: nat)
    requires i < |s| && out + Unescaped(s[i..]) == Unescaped(s)
    ensures i + Taken(s[i..]) <= |s| && |Unescaped(s[i..])| == 1 + |Unescaped(s[i + Taken(s[i..])..])|
    ensures out + [Decoded(s[i..])] + Unescaped(s[i + Taken(s[i..])..]) == Unescaped(s)
  {
    assert s[i..][Taken(s[i..])..] == s[i + Taken(s[i..])..];
  }

  /** What lies ahead of the reader is as it was, if only bytes behind it were written. */
  lemma StillAhead(s: seq<byte>, now: seq<byte>, i: nat, k: nat)
    requires |s| == |now| && 0 < k && i + k <= |s| && now[i + 1..] == s[i + 1..]
    ensures now[i + k..] == s[i + k..]
  {
    assert now[i + k..] == now[i + 1..][k - 1..] && s[i + k..] == s[i + 1..][k - 1..];
  }

  /** The two branches of the loop body: a triple, or a byte that stands for itself. */
  method ReadByte(src: array<byte>, at: nat, left: nat) returns (b: byte, k: nat)
    requires 0 < left && at + left <= src.Length
    ensures b == Decoded(src[at..at + left]) && k == Taken(src[at..at + left]) <= left
  {
    if left >= 3 && src[at] == PERCENT && IsHex(src[at + 1]) && IsHex(src[at + 2]) {
      b, k := HexValue(src[at + 1]) * 16 + HexValue(src[at + 2]), 3;
    } else {
      b, k := src[at], 1;
    }
  }

  /** The terminating NUL is decoded along and still ends the string. */
  method UnescapeSimple(buffer: array<byte>, n: nat)
    requires StringAt(buffer, 0, n)
    modifies buffer
    ensures var s := old(buffer[..n]);
            && |Unescaped(s)| <= n && buffer[..|Unescaped(s)|] == Unescaped(s) && buffer[|Unescaped(s)|] == NUL
            && buffer[|Unescaped(s)| + 1..] == old(buffer[|Unescaped(s)| + 1..])
  {
    hide Unescaped;
    ghost var s := buffer[..n];
    assert buffer[0..0 + (n + 1)] == s + [NUL];
    UnescapedNul(s);
    UnescapedLength(s);
    UnescapedLength(s + [NUL]);
    var m := UnescapeTo(buffer, 0, n + 1, buffer, 0);
    assert buffer[0..m] == Unescaped(s) + [NUL];
    assert buffer[m - 1] == buffer[0..m][m - 1] == NUL;
    assert buffer[..m - 1] == buffer[0..m][..m - 1];
  }

  lemma {:induction false} UnescapedNul(s: seq<byte>)
    ensures Unescaped(s + [NUL]) == Unescaped(s) + [NUL]
  {
    if s != [] {
      var t := s + [NUL];
      assert Triple(t) <==> Triple(s);
      assert t[Taken(s)..] == s[Taken(s)..] + [NUL];
      UnescapedNul(s[Taken(s)..]);
    }
  }

  lemma {:induction false} UnescapedLength(s: seq<byte>)
    ensures |Unescaped(s)| <= |s|
  {
    if s != [] {
      UnescapedLength(s[Taken(s)..]);
    }
  }

  // ----- which bytes are escaped, and how, byte by byte

  /** The sixteen digits, as ASCII codes of `0` to `9` and `A` to `F`. */
  const HEX: seq<byte> := [48, 49, 50, 51, 52, 53, 54, 55, 56, 57, 65, 66, 67, 68, 69, 70]

  /** With both flags `"`, `%`, `&`, `'`, `/`, `<` and `>`; with the first alone `"`, `&` and `<`; else none. */
  lemma EscapesWhich(b: byte)
    ensures Escaped([b], ALL) != [b] <==> b in {34, 37, 38, 39, 47, 60, 62}
    ensures Escaped([b], XML_ATTR) != [b] <==> b in {34, 38, 60}
    ensures Escaped([b], Flags(false, true)) == [b] == Escaped([b], Flags(false, false))
  {
    assert [b][1..] == [];
  }

  /** An escape is a `%` and the two digits of the byte, the higher one first; the text is escaped byte by byte. */
  lemma EscapesHow(s: seq<byte>, b: byte, flags: Flags)
    ensures Escaped([], flags) == [] && Escaped(s + [b], flags) == Escaped(s, flags) + Escaped([b], flags)
    ensures Escaped([b], flags) == [b] || Escaped([b], flags) == [37, HEX[b / 16], HEX[b % 16]]
  {
    EscapedSnoc(s, b, flags);
    EscapedSnoc([], b, flags);
    assert [] + [b] == [b];
  }

  /** A `%` with two such digits is one byte. */
  lemma UnescapesTriple(s: seq<byte>, i: nat, j: nat)
    requires i < 16 && j < 16 && |s| >= 3 && s[0] == 37 && s[1] == HEX[i] && s[2] == HEX[j]
    ensures Unescaped(s) == [(16 * i + j) as byte] + Unescaped(s[3..])
  {
    hide HEX, Decoded, Taken, Unescaped;
    UnescapedStart(s);
    TripleValue(s, i, j);
  }

  /** Any other byte stands for itself. */
  lemma UnescapesOther(s: seq<byte>)
    requires !(|s| >= 3 && s[0] == 37 && s[1] in HEX && s[2] in HEX)
    ensures Unescaped(s) == if s == [] then [] else [s[0]] + Unescaped(s[1..])
  {
    hide HEX, Decoded, Taken, Unescaped, Triple;
    UnescapedStart(s);
    TripleIs(s);
    if s != [] {
      DecodedSingle(s);
    }
  }

  lemma UnescapedStart(s: seq<byte>)
    ensures Unescaped([]) == []
    ensures s != [] ==> Taken(s) <= |s| && Unescaped(s) == [Decoded(s)] + Unescaped(s[Taken(s)..])
  {
  }

  lemma TripleValue(s: seq<byte>, i: nat, j: nat)
    requires i < 16 && j < 16 && |s| >= 3 && s[0] == 37 && s[1] == HEX[i] && s[2] == HEX[j]
    ensures Taken(s) == 3 && Decoded(s) == (16 * i + j) as byte
  {
    hide IsHex, HexValue, HEX;
    DigitValue(i);
    DigitValue(j);
  }

  lemma TripleIs(s: seq<byte>)
    ensures Triple(s) <==> |s| >= 3 && s[0] == 37 && s[1] in HEX && s[2] in HEX
  {
    if |s| >= 3 {
      DigitIs(s[1]);
      DigitIs(s[2]);
    }
  }

  lemma DigitIs(b: byte)
    ensures b in HEX <==> IsHex(b)
  {
    if IsHex(b) {
      DigitListed(b);
    }
  }

  lemma DecodedSingle(s: seq<byte>)
    requires s != [] && !Triple(s)
    ensures Taken(s) == 1 && Decoded(s) == s[0]
  {
  }

  lemma DigitValue(i: nat)
    requires i < 16
    ensures |HEX| == 16 && IsHex(HEX[i]) && HexValue(HEX[i]) as int == i
  {
  }

  lemma DigitListed(b: byte)
    requires IsHex(b)
    ensures b in HEX
  {
    assert HEX[HexValue(b)] == b;
  }

  // ----- what the codec keeps

  /** The escape of a special byte is a triple that spells it. */
  lemma EscapedTriple(b: byte, rest: seq<byte>)
    ensures var t := [PERCENT, HexDigit(b / 16), HexDigit(b % 16)] + rest;
            Triple(t) && Decoded(t) == b && t[3..] == rest
  {
  }

  lemma {:induction false} RoundTrip(s: seq<byte>)
    ensures Unescaped(Escaped(s, ALL)) == s
  {
    if s != [] {
      RoundTrip(s[1..]);
      var rest := Escaped(s[1..], ALL);
      if Escapes(s[0], ALL) {
        EscapedTriple(s[0], rest);
      } else {
        assert Escaped(s, ALL) == [s[0]] + rest && !Triple([s[0]] + rest);
        assert ([s[0]] + rest)[1..] == rest;
      }
    }
  }

  /** With only the XML flag a percent sign stays as it is, so escaping changes nothing for the decoder. */
  lemma {:induction false} XmlEscapingIsTransparent(s: seq<byte>)
    ensures Unescaped(Escaped(s, XML_ATTR)) == Unescaped(s)
    decreases |s|
  {
    if s != [] {
      var e := Escaped(s, XML_ATTR);
      if Escapes(s[0], XML_ATTR) {
        EscapedTriple(s[0], Escaped(s[1..], XML_ATTR));
        XmlEscapingIsTransparent(s[1..]);
      } else {
        TripleKept(s);
        if Triple(s) {
          assert e == s[..3] + Escaped(s[3..], XML_ATTR) by {
            EscapedConcat(s[..3], s[3..], XML_ATTR);
            assert s == s[..3] + s[3..];
            PlainThree(s);
          }
          assert e[3..] == Escaped(s[3..], XML_ATTR) && e[..3] == s[..3];
          XmlEscapingIsTransparent(s[3..]);
        } else {
          assert e == [s[0]] + Escaped(s[1..], XML_ATTR) && e[1..] == Escaped(s[1..], XML_ATTR);
          XmlEscapingIsTransparent(s[1..]);
        }
      }
    }
  }

  lemma PlainThree(s: seq<byte>)
    requires Triple(s)
    ensures Escaped(s[..3], XML_ATTR) == s[..3]
  {
    var a, b, c := s[0], s[1], s[2];
    assert s[..3] == [a] + [b, c] && [b, c] == [b] + [c];
    assert Escaped([c], XML_ATTR) == [c] + Escaped([], XML_ATTR);
    assert Escaped([b, c], XML_ATTR) == [b] + Escaped([c], XML_ATTR);
    assert s[..3][1..] == [b, c];
  }

  /** Escaping makes no triple of something that was none, nor breaks one. */
  lemma TripleKept(s: seq<byte>)
    requires s != [] && !Escapes(s[0], XML_ATTR)
    ensures Triple(Escaped(s, XML_ATTR)) <==> Triple(s)
  {
    var e := Escaped(s, XML_ATTR);
    if |s| >= 2 {
      var r := Escaped(s[1..], XML_ATTR);
      assert e == [s[0]] + r;
      if IsHex(s[1]) {
        assert r == [s[1]] + Escaped(s[1..][1..], XML_ATTR);
        assert s[1..][1..] == s[2..];
        if |s| >= 3 {
          assert Escaped(s[2..], XML_ATTR) == EscapedByte(s[2], XML_ATTR) + Escaped(s[2..][1..], XML_ATTR);
        }
      } else {
        assert e[1] == r[0] == EscapedByte(s[1], XML_ATTR)[0];
      }
    } else {
      assert s[1..] == [];
    }
  }

  /** `s` has no `%` followed by two hexadecimal digits. */
  predicate Unambiguous(s: seq<byte>) {
    forall i :: 0 <= i < |s| ==> !Triple(s[i..])
  }

  /** A name saved with the XML flag is loaded back unchanged exactly when it spells no triple itself. */
  lemma XmlRoundTripWhen(s: seq<byte>)
    ensures Unescaped(Escaped(s, XML_ATTR)) == s <==> Unambiguous(s)
  {
    XmlEscapingIsTransparent(s);
    DecodesToItself(s);
  }

  lemma {:induction false} DecodesToItself(s: seq<byte>)
    ensures Unescaped(s) == s <==> Unambiguous(s)
  {
    if s != [] {
      assert s[0..] == s;
      if Triple(s) {
        UnescapedLength(s[3..]);
      } else {
        DecodesToItself(s[1..]);
        UnambiguousTail(s);
        assert s == [s[0]] + s[1..];
      }
    }
  }

  lemma UnambiguousTail(s: seq<byte>)
    requires s != [] && !Triple(s)
    ensures Unambiguous(s) <==> Unambiguous(s[1..])
  {
    assert s[0..] == s;
    assert forall i :: 0 <= i < |s| - 1 ==> s[1..][i..] == s[i + 1..];
    if Unambiguous(s[1..]) {
      assert forall i :: 1 <= i < |s| ==> s[i..] == s[1..][i - 1..];
    }
  }

  ghost function Specials(s: seq<byte>, flags: Flags): nat {
    if s == [] then 0 else (if Escapes(s[0], flags) then 1 else 0) + Specials(s[1..], flags)
  }

  /** Exactly how much room the escaped text takes, without its NUL; at most three bytes for each. */
  lemma {:induction false} EscapedLength(s: seq<byte>, flags: Flags)
    ensures |Escaped(s, flags)| == |s| + 2 * Specials(s, flags) && Specials(s, flags) <= |s|
  {
    if s != [] {
      EscapedLength(s[1..], flags);
    }
  }

  /** Three bytes for each are room enough for the text and its NUL exactly if some byte stands for itself. */
  lemma EscapedFits(s: seq<byte>, flags: Flags)
    ensures |Escaped(s, flags)| + 1 <= 3 * |s| <==> Specials(s, flags) < |s|
  {
    EscapedLength(s, flags);
  }

  /** Slashes only, or nothing at all: the byte for the NUL is not there. */
  lemma Misfits(n: nat)
    ensures var s := seq(n, _ => SLASH); !(|Escaped(s, ALL)| + 1 <= 3 * |s|)
  {
    var s := seq(n, _ => SLASH);
    EscapedFits(s, ALL);
    AllSpecial(s, ALL);
  }

  lemma {:induction false} AllSpecial(s: seq<byte>, flags: Flags)
    requires forall b <- s :: Escapes(b, flags)
    ensures Specials(s, flags) == |s|
  {
    if s != [] {
      AllSpecial(s[1..], flags);
    }
  }

  /** What XML forbids in an attribute value never gets there, nor do the other specials with both flags; no NUL is new. */
  lemma {:induction false} EscapedIsClean(s: seq<byte>, flags: Flags)
    requires flags.xmlAttr
    ensures var t := Escaped(s, flags); 34 !in t && 38 !in t && 60 !in t
    ensures flags.other ==> var t := Escaped(s, flags); 39 !in t && 47 !in t && 62 !in t
    ensures NUL !in s ==> NUL !in Escaped(s, flags)
  {
    if s != [] {
      EscapedIsClean(s[1..], flags);
      var a, u := EscapedByte(s[0], flags), Escaped(s[1..], flags);
      assert if Escapes(s[0], flags) then forall b <- a :: b == 37 || 48 <= b <= 57 || 65 <= b <= 70 else a == [s[0]];
      hide Escaped, EscapedByte;
      assert forall b <- a + u :: b in a || b in u;
    }
  }

  /** With both flags every `%` that gets there begins an escape. */
  lemma {:induction false} PercentsBeginEscapes(s: seq<byte>, i: nat)
    requires i < |Escaped(s, ALL)| && Escaped(s, ALL)[i] == 37
    ensures i + 2 < |Escaped(s, ALL)| && Escaped(s, ALL)[i + 1] in HEX && Escaped(s, ALL)[i + 2] in HEX
  {
    var a, u := EscapedByte(s[0], ALL), Escaped(s[1..], ALL);
    if i >= |a| {
      PercentsBeginEscapes(s[1..], i - |a|);
      assert forall k :: |a| <= k < |a + u| ==> (a + u)[k] == u[k - |a|];
    } else {
      DigitListed(HexDigit(s[0] / 16));
      DigitListed(HexDigit(s[0] % 16));
    }
  }
}
