/** UTF-8 as Go converts between strings and runes: section 3 of RFC 3629, with every
    byte that does not begin a well-formed sequence read as U+FFFD. */
module Utf8 {
  type Byte = b: int | 0 <= b < 256

  /** A Unicode scalar value. */
  type Rune = r: int | 0 <= r < 0xD800 || 0xE000 <= r < 0x11_0000

  const REPLACEMENT: Rune := 0xFFFD

  /** Six bits go into each byte after the first, high bits first. */
  function EncodeRune(r: Rune): seq<Byte> {
    if r < 0x80 then [r]
    else if r < 0x800 then [0xC0 + r / 64, 0x80 + r % 64]
    else if r < 0x1_0000 then [0xE0 + r / 64 / 64, 0x80 + r / 64 % 64, 0x80 + r % 64]
    else [0xF0 + r / 64 / 64 / 64, 0x80 + r / 64 / 64 % 64, 0x80 + r / 64 % 64, 0x80 + r % 64]
  }

  predicate Tail(b: Byte) {
    0x80 <= b <= 0xBF
  }

  /** How many bytes the well-formed sequence at the start of s has; 0 if there is none.
      The second byte's range keeps out overlong forms, surrogates and values above U+10FFFF. */
  function WellFormed(s: seq<Byte>): (n: nat)
    ensures n <= 4 && n <= |s|
  {
    if s == [] then 0
    else if s[0] < 0x80 then 1
    else if 0xC2 <= s[0] <= 0xDF && |s| >= 2 && Tail(s[1]) then 2
    else if 0xE0 <= s[0] <= 0xEF && |s| >= 3 && Tail(s[1]) && Tail(s[2]) &&
            (s[0] == 0xE0 ==> s[1] >= 0xA0) && (s[0] == 0xED ==> s[1] <= 0x9F) then 3
    else if 0xF0 <= s[0] <= 0xF4 && |s| >= 4 && Tail(s[1]) && Tail(s[2]) && Tail(s[3]) &&
            (s[0] == 0xF0 ==> s[1] >= 0x90) && (s[0] == 0xF4 ==> s[1] <= 0x8F) then 4
    else 0
  }

  function Lead(b: int, mark: int): int {
    b - mark
  }

  /** Six more bits. */
  function Join(high: int, b: int): int {
    64 * high + (b - 0x80)
  }

  /** The rune at the start of s and its width. */
  function DecodeRune(s: seq<Byte>): (Rune, nat)
    requires s != []
  {
    var n := WellFormed(s);
    if n == 1 then (s[0], 1)
    else if n == 2 then (Join(Lead(s[0], 0xC0), s[1]), 2)
    else if n == 3 then (Join(Join(Lead(s[0], 0xE0), s[1]), s[2]), 3)
    else if n == 4 then (Join(Join(Join(Lead(s[0], 0xF0), s[1]), s[2]), s[3]), 4)
    else (REPLACEMENT, 1)
  }

  /** []rune(s) */
  function Runes(s: seq<Byte>): seq<Rune> {
    if s == [] then [] else var (r, n) := DecodeRune(s); [r] + Runes(s[n..])
  }

  /** string(rs) */
  function Bytes(rs: seq<Rune>): seq<Byte> {
    if rs == [] then [] else EncodeRune(rs[0]) + Bytes(rs[1..])
  }

  /** Well-formed throughout. */
  predicate Valid(s: seq<Byte>) {
    s == [] || (WellFormed(s) > 0 && Valid(s[WellFormed(s)..]))
  }

  lemma EncodedIsWellFormed(r: Rune, rest: seq<Byte>)
    ensures WellFormed(EncodeRune(r) + rest) == |EncodeRune(r)|
    ensures DecodeRune(EncodeRune(r) + rest) == (r, |EncodeRune(r)|)
  {
    var e := EncodeRune(r);
    var s := e + rest;
    assert forall i | 0 <= i < |e| :: s[i] == e[i];
    if r < 0x80 {
    } else if r < 0x800 {
      assert WellFormed(s) == 2;
    } else if r < 0x1_0000 {
      assert 64 * (r / 64) + r % 64 == r && 64 * (r / 64 / 64) + r / 64 % 64 == r / 64;
      assert s[0] == 0xED ==> r / 64 < 0xD800 / 64;
      assert WellFormed(s) == 3;
    } else {
      assert 64 * (r / 64) + r % 64 == r && 64 * (r / 64 / 64) + r / 64 % 64 == r / 64;
      assert 64 * (r / 64 / 64 / 64) + r / 64 / 64 % 64 == r / 64 / 64;
      assert WellFormed(s) == 4;
    }
  }

  lemma JoinSplits(high: int, b: Byte)
    requires Tail(b)
    ensures Join(high, b) / 64 == high && Join(high, b) % 64 == b - 0x80
  {
  }

  lemma DecodedIsEncoded(s: seq<Byte>)
    requires s != [] && WellFormed(s) > 0
    ensures EncodeRune(DecodeRune(s).0) == s[..WellFormed(s)] && DecodeRune(s).1 == WellFormed(s)
  {
    var n, r := WellFormed(s), DecodeRune(s).0;
    if n == 2 {
      JoinSplits(Lead(s[0], 0xC0), s[1]);
    } else if n == 3 {
      var high := Join(Lead(s[0], 0xE0), s[1]);
      JoinSplits(Lead(s[0], 0xE0), s[1]);
      JoinSplits(high, s[2]);
      assert 0x800 <= r < 0x1_0000;
    } else if n == 4 {
      var top := Join(Lead(s[0], 0xF0), s[1]);
      var high := Join(top, s[2]);
      JoinSplits(Lead(s[0], 0xF0), s[1]);
      JoinSplits(top, s[2]);
      JoinSplits(high, s[3]);
      assert r >= 0x1_0000;
    }
  }

  /** Encoding then decoding gives the runes back, and what is encoded is valid. */
  lemma {:induction false} RunesOfBytes(rs: seq<Rune>)
    ensures Runes(Bytes(rs)) == rs && Valid(Bytes(rs))
  {
    if rs == [] {
    } else {
      var rest := Bytes(rs[1..]);
      EncodedIsWellFormed(rs[0], rest);
      assert Bytes(rs)[|EncodeRune(rs[0])|..] == rest;
      RunesOfBytes(rs[1..]);
    }
  }

  lemma BytesOneMore(r: Rune, rs: seq<Rune>)
    ensures Bytes([r] + rs) == EncodeRune(r) + Bytes(rs)
  {
    assert ([r] + rs)[1..] == rs;
  }

  // ---------------------------------------------------------------- Order

  /** a and b agree up to n, where a has the smaller element. */
  predicate SmallerAt(a: seq<int>, b: seq<int>, n: nat) {
    n < |a| && n < |b| && a[..n] == b[..n] && a[n] < b[n]
  }

  lemma SixBitsDecide(x: nat, y: nat)
    requires x < y
    ensures x / 64 < y / 64 || (x / 64 == y / 64 && x % 64 < y % 64)
  {
  }

  lemma TwoBytesKeepOrder(r: Rune, t: Rune) returns (n: nat)
    requires 0x80 <= r < t < 0x800
    ensures SmallerAt(EncodeRune(r), EncodeRune(t), n)
  {
    SixBitsDecide(r, t);
    n := if r / 64 < t / 64 then 0 else 1;
    assert n == 1 ==> EncodeRune(r)[..1] == EncodeRune(t)[..1];
  }

  lemma ThreeBytesKeepOrder(r: Rune, t: Rune) returns (n: nat)
    requires 0x800 <= r < t < 0x1_0000
    ensures SmallerAt(EncodeRune(r), EncodeRune(t), n)
  {
    var a, b := EncodeRune(r), EncodeRune(t);
    var x, y := r / 64, t / 64;
    SixBitsDecide(r, t);
    if x == y {
      n := 2;
      assert a[..2] == b[..2];
    } else {
      SixBitsDecide(x, y);
      n := if x / 64 < y / 64 then 0 else 1;
      assert n == 1 ==> a[..1] == b[..1];
    }
  }

  lemma FourBytesKeepOrder(r: Rune, t: Rune) returns (n: nat)
    requires 0x1_0000 <= r < t
    ensures SmallerAt(EncodeRune(r), EncodeRune(t), n)
  {
    var a, b := EncodeRune(r), EncodeRune(t);
    var x, y := r / 64, t / 64;
    SixBitsDecide(r, t);
    if x == y {
      n := 3;
      assert a[..3] == b[..3];
    } else {
      SixBitsDecide(x, y);
      if x / 64 == y / 64 {
        n := 2;
        assert a[..2] == b[..2];
      } else {
        SixBitsDecide(x / 64, y / 64);
        n := if x / 64 / 64 < y / 64 / 64 then 0 else 1;
        assert n == 1 ==> a[..1] == b[..1];
      }
    }
  }

  /** Of two runes the smaller has the smaller bytes. */
  lemma EncodingKeepsOrder(r: Rune, t: Rune) returns (n: nat)
    requires r < t
    ensures SmallerAt(EncodeRune(r), EncodeRune(t), n)
  {
    if 0x80 <= r && t < 0x800 {
      n := TwoBytesKeepOrder(r, t);
    } else if 0x800 <= r && t < 0x1_0000 {
      n := ThreeBytesKeepOrder(r, t);
    } else if 0x1_0000 <= r {
      n := FourBytesKeepOrder(r, t);
    } else {
      n := 0;
    }
  }

  lemma {:induction false} BytesInTwo(rs: seq<Rune>, ts: seq<Rune>)
    ensures Bytes(rs + ts) == Bytes(rs) + Bytes(ts)
  {
    if rs == [] {
      assert rs + ts == ts;
    } else {
      assert (rs + ts)[1..] == rs[1..] + ts;
      BytesInTwo(rs[1..], ts);
    }
  }

  lemma SplitAt<T>(s: seq<T>, n: nat)
    requires n < |s|
    ensures s[..n] + s[n..] == s && [s[n]] + s[n + 1..] == s[n..]
  {
  }

  lemma BytesAround(rs: seq<Rune>, n: nat)
    requires n < |rs|
    ensures Bytes(rs) == Bytes(rs[..n]) + (EncodeRune(rs[n]) + Bytes(rs[n + 1..]))
  {
    BytesInTwo(rs[..n], rs[n..]);
    BytesOneMore(rs[n], rs[n + 1..]);
    SplitAt(rs, n);
  }

  /** A difference stays one after the same beginning and whatever follows. */
  lemma SmallerInside(before: seq<int>, a: seq<int>, a': seq<int>, b: seq<int>, b': seq<int>, i: nat)
    requires SmallerAt(a, b, i)
    ensures SmallerAt(before + (a + a'), before + (b + b'), |before| + i)
  {
    assert (before + (a + a'))[..|before| + i] == before + a[..i];
    assert (before + (b + b'))[..|before| + i] == before + b[..i];
  }

  /** The byte order of encoded strings is the order of their characters: where two strings
      first differ in a character, their bytes first differ in one that is smaller too. */
  lemma BytesKeepOrder(rs: seq<Rune>, ts: seq<Rune>, n: nat) returns (m: nat)
    requires SmallerAt(rs, ts, n)
    ensures SmallerAt(Bytes(rs), Bytes(ts), m)
  {
    var i := EncodingKeepsOrder(rs[n], ts[n]);
    m := |Bytes(rs[..n])| + i;
    BytesAround(rs, n);
    BytesAround(ts, n);
    SmallerInside(Bytes(rs[..n]), EncodeRune(rs[n]), Bytes(rs[n + 1..]), EncodeRune(ts[n]), Bytes(ts[n + 1..]), i);
  }

  /** The examples of section 7 of RFC 3629, and U+0041. */
  lemma KnownEncodings()
    ensures EncodeRune(0x41) == [0x41] && EncodeRune(0x391) == [0xCE, 0x91]
    ensures EncodeRune(0x2262) == [0xE2, 0x89, 0xA2] && EncodeRune(0x65E5) == [0xE6, 0x97, 0xA5]
    ensures EncodeRune(0x233B4) == [0xF0, 0xA3, 0x8E, 0xB4]
  {
  }

  // ---------------------------------------------------------------- Cutting

  /** The first k runes of s are read from well-formed sequences. */
  predicate BeginsWell(s: seq<Byte>, k: nat) {
    k == 0 || (s != [] && WellFormed(s) > 0 && BeginsWell(s[WellFormed(s)..], k - 1))
  }

  lemma {:induction false} ValidBeginsWell(s: seq<Byte>, k: nat)
    requires Valid(s) && k <= |Runes(s)|
    ensures BeginsWell(s, k)
  {
    if k == 0 {
    } else {
      DecodedIsEncoded(s);
      ValidBeginsWell(s[WellFormed(s)..], k - 1);
    }
  }

  /** What an ill-formed byte is replaced by is not what follows there. */
  lemma ReplacementIsNoPrefix(s: seq<Byte>, more: seq<Byte>)
    requires WellFormed(s) == 0
    ensures !(EncodeRune(REPLACEMENT) + more <= s)
  {
    var e: seq<Byte> := [0xEF, 0xBF, 0xBD];
    assert EncodeRune(REPLACEMENT) == e;
    assert |s| >= 3 ==> s[..3] != e;
    assert (e + more)[..3] == e;
  }

  lemma PrefixAfter(a: seq<Byte>, b: seq<Byte>, c: seq<Byte>)
    ensures a + b <= a + c <==> b <= c
  {
    if a + b <= a + c {
      assert b == (a + b)[|a|..] && c == (a + c)[|a|..];
      assert b == (a + c)[..|a| + |b|][|a|..];
    }
  }

  /** A rune that is written as it was read is a prefix as far as what follows it is. */
  lemma WellWrittenFirst(s: seq<Byte>, n: nat, r: Rune, later: seq<Rune>)
    requires n <= |s| && EncodeRune(r) == s[..n]
    ensures Bytes([r] + later) <= s <==> Bytes(later) <= s[n..]
  {
    BytesOneMore(r, later);
    PrefixAfter(s[..n], Bytes(later), s[n..]);
    assert s == s[..n] + s[n..];
  }

  /** A replacement in its place is not. */
  lemma ReplacedFirst(s: seq<Byte>, later: seq<Rune>)
    requires WellFormed(s) == 0
    ensures !(Bytes([REPLACEMENT] + later) <= s)
  {
    BytesOneMore(REPLACEMENT, later);
    ReplacementIsNoPrefix(s, Bytes(later));
  }

  /** The first k runes of s, written out, are a byte prefix of s if and only if they were
      read from well-formed sequences. */
  lemma {:induction false} CutIsPrefixIff(s: seq<Byte>, k: nat)
    requires k <= |Runes(s)|
    ensures Bytes(Runes(s)[..k]) <= s <==> BeginsWell(s, k)
  {
    if k == 0 {
    } else {
      var (r, n) := DecodeRune(s);
      assert Runes(s)[..k] == [r] + Runes(s[n..])[..k - 1];
      if WellFormed(s) > 0 {
        DecodedIsEncoded(s);
        WellWrittenFirst(s, n, r, Runes(s[n..])[..k - 1]);
        CutIsPrefixIff(s[n..], k - 1);
      } else {
        ReplacedFirst(s, Runes(s[n..])[..k - 1]);
      }
    }
  }
}
