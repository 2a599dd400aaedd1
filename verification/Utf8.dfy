/** UTF-8 (RFC 3629, section 3) with malformed input ignored, which is how each network chunk of a
    stream is decoded on its own. */
module Utf8 {

  newtype Byte = n: int | 0 <= n < 256

  predicate IsTail(b: Byte) { 0x80 <= b < 0xC0 }

  function EncodeChar(c: char): (bs: seq<Byte>)
    ensures 1 <= |bs| <= 4
  {
    var n := c as int;
    if n < 0x80 then [n as Byte]
    else if n < 0x800 then [(0xC0 + n / 64) as Byte, (0x80 + n % 64) as Byte]
    else if n < 0x10000 then
      [(0xE0 + n / 4096) as Byte, (0x80 + n / 64 % 64) as Byte, (0x80 + n % 64) as Byte]
    else
      [(0xF0 + n / 262144) as Byte, (0x80 + n / 4096 % 64) as Byte, (0x80 + n / 64 % 64) as Byte, (0x80 + n % 64) as Byte]
  }

  function Encode(t: string): seq<Byte> {
    if t == "" then [] else EncodeChar(t[0]) + Encode(t[1..])
  }

  function Tail(b: Byte): int { b as int - 0x80 }

  /** The scalar value of the well-formed sequence at the front and its length; length zero if the
      front is not well formed: a stray or missing tail, an overlong form, a surrogate, or a value
      out of range. */
  function Front(bs: seq<Byte>): (int, nat)
    requires bs != []
  {
    var b := bs[0] as int;
    if b < 0x80 then (b, 1)
    else if 0xC2 <= b < 0xE0 && |bs| >= 2 && IsTail(bs[1]) then ((b - 0xC0) * 64 + Tail(bs[1]), 2)
    else if 0xE0 <= b < 0xF0 && |bs| >= 3 && IsTail(bs[1]) && IsTail(bs[2]) then
      var n := (b - 0xE0) * 4096 + Tail(bs[1]) * 64 + Tail(bs[2]);
      if n < 0x800 || 0xD800 <= n < 0xE000 then (0, 0) else (n, 3)
    else if 0xF0 <= b < 0xF5 && |bs| >= 4 && IsTail(bs[1]) && IsTail(bs[2]) && IsTail(bs[3]) then
      var n := (b - 0xF0) * 262144 + Tail(bs[1]) * 4096 + Tail(bs[2]) * 64 + Tail(bs[3]);
      if n < 0x10000 || n > 0x10FFFF then (0, 0) else (n, 4)
    else (0, 0)
  }

  function Decode(bs: seq<Byte>): string {
    if bs == [] then ""
    else
      var (n, len) := Front(bs);
      if len == 0 then Decode(bs[1..]) else [n as char] + Decode(bs[len..])
  }

  lemma Digits(n: nat)
    ensures n == n / 64 * 64 + n % 64
    ensures n == n / 4096 * 4096 + n / 64 % 64 * 64 + n % 64
    ensures n == n / 262144 * 262144 + n / 4096 % 64 * 4096 + n / 64 % 64 * 64 + n % 64
  {
    assert n / 4096 == n / 64 / 64 && n / 262144 == n / 4096 / 64;
  }

  lemma FrontOfShort(n: nat, bs: seq<Byte>)
    requires (n < 0x800 && |bs| >= 2) || (n < 0x80 && |bs| >= 1)
    requires if n < 0x80 then bs[0] == n as Byte
             else bs[0] == (0xC0 + n / 64) as Byte && bs[1] == (0x80 + n % 64) as Byte
    ensures Front(bs) == (n, if n < 0x80 then 1 else 2)
  {
    Digits(n);
  }

  lemma FrontOfThree(n: nat, bs: seq<Byte>)
    requires 0x800 <= n < 0x10000 && !(0xD800 <= n < 0xE000) && |bs| >= 3
    requires bs[0] == (0xE0 + n / 4096) as Byte && bs[1] == (0x80 + n / 64 % 64) as Byte && bs[2] == (0x80 + n % 64) as Byte
    ensures Front(bs) == (n, 3)
  {
    Digits(n);
  }

  lemma FrontOfFour(n: nat, bs: seq<Byte>)
    requires 0x10000 <= n <= 0x10FFFF && |bs| >= 4
    requires bs[0] == (0xF0 + n / 262144) as Byte && bs[1] == (0x80 + n / 4096 % 64) as Byte
    requires bs[2] == (0x80 + n / 64 % 64) as Byte && bs[3] == (0x80 + n % 64) as Byte
    ensures Front(bs) == (n, 4)
  {
    Digits(n);
  }

  lemma FrontOfChar(c: char, rest: seq<Byte>)
    ensures Front(EncodeChar(c) + rest) == (c as int, |EncodeChar(c)|)
  {
    var n := c as int;
    var bs := EncodeChar(c) + rest;
    if n < 0x800 {
      FrontOfShort(n, bs);
    } else if n < 0x10000 {
      FrontOfThree(n, bs);
    } else {
      FrontOfFour(n, bs);
    }
  }

  ghost predicate Begins(c: char, bs: seq<Byte>) { EncodeChar(c) <= bs }

  lemma FrontOfTwoExactly(bs: seq<Byte>)
    requires |bs| >= 2 && 0xC2 <= bs[0] < 0xE0 && IsTail(bs[1])
    ensures var n := (bs[0] as int - 0xC0) * 64 + Tail(bs[1]); 0x80 <= n < 0x800 && EncodeChar(n as char) == bs[..2]
  {
  }

  lemma FrontOfThreeExactly(bs: seq<Byte>)
    requires |bs| >= 3 && 0xE0 <= bs[0] < 0xF0 && IsTail(bs[1]) && IsTail(bs[2])
    requires var n := (bs[0] as int - 0xE0) * 4096 + Tail(bs[1]) * 64 + Tail(bs[2]); n >= 0x800 && !(0xD800 <= n < 0xE000)
    ensures var n := (bs[0] as int - 0xE0) * 4096 + Tail(bs[1]) * 64 + Tail(bs[2]); n < 0x10000 && EncodeChar(n as char) == bs[..3]
  {
    DigitsBack(0, bs[0] as int - 0xE0, Tail(bs[1]), Tail(bs[2]));
  }

  lemma FrontOfFourExactly(bs: seq<Byte>)
    requires |bs| >= 4 && 0xF0 <= bs[0] < 0xF5 && IsTail(bs[1]) && IsTail(bs[2]) && IsTail(bs[3])
    requires var n := (bs[0] as int - 0xF0) * 262144 + Tail(bs[1]) * 4096 + Tail(bs[2]) * 64 + Tail(bs[3]); 0x10000 <= n <= 0x10FFFF
    ensures var n := (bs[0] as int - 0xF0) * 262144 + Tail(bs[1]) * 4096 + Tail(bs[2]) * 64 + Tail(bs[3]);
      EncodeChar(n as char) == bs[..4]
  {
    DigitsBack(bs[0] as int - 0xF0, Tail(bs[1]), Tail(bs[2]), Tail(bs[3]));
  }

  /** The digits of a number in base sixty-four. */
  lemma DigitsBack(a: int, b: int, c: int, d: int)
    requires 0 <= a && 0 <= b < 64 && 0 <= c < 64 && 0 <= d < 64
    ensures var n := a * 262144 + b * 4096 + c * 64 + d;
      n / 262144 == a && n / 4096 % 64 == b && n / 64 % 64 == c && n % 64 == d
  {
    var n := a * 262144 + b * 4096 + c * 64 + d;
    assert n / 64 == a * 4096 + b * 64 + c;
    assert n / 4096 == a * 64 + b;
  }

  /** What is read off the front of a sequence of bytes is a character whose encoding they begin with; nothing is
      read exactly if they begin with no encoding. */
  lemma FrontExactly(bs: seq<Byte>)
    requires bs != []
    ensures var (n, len) := Front(bs);
      if len == 0 then forall c :: !Begins(c, bs)
      else (0 <= n < 0xD800 || 0xE000 <= n < 0x11_0000) && Begins(n as char, bs) && len == |EncodeChar(n as char)|
  {
    var (n, len) := Front(bs);
    if len == 0 {
      forall c ensures !Begins(c, bs) {
        if Begins(c, bs) {
          assert bs == EncodeChar(c) + bs[|EncodeChar(c)|..];
          FrontOfChar(c, bs[|EncodeChar(c)|..]);
        }
      }
    } else if len == 2 {
      FrontOfTwoExactly(bs);
    } else if len == 3 {
      FrontOfThreeExactly(bs);
    } else if len == 4 {
      FrontOfFourExactly(bs);
    }
  }

  /** Decoding takes the encoded characters one after the other, and drops a byte at which none begins. */
  lemma DecodeExactly(bs: seq<Byte>)
    requires bs != []
    ensures forall c | Begins(c, bs) :: Decode(bs) == [c] + Decode(bs[|EncodeChar(c)|..])
    ensures (forall c :: !Begins(c, bs)) ==> Decode(bs) == Decode(bs[1..])
  {
    FrontExactly(bs);
    forall c | Begins(c, bs) ensures Decode(bs) == [c] + Decode(bs[|EncodeChar(c)|..]) {
      assert bs == EncodeChar(c) + bs[|EncodeChar(c)|..];
      DecodeFirst(c, bs[|EncodeChar(c)|..]);
    }
  }

  lemma DecodeFirst(c: char, tail: seq<Byte>)
    ensures Decode(EncodeChar(c) + tail) == [c] + Decode(tail)
  {
    var bs := EncodeChar(c) + tail;
    FrontOfChar(c, tail);
    assert bs != [] && bs[|EncodeChar(c)|..] == tail;
  }

  lemma Rejoin(t: string, u: string)
    requires t != ""
    ensures [t[0]] + (t[1..] + u) == t + u
  {
  }

  /** Decoding undoes encoding, whatever follows. */
  lemma {:induction false} DecodeAfter(t: string, rest: seq<Byte>)
    ensures Decode(Encode(t) + rest) == t + Decode(rest)
  {
    if t == "" {
      assert Encode(t) + rest == rest;
      assert t + Decode(rest) == Decode(rest);
    } else {
      var tail := Encode(t[1..]) + rest;
      assert Encode(t) + rest == EncodeChar(t[0]) + tail;
      DecodeFirst(t[0], tail);
      DecodeAfter(t[1..], rest);
      Rejoin(t, Decode(rest));
    }
  }

  lemma {:induction false} RoundTrip(t: string)
    ensures Decode(Encode(t)) == t
  {
    DecodeAfter(t, []);
    assert Encode(t) + [] == Encode(t);
    assert t + Decode([]) == t;
  }

  lemma {:induction false} EncodeConcat(a: string, b: string)
    ensures Encode(a + b) == Encode(a) + Encode(b)
  {
    if a == "" {
      assert a + b == b;
    } else {
      assert (a + b)[1..] == a[1..] + b;
      EncodeConcat(a[1..], b);
    }
  }

  /** The examples of RFC 3629, section 7: A, not identical to, capital alpha, full stop; and a character beyond the
      basic plane. */
  lemma EncodeExamples()
    ensures EncodeChar('A') == [0x41] && EncodeChar('\U{2262}') == [0xE2, 0x89, 0xA2]
    ensures EncodeChar('\U{391}') == [0xCE, 0x91] && EncodeChar('\U{233B4}') == [0xF0, 0xA3, 0x8E, 0xB4]
  {
    assert 0x2262 / 64 == 0x89 && 0x2262 / 4096 == 2 && 0x233B4 / 64 == 0x8CE && 0x233B4 / 4096 == 0x23;
  }

  // ----- cutting a stream of bytes -----

  /** Tail bytes on their own say nothing. */
  lemma {:induction false} TailsIgnored(tails: seq<Byte>, rest: seq<Byte>)
    requires forall i | 0 <= i < |tails| :: IsTail(tails[i])
    ensures Decode(tails + rest) == Decode(rest)
  {
    if tails == [] {
      assert tails + rest == rest;
    } else {
      assert (tails + rest)[0] == tails[0] && (tails + rest)[1..] == tails[1..] + rest;
      TailsIgnored(tails[1..], rest);
    }
  }

  lemma OnlyTailsFollow(c: char)
    ensures forall i | 1 <= i < |EncodeChar(c)| :: IsTail(EncodeChar(c)[i])
  {
  }

  /** Neither part of a character cut in two is decoded. */
  lemma CutCharIsLost(c: char, m: nat, rest: seq<Byte>)
    requires 0 < m < |EncodeChar(c)|
    ensures Decode(EncodeChar(c)[..m]) == ""
    ensures Decode(EncodeChar(c)[m..] + rest) == Decode(rest)
  {
    var bs := EncodeChar(c);
    OnlyTailsFollow(c);
    var front := bs[..m];
    assert Front(front).1 == 0;
    TailsIgnored(front[1..], []);
    assert front[1..] + [] == front[1..];
    TailsIgnored(bs[m..], rest);
  }

  ghost predicate OnBoundary(t: string, k: nat) {
    exists j :: 0 <= j <= |t| && k == |Encode(t[..j])|
  }

  /** The character a cut falls into, or before. */
  lemma {:induction false} Locate(t: string, k: nat) returns (j: nat)
    requires k <= |Encode(t)|
    ensures j <= |t| && |Encode(t[..j])| <= k
    ensures j == |t| ==> k == |Encode(t)|
    ensures j < |t| ==> k < |Encode(t[..j])| + |EncodeChar(t[j])|
  {
    if t == "" || k < |EncodeChar(t[0])| {
      return 0;
    }
    j := Locate(t[1..], k - |EncodeChar(t[0])|);
    j := j + 1;
    assert t[..j][1..] == t[1..][..j - 1];
    assert j == |t| ==> t[..j] == t;
  }

  /** Cutting an encoded text in two and decoding the parts on their own gives the text back if and only
      if the cut is on a character boundary; otherwise the character it falls into is dropped. */
  lemma CutExactly(t: string, k: nat)
    requires k <= |Encode(t)|
    ensures Decode(Encode(t)[..k]) + Decode(Encode(t)[k..]) == t <==> OnBoundary(t, k)
  {
    var j := Locate(t, k);
    assert t[..|t|] == t;
    if k == |Encode(t[..j])| {
      CutBetween(t, j);
    } else {
      CutOffBoundary(t, k, j);
    }
  }

  /** Dropping a character is noticed. */
  lemma OneDropped(t: string, j: nat)
    requires j < |t|
    ensures t[..j] + t[j + 1..] != t
  {
    assert |t[..j] + t[j + 1..]| == |t| - 1;
  }

  lemma BoundaryDecodes(t: string, k: nat)
    requires OnBoundary(t, k) && k <= |Encode(t)|
    ensures Decode(Encode(t)[..k]) + Decode(Encode(t)[k..]) == t
  {
    var i :| 0 <= i <= |t| && k == |Encode(t[..i])|;
    CutBetween(t, i);
  }

  lemma CutDrops(t: string, k: nat, j: nat)
    requires j < |t| && |Encode(t[..j])| < k < |Encode(t[..j])| + |EncodeChar(t[j])| && k <= |Encode(t)|
    ensures Decode(Encode(t)[..k]) == t[..j] && Decode(Encode(t)[k..]) == t[j + 1..]
  {
    EncodeAround(t, j);
    CutInside(Encode(t), Encode(t[..j]), EncodeChar(t[j]), Encode(t[j + 1..]), k, t[..j], t[j], t[j + 1..]);
  }

  lemma CutOffBoundary(t: string, k: nat, j: nat)
    requires j < |t| && |Encode(t[..j])| < k < |Encode(t[..j])| + |EncodeChar(t[j])| && k <= |Encode(t)|
    ensures Decode(Encode(t)[..k]) + Decode(Encode(t)[k..]) != t && !OnBoundary(t, k)
  {
    CutDrops(t, k, j);
    OneDropped(t, j);
    if OnBoundary(t, k) {
      BoundaryDecodes(t, k);
    }
  }

  lemma CutBetween(t: string, j: nat)
    requires j <= |t|
    ensures var k := |Encode(t[..j])|;
      k <= |Encode(t)| && Decode(Encode(t)[..k]) + Decode(Encode(t)[k..]) == t
  {
    assert t == t[..j] + t[j..];
    EncodeConcat(t[..j], t[j..]);
    RoundTrip(t[..j]);
    RoundTrip(t[j..]);
  }

  lemma EncodeHead(t: string, c: char, u: string)
    requires t == [c] + u
    ensures Encode(t) == EncodeChar(c) + Encode(u)
  {
    assert t[1..] == u;
  }

  lemma EncodeTail(t: string, j: nat)
    requires j < |t|
    ensures Encode(t[j..]) == EncodeChar(t[j]) + Encode(t[j + 1..])
  {
    assert t[j..] == [t[j]] + t[j + 1..];
    EncodeHead(t[j..], t[j], t[j + 1..]);
  }

  lemma {:induction false} EncodeSplit(t: string, j: nat)
    requires j <= |t|
    ensures Encode(t) == Encode(t[..j]) + Encode(t[j..])
  {
    assert t == t[..j] + t[j..];
    EncodeConcat(t[..j], t[j..]);
  }

  lemma {:induction false} EncodeAround(t: string, j: nat)
    requires j < |t|
    ensures Encode(t) == Encode(t[..j]) + (EncodeChar(t[j]) + Encode(t[j + 1..]))
  {
    EncodeSplit(t, j);
    EncodeTail(t, j);
  }

  lemma Slices(bs: seq<Byte>, x: seq<Byte>, y: seq<Byte>, z: seq<Byte>, m: nat)
    requires bs == x + (y + z) && m <= |y|
    ensures bs[..|x| + m] == x + y[..m]
    ensures bs[|x| + m..] == y[m..] + z
  {
  }

  lemma FrontPart(a: string, y: seq<Byte>, m: nat, c: char, p: seq<Byte>)
    requires y == EncodeChar(c) && 0 < m < |y| && p == Encode(a) + y[..m]
    ensures Decode(p) == a
  {
    CutCharIsLost(c, m, []);
    DecodeAfter(a, y[..m]);
    assert a + "" == a;
  }

  lemma BackPart(b: string, y: seq<Byte>, m: nat, c: char, q: seq<Byte>)
    requires y == EncodeChar(c) && 0 < m < |y| && q == y[m..] + Encode(b)
    ensures Decode(q) == b
  {
    CutCharIsLost(c, m, Encode(b));
    RoundTrip(b);
  }

  lemma {:induction false} CutInside(bs: seq<Byte>, x: seq<Byte>, y: seq<Byte>, z: seq<Byte>, k: nat, a: string, c: char, b: string)
    requires x == Encode(a) && y == EncodeChar(c) && z == Encode(b)
    requires bs == x + (y + z) && |x| < k < |x| + |y|
    ensures Decode(bs[..k]) == a && Decode(bs[k..]) == b
  {
    var m := k - |x|;
    Slices(bs, x, y, z, m);
    FrontPart(a, y, m, c, bs[..k]);
    BackPart(b, y, m, c, bs[k..]);
  }
}
