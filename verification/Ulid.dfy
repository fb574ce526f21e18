/** The event identifier encoder: 16 bytes, big-endian milliseconds first, to 26 base-32
    characters. */
module Ulid {
  type Byte = x: int | 0 <= x < 256

  const ENCODING := "0123456789ABCDEFGHJKMNPQRSTVWXYZ"

  /** `val >> (11 - shift)`. */
  function ShiftRight(val: nat, shift: nat): nat
    requires shift < 8
  {
    if shift == 0 then val / 2048
    else if shift == 1 then val / 1024
    else if shift == 2 then val / 512
    else if shift == 3 then val / 256
    else if shift == 4 then val / 128
    else if shift == 5 then val / 64
    else if shift == 6 then val / 32
    else val / 16
  }

  /** The five bits from bit `5 * i` on, the last two padded with zeros. */
  function Digit(src: seq<Byte>, i: nat): (d: nat)
    requires |src| == 16 && i < 26
    ensures d < 32
  {
    var b := 5 * i / 8;
    Pick(src[b], if b + 1 < 16 then src[b + 1] else 0, 5 * i % 8)
  }

  /** Five bits of a pair of bytes. */
  function Pick(hi: Byte, lo: Byte, shift: nat): (d: nat)
    requires shift < 8
    ensures d < 32
  {
    ShiftRight((hi as int) * 256 + lo as int, shift) % 32
  }

  ghost function Digits(src: seq<Byte>): (ds: seq<int>)
    requires |src| == 16
    ensures |ds| == 26
  {
    seq(26, i requires 0 <= i < 26 => Digit(src, i))
  }

  ghost function Encoded(src: seq<Byte>): (s: string)
    requires |src| == 16
    ensures |s| == 26
  {
    seq(26, i requires 0 <= i < 26 => ENCODING[Digit(src, i)])
  }

  /** The 48 low bits of the time, big-endian, then the random bytes. */
  function Source(millis: nat, random: seq<Byte>): (src: seq<Byte>)
    requires |random| == 10
    ensures |src| == 16
  {
    [millis / 0x100_0000_0000 % 256, millis / 0x1_0000_0000 % 256, millis / 0x100_0000 % 256,
     millis / 0x1_0000 % 256, millis / 0x100 % 256, millis % 256] + random
  }

  method NewUlid(millis: nat, random: seq<Byte>) returns (id: string)
    requires |random| == 10
    ensures id == Encoded(Source(millis, random))
  {
    var time := Source(millis, random)[..6];
    var src := new Byte[16](i requires 0 <= i < 16 => if i < 6 then time[i] else random[i - 6]);
    assert src[..] == Source(millis, random);
    id := Encode(src);
  }

  method Encode(src: array<Byte>) returns (id: string)
    requires src.Length == 16
    ensures id == Encoded(src[..])
  {
    var dst := new char[26];
    for i := 0 to 26
      invariant forall j :: 0 <= j < i ==> dst[j] == ENCODING[Digit(src[..], j)]
    {
      var bitOff := i * 5;
      var byteIdx, bitShift := bitOff / 8, bitOff % 8;
      var val: nat := (src[byteIdx] as int) * 256;
      if byteIdx + 1 < 16 { val := val + src[byteIdx + 1] as int; }
      val := ShiftRight(val, bitShift);
      dst[i] := ENCODING[val % 32];
    }
    id := dst[..];
  }

  // ---------- order ----------

  /** The order of byte strings and of character codes. */
  ghost predicate Precedes(a: seq<int>, b: seq<int>) {
    exists k :: 0 <= k < |a| && k < |b| && a[..k] == b[..k] && a[k] < b[k]
  }

  ghost function Codes(s: string): seq<int> {
    seq(|s|, i requires 0 <= i < |s| => s[i] as int)
  }

  /** Value of a digit sequence in a base. */
  ghost function Value(base: nat, ds: seq<int>): int {
    if ds == [] then 0 else Value(base, ds[..|ds| - 1]) * base + ds[|ds| - 1]
  }

  ghost predicate Below(base: nat, ds: seq<int>) {
    forall i :: 0 <= i < |ds| ==> 0 <= ds[i] < base
  }

  lemma {:induction false} PrecedesSnoc(a: seq<int>, b: seq<int>)
    requires |a| == |b| > 0
    ensures var n := |a| - 1;
            Precedes(a, b) <==> Precedes(a[..n], b[..n]) || (a[..n] == b[..n] && a[n] < b[n])
  {
    var n := |a| - 1;
    if Precedes(a, b) {
      var k :| 0 <= k < |a| && k < |b| && a[..k] == b[..k] && a[k] < b[k];
      if k < n {
        assert a[..n][..k] == a[..k] && b[..n][..k] == b[..k];
      }
    }
    if Precedes(a[..n], b[..n]) {
      var k :| 0 <= k < n && a[..n][..k] == b[..n][..k] && a[..n][k] < b[..n][k];
      assert a[..n][..k] == a[..k] && b[..n][..k] == b[..k];
    }
  }

  lemma {:induction false} CarryOrder(base: nat, x: int, y: int, d: int, e: int)
    requires 0 <= d < base && 0 <= e < base
    ensures x * base + d < y * base + e <==> x < y || (x == y && d < e)
    ensures x * base + d == y * base + e <==> x == y && d == e
  {
    if x < y { StepUp(base, x, y); }
    if y < x { StepUp(base, y, x); }
  }

  lemma {:induction false} StepUp(base: nat, x: int, y: int)
    requires x < y
    ensures x * base + base <= y * base
  {
    var k := y - x - 1;
    assert k * base >= 0;
    assert y * base == x * base + base + k * base;
  }

  /** Digit sequences of equal length compare as their values. */
  lemma {:induction false} ValueOrder(base: nat, a: seq<int>, b: seq<int>)
    requires |a| == |b| && Below(base, a) && Below(base, b)
    ensures Precedes(a, b) <==> Value(base, a) < Value(base, b)
    ensures a == b <==> Value(base, a) == Value(base, b)
  {
    if a != [] {
      var n := |a| - 1;
      ValueOrder(base, a[..n], b[..n]);
      PrecedesSnoc(a, b);
      CarryOrder(base, Value(base, a[..n]), Value(base, b[..n]), a[n], b[n]);
      assert a == a[..n] + [a[n]] && b == b[..n] + [b[n]];
    }
  }

  // ---------- five bytes are eight digits ----------

  /** Dividing a pair of bytes by `256 / c` keeps `c` times the high byte. */
  lemma {:induction false} PairBits(hi: int, lo: int)
    requires 0 <= hi < 256 && 0 <= lo < 256
    ensures Pick(hi, lo, 0) == hi / 8
    ensures Pick(hi, lo, 2) == hi / 2 % 32
    ensures Pick(hi, lo, 1) == hi / 4 % 32
    ensures Pick(hi, lo, 3) == hi % 32
  {
    var v := hi * 256 + lo;
    assert v / 256 == hi;
    assert v / 2048 == hi / 8 && v / 1024 == hi / 4 && v / 512 == hi / 2;
  }

  lemma {:induction false} Mod32(q: int, r: int)
    requires 0 <= r < 32
    ensures (q * 32 + r) % 32 == r
  {}

  lemma {:induction false} PairBits4(hi: int, lo: int)
    requires 0 <= hi < 256 && 0 <= lo < 256
    ensures Pick(hi, lo, 4) == hi % 16 * 2 + lo / 128
  {
    assert (hi * 256 + lo) / 128 == hi / 16 * 32 + (hi % 16 * 2 + lo / 128);
    Mod32(hi / 16, hi % 16 * 2 + lo / 128);
  }

  lemma {:induction false} PairBits5(hi: int, lo: int)
    requires 0 <= hi < 256 && 0 <= lo < 256
    ensures Pick(hi, lo, 5) == hi % 8 * 4 + lo / 64
  {
    assert (hi * 256 + lo) / 64 == hi / 8 * 32 + (hi % 8 * 4 + lo / 64);
    Mod32(hi / 8, hi % 8 * 4 + lo / 64);
  }

  lemma {:induction false} PairBits6(hi: int, lo: int)
    requires 0 <= hi < 256 && 0 <= lo < 256
    ensures Pick(hi, lo, 6) == hi % 4 * 8 + lo / 32
  {
    assert (hi * 256 + lo) / 32 == hi / 4 * 32 + (hi % 4 * 8 + lo / 32);
    Mod32(hi / 4, hi % 4 * 8 + lo / 32);
  }

  lemma {:induction false} PairBits7(hi: int, lo: int)
    requires 0 <= hi < 256 && 0 <= lo < 256
    ensures Pick(hi, lo, 7) == hi % 2 * 16 + lo / 16
  {
    assert (hi * 256 + lo) / 16 == hi / 2 * 32 + (hi % 2 * 16 + lo / 16);
    Mod32(hi / 2, hi % 2 * 16 + lo / 16);
  }

  /** Where in its group of five bytes digit `k` of eight is picked. */
  lemma {:induction false} DigitInGroup(src: seq<Byte>, g: nat, k: nat)
    requires |src| == 16 && g < 3 && k < 8
    ensures var b := 5 * g + 5 * k / 8;
            Digit(src, 8 * g + k) == Pick(src[b], src[b + 1], 5 * k % 8)
  {
    assert 5 * (8 * g + k) == 40 * g + 5 * k;
  }

  /** Digit `k` of the group in terms of the group's bytes. */
  ghost function GroupDigit(b0: int, b1: int, b2: int, b3: int, b4: int, k: nat): int {
    if k == 0 then b0 / 8
    else if k == 1 then b0 % 8 * 4 + b1 / 64
    else if k == 2 then b1 / 2 % 32
    else if k == 3 then b1 % 2 * 16 + b2 / 16
    else if k == 4 then b2 % 16 * 2 + b3 / 128
    else if k == 5 then b3 / 4 % 32
    else if k == 6 then b3 % 4 * 8 + b4 / 32
    else b4 % 32
  }

  lemma {:induction false} PickIsGroupDigit(b0: int, b1: int, b2: int, b3: int, b4: int, next: int, k: nat)
    requires 0 <= b0 < 256 && 0 <= b1 < 256 && 0 <= b2 < 256 && 0 <= b3 < 256 && 0 <= b4 < 256 && 0 <= next < 256 && k < 8
    ensures var bs := [b0, b1, b2, b3, b4, next];
            Pick(bs[5 * k / 8], bs[5 * k / 8 + 1], 5 * k % 8) == GroupDigit(b0, b1, b2, b3, b4, k)
  {
    match k
    case 0 => PairBits(b0, b1);
    case 1 => PairBits5(b0, b1);
    case 2 => PairBits(b1, b2);
    case 3 => PairBits7(b1, b2);
    case 4 => PairBits4(b2, b3);
    case 5 => PairBits(b3, b4);
    case 6 => PairBits6(b3, b4);
    case _ => PairBits(b4, next);
  }

  lemma {:induction false} DigitsOfGroup(src: seq<Byte>, g: nat, k: nat)
    requires |src| == 16 && g < 3 && k < 8
    ensures Digit(src, 8 * g + k) == GroupDigit(src[5 * g], src[5 * g + 1], src[5 * g + 2], src[5 * g + 3], src[5 * g + 4], k)
  {
    DigitInGroup(src, g, k);
    PickIsGroupDigit(src[5 * g], src[5 * g + 1], src[5 * g + 2], src[5 * g + 3], src[5 * g + 4], src[5 * g + 5], k);
  }

  lemma {:induction false} AllDigitsOfGroup(src: seq<Byte>, g: nat)
    requires |src| == 16 && g < 3
    ensures var b0, b1, b2, b3, b4 := src[5 * g], src[5 * g + 1], src[5 * g + 2], src[5 * g + 3], src[5 * g + 4];
            var ds := Digits(src);
            && ds[8 * g] == GroupDigit(b0, b1, b2, b3, b4, 0) && ds[8 * g + 1] == GroupDigit(b0, b1, b2, b3, b4, 1)
            && ds[8 * g + 2] == GroupDigit(b0, b1, b2, b3, b4, 2) && ds[8 * g + 3] == GroupDigit(b0, b1, b2, b3, b4, 3)
            && ds[8 * g + 4] == GroupDigit(b0, b1, b2, b3, b4, 4) && ds[8 * g + 5] == GroupDigit(b0, b1, b2, b3, b4, 5)
            && ds[8 * g + 6] == GroupDigit(b0, b1, b2, b3, b4, 6) && ds[8 * g + 7] == GroupDigit(b0, b1, b2, b3, b4, 7)
  {
    DigitsOfGroup(src, g, 0);
    DigitsOfGroup(src, g, 1);
    DigitsOfGroup(src, g, 2);
    DigitsOfGroup(src, g, 3);
    DigitsOfGroup(src, g, 4);
    DigitsOfGroup(src, g, 5);
    DigitsOfGroup(src, g, 6);
    DigitsOfGroup(src, g, 7);
  }

  /** Eight digits appended to a number of value `v`. */
  ghost function FoldGroup(v: int, b0: int, b1: int, b2: int, b3: int, b4: int): int {
    var d3 := (((v * 32 + GroupDigit(b0, b1, b2, b3, b4, 0)) * 32 + GroupDigit(b0, b1, b2, b3, b4, 1)) * 32
               + GroupDigit(b0, b1, b2, b3, b4, 2)) * 32 + GroupDigit(b0, b1, b2, b3, b4, 3);
    (((d3 * 32 + GroupDigit(b0, b1, b2, b3, b4, 4)) * 32 + GroupDigit(b0, b1, b2, b3, b4, 5)) * 32
     + GroupDigit(b0, b1, b2, b3, b4, 6)) * 32 + GroupDigit(b0, b1, b2, b3, b4, 7)
  }

  lemma {:induction false} GroupValue(v: int, b0: int, b1: int, b2: int, b3: int, b4: int)
    requires 0 <= b0 < 256 && 0 <= b1 < 256 && 0 <= b2 < 256 && 0 <= b3 < 256 && 0 <= b4 < 256
    ensures FoldGroup(v, b0, b1, b2, b3, b4) == ((((v * 256 + b0) * 256 + b1) * 256 + b2) * 256 + b3) * 256 + b4
  {
    assert b1 == b1 / 64 * 64 + b1 / 2 % 32 * 2 + b1 % 2;
    assert b3 == b3 / 128 * 128 + b3 / 4 % 32 * 4 + b3 % 4;
  }

  lemma {:induction false} ValueSnoc(base: nat, ds: seq<int>, i: nat)
    requires i < |ds|
    ensures Value(base, ds[..i + 1]) == Value(base, ds[..i]) * base + ds[i]
  {
    assert ds[..i + 1][..i] == ds[..i];
  }

  lemma {:induction false} Snoc4(base: nat, ds: seq<int>, i: nat)
    requires i + 4 <= |ds|
    ensures Value(base, ds[..i + 4]) ==
            (((Value(base, ds[..i]) * base + ds[i]) * base + ds[i + 1]) * base + ds[i + 2]) * base + ds[i + 3]
  {
    ValueSnoc(base, ds, i);
    ValueSnoc(base, ds, i + 1);
    ValueSnoc(base, ds, i + 2);
    ValueSnoc(base, ds, i + 3);
  }

  lemma {:induction false} DigitsFold(src: seq<Byte>, g: nat)
    requires |src| == 16 && g < 3
    ensures Value(32, Digits(src)[..8 * g + 8]) ==
            FoldGroup(Value(32, Digits(src)[..8 * g]), src[5 * g], src[5 * g + 1], src[5 * g + 2], src[5 * g + 3], src[5 * g + 4])
  {
    AllDigitsOfGroup(src, g);
    Snoc4(32, Digits(src), 8 * g);
    Snoc4(32, Digits(src), 8 * g + 4);
  }

  lemma {:induction false} BytesFold(src: seq<Byte>, g: nat)
    requires |src| == 16 && g < 3
    ensures Value(256, src[..5 * g + 5]) ==
            FoldGroup(Value(256, src[..5 * g]), src[5 * g], src[5 * g + 1], src[5 * g + 2], src[5 * g + 3], src[5 * g + 4])
  {
    Snoc4(256, src, 5 * g);
    ValueSnoc(256, src, 5 * g + 4);
    GroupValue(Value(256, src[..5 * g]), src[5 * g], src[5 * g + 1], src[5 * g + 2], src[5 * g + 3], src[5 * g + 4]);
  }

  /** The first `8 * g` digits have the value of the first `5 * g` bytes. */
  lemma {:induction false} PrefixValue(src: seq<Byte>, g: nat)
    requires |src| == 16 && g <= 3
    ensures Value(32, Digits(src)[..8 * g]) == Value(256, src[..5 * g])
  {
    if g > 0 {
      PrefixValue(src, g - 1);
      DigitsFold(src, g - 1);
      BytesFold(src, g - 1);
    }
  }

  /** The identifier's digits have four times the value of the bytes. */
  lemma {:induction false} EncodedValue(src: seq<Byte>)
    requires |src| == 16
    ensures Value(32, Digits(src)) == 4 * Value(256, src)
  {
    var ds, last := Digits(src), src[15] as int;
    PrefixValue(src, 3);
    ValueSnoc(32, ds, 24);
    ValueSnoc(32, ds, 25);
    ValueSnoc(256, src, 15);
    assert ds[..26] == ds && src[..16] == src;
    PairBits(last, 0);
    PairBits5(last, 0);
  }

  // ---------- theorems ----------

  lemma {:induction false} AlphabetAscends(d: nat, e: nat)
    requires d < 32 && e < 32
    ensures ENCODING[d] < ENCODING[e] <==> d < e
  {}

  lemma {:induction false} CodesFollowDigits(a: seq<Byte>, b: seq<Byte>)
    requires |a| == |b| == 16
    ensures Precedes(Codes(Encoded(a)), Codes(Encoded(b))) <==> Precedes(Digits(a), Digits(b))
    ensures Encoded(a) == Encoded(b) <==> Digits(a) == Digits(b)
  {
    var ca, cb, da, db := Codes(Encoded(a)), Codes(Encoded(b)), Digits(a), Digits(b);
    forall i | 0 <= i < 26 ensures (ca[i] < cb[i] <==> da[i] < db[i]) && (ca[i] == cb[i] <==> da[i] == db[i]) {
      AlphabetAscends(da[i], db[i]);
      AlphabetAscends(db[i], da[i]);
    }
    forall k | 0 <= k < 26 ensures ca[..k] == cb[..k] <==> da[..k] == db[..k] {
      SamePrefix(ca, cb, k);
      SamePrefix(da, db, k);
    }
    if Encoded(a) == Encoded(b) {
      forall i | 0 <= i < 26 ensures da[i] == db[i] { assert ca[i] == cb[i]; }
    }
    if da == db {
      forall i | 0 <= i < 26 ensures Encoded(a)[i] == Encoded(b)[i] { assert da[i] == db[i]; }
    }
  }

  lemma {:induction false} SamePrefix(a: seq<int>, b: seq<int>, k: nat)
    requires k <= |a| == |b|
    ensures a[..k] == b[..k] <==> forall i :: 0 <= i < k ==> a[i] == b[i]
  {
    if a[..k] == b[..k] {
      forall i | 0 <= i < k ensures a[i] == b[i] { assert a[..k][i] == b[..k][i]; }
    }
  }

  /** The encoder is injective and keeps the order, on all pairs of 16-byte inputs. */
  lemma {:induction false} EncoderKeepsOrder(a: seq<Byte>, b: seq<Byte>)
    requires |a| == |b| == 16
    ensures Precedes(Codes(Encoded(a)), Codes(Encoded(b))) <==> Precedes(a, b)
    ensures Encoded(a) == Encoded(b) <==> a == b
  {
    CodesFollowDigits(a, b);
    ValueOrder(32, Digits(a), Digits(b));
    ValueOrder(256, a, b);
    EncodedValue(a);
    EncodedValue(b);
  }

  lemma {:induction false} LaterSourceAfter(early: nat, late: nat, random1: seq<Byte>, random2: seq<Byte>)
    requires early < late < 0x1_0000_0000_0000 && |random1| == |random2| == 10
    ensures Precedes(Source(early, random1), Source(late, random2))
  {
    var a, b := Source(early, random1), Source(late, random2);
    TimeValue(early, random1);
    TimeValue(late, random2);
    Ordered6(a, b);
  }

  lemma {:induction false} Ordered6(a: seq<Byte>, b: seq<Byte>)
    requires |a| == |b| == 16 && Value(256, a[..6]) < Value(256, b[..6])
    ensures Precedes(a, b)
  {
    ValueOrder(256, a[..6], b[..6]);
    PrefixPrecedes(a, b, 6);
  }

  /** An identifier of a later millisecond sorts after one of an earlier millisecond, whatever
      the random bytes, as long as the time fits 48 bits. */
  lemma {:induction false} LaterSortsAfter(early: nat, late: nat, random1: seq<Byte>, random2: seq<Byte>)
    requires early < late < 0x1_0000_0000_0000 && |random1| == |random2| == 10
    ensures Precedes(Codes(Encoded(Source(early, random1))), Codes(Encoded(Source(late, random2))))
  {
    LaterSourceAfter(early, late, random1, random2);
    EncoderKeepsOrder(Source(early, random1), Source(late, random2));
  }

  lemma {:induction false} PrefixPrecedes(a: seq<int>, b: seq<int>, n: nat)
    requires n <= |a| == |b| && Precedes(a[..n], b[..n])
    ensures Precedes(a, b)
  {
    var k :| 0 <= k < n && a[..n][..k] == b[..n][..k] && a[..n][k] < b[..n][k];
    assert a[..n][..k] == a[..k] && b[..n][..k] == b[..k];
  }

  lemma {:induction false} TimeValue(millis: nat, random: seq<Byte>)
    requires |random| == 10
    ensures Value(256, Source(millis, random)[..6]) == millis % 0x1_0000_0000_0000
  {
    var s := Source(millis, random);
    Snoc4(256, s, 0);
    ValueSnoc(256, s, 4);
    ValueSnoc(256, s, 5);
    assert Value(256, s[..0]) == 0;
    BigEndian(millis);
  }

  lemma {:induction false} BigEndian(m: nat)
    ensures (((((m / 0x100_0000_0000 % 256 * 256 + m / 0x1_0000_0000 % 256) * 256 + m / 0x100_0000 % 256) * 256
               + m / 0x1_0000 % 256) * 256 + m / 0x100 % 256) * 256 + m % 256) == m % 0x1_0000_0000_0000
  {
    var q1, q2 := m / 0x100, m / 0x1_0000;
    var q3, q4, q5 := m / 0x100_0000, m / 0x1_0000_0000, m / 0x100_0000_0000;
    assert q2 == q1 / 256 && q3 == q2 / 256;
    assert q4 == q3 / 256 && q5 == q4 / 256;
    assert m / 0x1_0000_0000_0000 == q5 / 256;
  }

  /** Two identifiers are the same exactly when the 48 low bits of their times and all their
      random bytes are. */
  lemma {:induction false} SameIdentifier(millis1: nat, random1: seq<Byte>, millis2: nat, random2: seq<Byte>)
    requires |random1| == |random2| == 10
    ensures Encoded(Source(millis1, random1)) == Encoded(Source(millis2, random2)) <==>
            millis1 % 0x1_0000_0000_0000 == millis2 % 0x1_0000_0000_0000 && random1 == random2
  {
    var a, b := Source(millis1, random1), Source(millis2, random2);
    EncoderKeepsOrder(a, b);
    TimeValue(millis1, random1);
    TimeValue(millis2, random2);
    ValueOrder(256, a[..6], b[..6]);
    assert a[6..] == random1 && b[6..] == random2;
    assert a == a[..6] + a[6..] && b == b[..6] + b[6..];
  }
}
