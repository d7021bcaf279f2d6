/** Base-128 varints, as the two decoders of src/pb_decode.c read them from the bytes left. */
module Varint {
  import opened Common

  // A parse gives the value and the bytes after it.
  type Parsed = Option<(nat, Bytes)>

  // 2 to the power bitpos, for the bit positions a varint's bytes have within 64 bits.
  function Weight(bitpos: nat): nat
    requires bitpos < 64 && bitpos % 7 == 0
  {
    if bitpos == 0 then 1
    else if bitpos == 7 then 0x80
    else if bitpos == 14 then 0x4000
    else if bitpos == 21 then 0x20_0000
    else if bitpos == 28 then 0x1000_0000
    else if bitpos == 35 then 0x8_0000_0000
    else if bitpos == 42 then 0x400_0000_0000
    else if bitpos == 49 then 0x2_0000_0000_0000
    else if bitpos == 56 then 0x100_0000_0000_0000
    else 0x8000_0000_0000_0000
  }

  // `result |= (b & 0x7F) << bitpos` in a word of the given modulus; the bits of result from bitpos
  // on are still clear.
  function Or(result: nat, b: byte, bitpos: nat, modulus: nat): nat
    requires bitpos < 64 && bitpos % 7 == 0 && modulus > 0
  {
    result + b % 128 * Weight(bitpos) % modulus
  }

  /** pb_decode_varint: up to ten bytes, bits beyond the 64th dropped. */
  function Parse64(s: Bytes): (p: Parsed)
    ensures p.Some? ==> |p.value.1| < |s|
  {
    From64(s, 0, 0)
  }

  function From64(s: Bytes, bitpos: nat, result: nat): (p: Parsed)
    requires bitpos % 7 == 0
    ensures p.Some? ==> |p.value.1| < |s|
  {
    if bitpos >= 64 || s == [] then None
    else
      var r := Or(result, s[0], bitpos, TWO_64);
      if s[0] >= 128 then From64(s[1..], bitpos + 7, r) else Some((r, s[1..]))
  }

  /** pb_decode_varint32. Bits from the 32nd on are accepted only as zeros or as the sign extension
      of a set 31st bit; a fifth byte is checked for overflow only when it is the last one. */
  function Parse32(s: Bytes): (p: Parsed)
    ensures p.Some? ==> |p.value.1| < |s|
  {
    if s == [] then None else if s[0] < 128 then Some((s[0], s[1..])) else From32(s[1..], 7, s[0] % 128)
  }

  function From32(s: Bytes, bitpos: nat, result: nat): (p: Parsed)
    requires bitpos % 7 == 0
    ensures p.Some? ==> |p.value.1| < |s|
  {
    if s == [] then None
    else if bitpos >= 32 then
      var extension := if bitpos < 63 then 0xFF else 1;
      if s[0] % 128 != 0 && (result < TWO_31 || s[0] != extension) then None
      else if s[0] >= 128 then From32(s[1..], bitpos + 7, result)
      else Some((result, s[1..]))
    else
      var r := Or(result, s[0], bitpos, TWO_32);
      if s[0] >= 128 then From32(s[1..], bitpos + 7, r)
      else if bitpos == 28 && s[0] / 16 % 8 != 0 then None
      else Some((r, s[1..]))
  }

  /** The canonical encoding ("Base 128 Varints" in Protocol Buffers Encoding). */
  function Encode(v: nat): (e: Bytes)
    ensures e != []
  {
    if v < 128 then [v] else [v % 128 + 128] + Encode(v / 128)
  }

  // --- more bytes behind a complete varint change nothing ---

  lemma {:induction false} Extend64(s: Bytes, t: Bytes, bitpos: nat, result: nat)
    requires bitpos % 7 == 0 && From64(s, bitpos, result).Some?
    ensures var (v, rest) := From64(s, bitpos, result).value;
            From64(s + t, bitpos, result) == Some((v, rest + t))
  {
    assert (s + t)[1..] == s[1..] + t;
    if s[0] >= 128 { Extend64(s[1..], t, bitpos + 7, Or(result, s[0], bitpos, TWO_64)); }
  }

  lemma {:induction false} ExtendFrom32(s: Bytes, t: Bytes, bitpos: nat, result: nat)
    requires bitpos % 7 == 0 && From32(s, bitpos, result).Some?
    ensures var (v, rest) := From32(s, bitpos, result).value;
            From32(s + t, bitpos, result) == Some((v, rest + t))
  {
    assert (s + t)[1..] == s[1..] + t;
    if s[0] >= 128 {
      ExtendFrom32(s[1..], t, bitpos + 7, if bitpos >= 32 then result else Or(result, s[0], bitpos, TWO_32));
    }
  }

  lemma Extend32(s: Bytes, t: Bytes)
    requires Parse32(s).Some?
    ensures var (v, rest) := Parse32(s).value; Parse32(s + t) == Some((v, rest + t))
  {
    assert (s + t)[1..] == s[1..] + t;
    if s[0] >= 128 { ExtendFrom32(s[1..], t, 7, s[0] % 128); }
  }

  // --- both decoders on canonical encodings ---

  lemma EncodeStep(v: nat, rest: Bytes)
    ensures var s := Encode(v) + rest;
            if v < 128 then s[0] == v && s[1..] == rest
            else s[0] == v % 128 + 128 && s[1..] == Encode(v / 128) + rest
  {
  }

  // What n contributes at a bit position.
  function Placed(n: nat, bitpos: nat): nat
    requires bitpos < 64 && bitpos % 7 == 0
  {
    n * Weight(bitpos)
  }

  lemma {:induction false} RoundTrip64From(w: nat, bitpos: nat, result: nat, rest: Bytes)
    requires bitpos < 64 && bitpos % 7 == 0 && Placed(w, bitpos) < TWO_64
    ensures From64(Encode(w) + rest, bitpos, result) == Some((result + Placed(w, bitpos), rest))
  {
    hide Weight, Encode, Or, Placed;
    EncodeStep(w, rest);
    LowestDigit(w, bitpos);
    OrPlaced(result, (Encode(w) + rest)[0], bitpos, w % 128);
    if w >= 128 { RoundTrip64From(w / 128, bitpos + 7, result + Placed(w % 128, bitpos), rest); }
  }

  // The lowest seven bits of a number, and the others at the next position.
  lemma LowestDigit(w: nat, bitpos: nat)
    requires bitpos < 64 && bitpos % 7 == 0 && Placed(w, bitpos) < TWO_64
    ensures Placed(w % 128, bitpos) <= Placed(w, bitpos)
    ensures w >= 128 ==> bitpos < 57 && Placed(w, bitpos) == Placed(w / 128, bitpos + 7) + Placed(w % 128, bitpos)
  {
    hide Weight;
    var p := Weight(bitpos);
    Split(w, p);
    if w >= 128 {
      Times(128, w, p);
      WeightStep(bitpos);
      Regrouped(w, p, Weight(bitpos + 7));
    }
  }

  lemma OrPlaced(result: nat, b: byte, bitpos: nat, low: nat)
    requires bitpos < 64 && bitpos % 7 == 0 && b % 128 == low && Placed(low, bitpos) < TWO_64
    ensures Or(result, b, bitpos, TWO_64) == result + Placed(low, bitpos)
  {
    hide Weight, Or;
    OrFits(result, b, bitpos, low);
  }

  lemma OrFits(result: nat, b: byte, bitpos: nat, low: nat)
    requires bitpos < 64 && bitpos % 7 == 0 && b % 128 == low && low * Weight(bitpos) < TWO_64
    ensures Or(result, b, bitpos, TWO_64) == result + low * Weight(bitpos)
  {
    hide Weight;
  }

  lemma WeightStep(bitpos: nat)
    requires bitpos < 64 && bitpos % 7 == 0 && 128 * Weight(bitpos) < TWO_64
    ensures bitpos < 57 && Weight(bitpos + 7) == 128 * Weight(bitpos)
  {
  }

  lemma Split(w: nat, p: nat)
    ensures w * p == w / 128 * (128 * p) + w % 128 * p
    ensures 0 <= w % 128 * p <= w * p && w / 128 * (128 * p) <= w * p
  {
    var q := w / 128;
    assert w * p == (q * 128 + w % 128) * p == q * (128 * p) + w % 128 * p;
  }

  lemma Regrouped(w: nat, p: nat, next: nat)
    requires next == 128 * p
    ensures w * p == w / 128 * next + w % 128 * p && w / 128 * next <= w * p
  {
    Split(w, p);
  }

  lemma Times(a: int, b: int, p: nat)
    requires a <= b
    ensures a * p <= b * p
  {
  }

  /** The 64-bit decoder inverts the canonical encoding. */
  lemma RoundTrip64(v: nat, rest: Bytes)
    requires v < TWO_64
    ensures Parse64(Encode(v) + rest) == Some((v, rest))
  {
    RoundTrip64From(v, 0, 0, rest);
  }

  // One byte of a canonical encoding in the low 28 bits.
  lemma Low32(w: nat, bitpos: nat, result: nat, rest: Bytes)
    requires bitpos <= 21 && bitpos % 7 == 0
    ensures From32(Encode(w) + rest, bitpos, result) ==
            if w < 128 then Some((result + w * Weight(bitpos), rest))
            else From32(Encode(w / 128) + rest, bitpos + 7, result + w % 128 * Weight(bitpos))
  {
    hide Encode, Weight, From32, Or;
    var s := Encode(w) + rest;
    EncodeStep(w, rest);
    LowByte(s, bitpos, result);
    if w >= 128 {
      var b := s[0];
      assert b % 128 == w % 128;
    }
  }

  // One byte below bit 28.
  lemma LowByte(s: Bytes, bitpos: nat, result: nat)
    requires bitpos <= 21 && bitpos % 7 == 0 && s != []
    ensures From32(s, bitpos, result) ==
            if s[0] < 128 then Some((result + s[0] * Weight(bitpos), s[1..]))
            else From32(s[1..], bitpos + 7, result + s[0] % 128 * Weight(bitpos))
  {
    LowFits(s[0], bitpos);
    hide Weight;
  }

  lemma LowFits(b: byte, bitpos: nat)
    requires bitpos <= 21 && bitpos % 7 == 0
    ensures b % 128 * Weight(bitpos) % TWO_32 == b % 128 * Weight(bitpos)
    ensures b < 128 ==> b % 128 == b
  {
    Times(b % 128, 127, Weight(bitpos));
  }

  // The four groups of seven bits from bit 35 to bit 62 are each all zeros or all ones.
  predicate UniformHigh(w: nat) {
    && (w % 128 == 0 || w % 128 == 127)
    && (w / 128 % 128 == 0 || w / 128 % 128 == 127)
    && (w / 0x4000 % 128 == 0 || w / 0x4000 % 128 == 127)
    && (w / 0x200000 % 128 == 0 || w / 0x200000 % 128 == 127)
  }

  // The bytes of a canonical encoding from bit 35 on.
  lemma High32(w: nat, bitpos: nat, result: nat, rest: Bytes)
    requires w > 0 && 35 <= bitpos <= 56 && bitpos % 7 == 0
    ensures From32(Encode(w) + rest, bitpos, result) ==
            if w < 128 || !(w % 128 == 0 || (w % 128 == 127 && result >= TWO_31)) then None
            else From32(Encode(w / 128) + rest, bitpos + 7, result)
  {
    EncodeStep(w, rest);
  }

  // A tenth byte may only be 1.
  lemma Last32(result: nat, rest: Bytes)
    ensures From32(Encode(1) + rest, 63, result) == if result >= TWO_31 then Some((result, rest)) else None
  {
    EncodeStep(1, rest);
  }

  lemma Top32(w: nat, result: nat, rest: Bytes)
    requires 0 < w < 0x2000_0000
    ensures From32(Encode(w) + rest, 35, result) ==
            if w >= 0x1000_0000 && UniformHigh(w) && result >= TWO_31 then Some((result, rest)) else None
  {
    hide From32, Encode;
    High32(w, 35, result, rest);
    if w >= 128 {
      High32(w / 128, 42, result, rest);
      if w >= 0x4000 {
        assert w / 128 / 128 == w / 0x4000;
        High32(w / 0x4000, 49, result, rest);
        if w >= 0x200000 {
          assert w / 0x4000 / 128 == w / 0x200000;
          High32(w / 0x200000, 56, result, rest);
          if w >= 0x1000_0000 {
            assert w / 0x200000 / 128 == w / 0x1000_0000 == 1;
            Last32(result, rest);
          }
        }
      }
    }
  }

  // The low 28 bits, then the rest of the value from bit 28.
  lemma Low28(v: nat, rest: Bytes)
    ensures Parse32(Encode(v) + rest) ==
            if v < 0x1000_0000 then Some((v, rest))
            else From32(Encode(v / 0x1000_0000) + rest, 28, v % 0x1000_0000)
  {
    EncodeStep(v, rest);
    hide Encode, From32;
    if v >= 128 {
      Low32(v / 128, 7, v % 128, rest);
      assert v / 128 / 128 == v / 0x4000 && v % 128 + v / 128 % 128 * 128 == v % 0x4000;
    }
    if v >= 0x4000 {
      Low32(v / 0x4000, 14, v % 0x4000, rest);
      assert v / 0x4000 / 128 == v / 0x20_0000 && v % 0x4000 + v / 0x4000 % 128 * 0x4000 == v % 0x20_0000;
    }
    if v >= 0x20_0000 {
      Low32(v / 0x20_0000, 21, v % 0x20_0000, rest);
      assert v / 0x20_0000 / 128 == v / 0x1000_0000;
      assert v % 0x20_0000 + v / 0x20_0000 % 128 * 0x20_0000 == v % 0x1000_0000;
    }
  }

  lemma Fifth32(w: nat, result: nat, rest: Bytes)
    requires w > 0 && result < 0x1000_0000
    ensures From32(Encode(w) + rest, 28, result) ==
            if w < 16 then Some((result + w * 0x1000_0000, rest))
            else if w < 128 then None
            else From32(Encode(w / 128) + rest, 35, result + w % 16 * 0x1000_0000)
  {
    EncodeStep(w, rest);
    FifthByte((Encode(w) + rest)[0], w);
    hide Encode;
  }

  lemma FifthByte(b: byte, w: nat)
    requires b == if w < 128 then w else w % 128 + 128
    ensures b % 128 * 0x1000_0000 % 0x1_0000_0000 == w % 16 * 0x1000_0000
    ensures w < 128 ==> (b / 16 % 8 == 0 <==> w < 16)
  {
    var c: nat := b % 128;
    assert c == w % 128;
    NibbleOf(w);
    LowNibble(c);
    if w < 128 { assert w / 16 % 8 == w / 16; }
  }

  lemma NibbleOf(w: nat)
    ensures w % 128 % 16 == w % 16
  {
    var q, r := w / 128, w % 128;
    var a := r / 16;
    assert w == 16 * (8 * q + a) + r % 16;
    LastNibble(w, 8 * q + a, r % 16);
  }

  lemma LastNibble(x: nat, k: nat, b: nat)
    requires x == 16 * k + b && b < 16
    ensures x % 16 == b
  {
  }

  lemma LowNibble(c: nat)
    requires c < 128
    ensures c * 0x1000_0000 % 0x1_0000_0000 == c % 16 * 0x1000_0000
  {
  }

  /** The fast decoder on every canonical encoding of a 64-bit value: it agrees below 2^32, refuses
      from 2^32 to 2^63 - 1, and above that returns the value modulo 2^32 when bit 31 is set and the
      groups above bit 35 are uniform, and refuses otherwise. */
  lemma Fast32Exactly(v: nat, rest: Bytes)
    requires v < TWO_64
    ensures Parse32(Encode(v) + rest) ==
            if v < TWO_32 then Some((v, rest))
            else if v >= TWO_63 && v % TWO_32 >= TWO_31 && UniformHigh(v / 0x8_0000_0000) then Some((v % TWO_32, rest))
            else None
  {
    hide UniformHigh, From32, Encode, Parse32;
    Low28(v, rest);
    if v >= 0x1000_0000 {
      var w, low := v / 0x1000_0000, v % 0x1000_0000;
      Fifth32(w, low, rest);
      HighParts(v);
      if w >= 128 {
        Top32(w / 128, v % TWO_32, rest);
      }
    }
  }

  lemma HighParts(v: nat)
    ensures v / 0x1000_0000 / 128 == v / 0x8_0000_0000
    ensures v % 0x1000_0000 + v / 0x1000_0000 % 16 * 0x1000_0000 == v % TWO_32
    ensures v / 0x1000_0000 < 16 <==> v < TWO_32
    ensures v / 0x1000_0000 < 128 <==> v < 0x8_0000_0000
    ensures v / 0x8_0000_0000 >= 0x1000_0000 <==> v >= TWO_63
    ensures v / 0x8_0000_0000 < 0x2000_0000 <==> v < TWO_64
  {
    LowParts(v);
    var w := v / 0x1000_0000;
    var y := w / 128;
    assert w == y * 128 + w % 128 && v == w * 0x1000_0000 + v % 0x1000_0000;
    assert v / 0x8_0000_0000 == y;
  }

  lemma LowParts(v: nat)
    ensures v % 0x1000_0000 + v / 0x1000_0000 % 16 * 0x1000_0000 == v % TWO_32
  {
    var w := v / 0x1000_0000;
    var x := w / 16;
    assert w == x * 16 + w % 16 && v == x * TWO_32 + (w % 16 * 0x1000_0000 + v % 0x1000_0000);
  }

  /** A negative int32, sign-extended to 64 bits as the format prescribes, reads as its low 32 bits. */
  lemma SignExtended(k: nat, rest: Bytes)
    requires 1 <= k <= TWO_31
    ensures Parse32(Encode(TWO_64 - k) + rest) == Some((TWO_32 - k, rest))
  {
    hide Encode, Parse32;
    var v: nat := TWO_64 - k;
    Fast32Exactly(v, rest);
    assert v % TWO_32 == TWO_32 - k;
    assert v / 0x8_0000_0000 == 0x1FFF_FFFF;
    assert UniformHigh(0x1FFF_FFFF);
    hide UniformHigh;
  }

  // --- the two decoders on any bytes ---

  // Bytes that stand at bit 35 or above and are zeros, or ones continuing a set bit 31.
  predicate Extends(s: Bytes, from: nat, n: nat, high: bool)
    requires n <= |s|
  {
    forall j :: from <= j < n ==> s[j] % 128 == 0 || (high && s[j] == if j < 9 then 0xFF else 1)
  }

  // What the fast decoder accepts of n bytes that spell v: no more than 32 bits in the first five, and
  // an extension behind them; of five bytes followed by more, bits 32 to 34 are not looked at.
  predicate FastTakes(s: Bytes, n: nat, v: nat)
    requires n <= |s|
  {
    if n <= 5 then v < TWO_32 else Extends(s, 5, n, v % TWO_32 >= TWO_31)
  }

  // The decoders on the bytes of t from the k-th on, the earlier ones having given r, x in 32 bits.
  ghost predicate Compares(t: Bytes, k: nat, r: nat, x: nat)
    requires k <= |t|
  {
    match (From64(t[k..], 7 * k, r), From32(t[k..], 7 * k, x))
    case (None, None) => true
    case (None, Some((_, rest))) => |t| - |rest| > 10
    case (Some((v, rest)), fast) =>
      var n := |t| - |rest|;
      k < n <= 10 && fast == if FastFrom(t, k, n, v) then Some((v % TWO_32, rest)) else None
  }

  predicate FastFrom(t: Bytes, k: nat, n: nat, v: nat)
    requires k < n <= |t|
  {
    if k <= 5 then FastTakes(t, n, v) else Extends(t, k, n, v % TWO_32 >= TWO_31)
  }

  // From bit 35 on nothing is added to the low 32 bits.
  lemma {:induction false} HighCompares(t: Bytes, k: nat, r: nat)
    requires 5 <= k <= |t|
    ensures Compares(t, k, r, r % TWO_32)
    ensures match From64(t[k..], 7 * k, r) case None => true case Some((v, _)) => v % TWO_32 == r % TWO_32
    decreases |t| - k
  {
    hide Or, Extends;
    if k < 10 && k < |t| {
      assert t[k..][0] == t[k] && t[k..][1..] == t[k + 1..];
      HighBits(r, t[k], 7 * k);
      if t[k] >= 128 { HighCompares(t, k + 1, Or(r, t[k], 7 * k, TWO_64)); }
      var p := From64(t[k..], 7 * k, r);
      if p.Some? { OneExtends(t, k, |t| - |p.value.1|, p.value.0 % TWO_32 >= TWO_31); }
    }
  }

  lemma OneExtends(s: Bytes, from: nat, n: nat, high: bool)
    requires from < n <= |s|
    ensures Extends(s, from, n, high) <==>
            (s[from] % 128 == 0 || (high && s[from] == if from < 9 then 0xFF else 1)) && Extends(s, from + 1, n, high)
    ensures Extends(s, n, n, high)
  {
  }

  lemma HighBits(r: nat, b: byte, bitpos: nat)
    requires 35 <= bitpos <= 63 && bitpos % 7 == 0
    ensures Or(r, b, bitpos, TWO_64) % TWO_32 == r % TWO_32
  {
    var c: nat := b % 128;
    var k := if bitpos == 35 then 8 else if bitpos == 42 then 0x400 else if bitpos == 49 then 0x2_0000
             else if bitpos == 56 then 0x100_0000 else 0x8000_0000;
    assert Weight(bitpos) == k * TWO_32;
    hide Weight;
    assert c * (k * TWO_32) == c * k * TWO_32;
    Scaled(c * k);
    Multiple(r, c * k % TWO_32);
  }

  lemma Scaled(y: nat)
    ensures y * TWO_32 % TWO_64 == y % TWO_32 * TWO_32
  {
    var q, m := y / TWO_32, y % TWO_32;
    assert y * TWO_32 == q * TWO_64 + m * TWO_32 && m * TWO_32 < TWO_64;
  }

  lemma Multiple(r: nat, m: nat)
    ensures (r + m * TWO_32) % TWO_32 == r % TWO_32
  {
  }

  // Below it both gather the same bits, but for bits 32 to 34 of the fifth byte.
  lemma {:induction false} LowCompares(t: Bytes, k: nat, r: nat)
    requires k <= 4 && k <= |t| && r < Weight(7 * k)
    ensures Compares(t, k, r, r)
    decreases |t| - k
  {
    hide Or, Weight, FastTakes, From32;
    if k == 4 {
      WeightAt28();
      FifthCompares(t, r);
    } else if k < |t| {
      OrLow(r, t[k], 7 * k);
      LowByte(t[k..], 7 * k, r);
      assert t[k..][0] == t[k] && t[k..][1..] == t[k + 1..];
      if t[k] >= 128 {
        LowCompares(t, k + 1, r + t[k] % 128 * Weight(7 * k));
      } else {
        TakesShort(t, k + 1, r + t[k] % 128 * Weight(7 * k));
      }
    }
  }

  lemma WeightAt28()
    ensures Weight(28) == 0x1000_0000
  {
  }

  lemma TakesShort(t: Bytes, n: nat, v: nat)
    requires n <= 5 && n <= |t| && v < 0x1000_0000
    ensures FastTakes(t, n, v) && v % TWO_32 == v
  {
  }

  lemma FifthCompares(t: Bytes, r: nat)
    requires 4 <= |t| && r < 0x1000_0000
    ensures Compares(t, 4, r, r)
  {
    if 4 < |t| {
      assert t[4..][0] == t[4] && t[4..][1..] == t[5..];
      FifthBits(r, t[4]);
      FifthLow(r, t[4]);
      hide Or;
      var c: nat := t[4] % 128;
      if t[4] >= 128 { HighCompares(t, 5, r + c * 0x1000_0000); }
    }
  }

  lemma OrLow(r: nat, b: byte, bitpos: nat)
    requires bitpos <= 21 && bitpos % 7 == 0 && r < Weight(bitpos)
    ensures Or(r, b, bitpos, TWO_64) == r + b % 128 * Weight(bitpos) < Weight(bitpos + 7) <= 0x1000_0000
  {
    assert Weight(bitpos + 7) == 128 * Weight(bitpos);
    Times(b % 128, 127, Weight(bitpos));
    OrFits(r, b, bitpos, b % 128);
  }

  lemma FifthLow(r: nat, b: byte)
    requires r < 0x1000_0000
    ensures (r + b % 128 * 0x1000_0000) % TWO_32 == r + b % 16 * 0x1000_0000
    ensures b < 128 ==> (r + b % 128 * 0x1000_0000 < TWO_32 <==> b / 16 % 8 == 0)
  {
    var c := b % 128;
    assert c % 16 == b % 16;
    var q, low := c / 16, r + b % 16 * 0x1000_0000;
    assert r + c * 0x1000_0000 == q * TWO_32 + low && low < TWO_32;
  }

  /** The two decoders on any bytes. Where both accept they read the same bytes, and the fast one gives the
      low 32 bits of what the other gives; what the 64-bit one accepts, the fast one accepts exactly
      when FastTakes says so; what only the fast one accepts is longer than ten bytes. */
  lemma DecodersCompare(s: Bytes)
    ensures match Parse64(s)
            case None => (match Parse32(s) case None => true case Some((_, rest)) => |s| - |rest| > 10)
            case Some((v, rest)) =>
              var n := |s| - |rest|;
              n <= 10 && Parse32(s) == if FastTakes(s, n, v) then Some((v % TWO_32, rest)) else None
  {
    assert s[0..] == s;
    LowCompares(s, 0, 0);
    if s != [] { LowByte(s, 0, 0); }
  }

  /** So where both decoders accept, they agree if and only if the value has no more than 32 bits. */
  lemma DecodersAgree(s: Bytes)
    requires Parse32(s).Some? && Parse64(s).Some?
    ensures Parse32(s) == Parse64(s) <==> Parse64(s).value.0 < TWO_32
    ensures Parse32(s).value.1 == Parse64(s).value.1 && Parse32(s).value.0 == Parse64(s).value.0 % TWO_32
  {
    hide Parse32, Parse64, FastTakes;
    DecodersCompare(s);
    LowHalf(Parse64(s).value.0);
  }

  lemma LowHalf(v: nat)
    ensures v % TWO_32 == v <==> v < TWO_32
  {
  }

  /** And they do not agree everywhere: these six bytes read as 0 and as 2^32. */
  lemma FastDropsBits(rest: Bytes)
    ensures var s := [0x80, 0x80, 0x80, 0x80, 0x90, 0] + rest;
            Parse32(s) == Some((0, rest)) && Parse64(s) == Some((TWO_32, rest))
  {
    hide Parse32, Parse64, From32, From64;
    var s := [0x80, 0x80, 0x80, 0x80, 0x90, 0] + rest;
    assert s[1..][1..][1..][1..] == [0x90, 0] + rest;
    FromFifth(s);
    FifthDrops(0x90, 0, rest);
  }

  // A fifth byte that continues into a zero keeps four of its bits, or seven.
  lemma FifthDrops(b: byte, r: nat, rest: Bytes)
    requires b >= 128
    ensures From32([b, 0] + rest, 28, r) == Some((r + b % 16 * 0x1000_0000, rest))
    ensures From64([b, 0] + rest, 28, r) == Some((r + b % 128 * 0x1000_0000, rest))
  {
    var s := [b, 0] + rest;
    assert s[1..] == [0] + rest;
    FifthBits(r, b);
    ZeroEnds(rest, r + b % 16 * 0x1000_0000);
    ZeroEnds(rest, r + b % 128 * 0x1000_0000);
    hide Or;
  }

  // Four continuing zeros bring both decoders to the fifth byte.
  lemma FromFifth(s: Bytes)
    requires |s| >= 4 && s[0] == s[1] == s[2] == s[3] == 0x80
    ensures Parse32(s) == From32(s[1..][1..][1..][1..], 28, 0) && Parse64(s) == From64(s[1..][1..][1..][1..], 28, 0)
  {
    hide From32, From64;
    EmptyByte(s, 0);
    EmptyByte(s[1..], 7);
    EmptyByte(s[1..][1..], 14);
    EmptyByte(s[1..][1..][1..], 21);
  }

  lemma EmptyByte(s: Bytes, bitpos: nat)
    requires bitpos <= 21 && bitpos % 7 == 0 && s != [] && s[0] == 0x80
    ensures From32(s, bitpos, 0) == From32(s[1..], bitpos + 7, 0)
            && From64(s, bitpos, 0) == From64(s[1..], bitpos + 7, 0)
  {
  }

  lemma FifthBits(result: nat, b: byte)
    ensures Or(result, b, 28, TWO_32) == result + b % 16 * 0x1000_0000
    ensures Or(result, b, 28, TWO_64) == result + b % 128 * 0x1000_0000
  {
    assert b % 128 % 16 == b % 16;
    LowNibble(b % 128);
    OrFits(result, b, 28, b % 128);
  }

  lemma ZeroEnds(rest: Bytes, r: nat)
    ensures From32([0] + rest, 35, r) == Some((r, rest)) && From64([0] + rest, 35, r) == Some((r, rest))
  {
    assert ([0] + rest)[1..] == rest;
  }
}
