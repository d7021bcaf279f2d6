/** base64url decoding of an encoded transaction payload (src/base64.c). */
module Base64Url {
  import opened Common

  // The pr2six table: 64 marks a character outside the alphabet. Both '/' and '_' map to 63.
  function Six(c: byte): (v: nat)
    ensures v <= 64
  {
    if 65 <= c <= 90 then c - 65
    else if 97 <= c <= 122 then c - 71
    else if 48 <= c <= 57 then c + 4
    else if c == 45 then 62
    else if c == 47 || c == 95 then 63
    else 64
  }

  // `high | low` on bytes, where high is a multiple of unit, low <= unit and unit is a power of two.
  // The low == unit case arises only from a character outside the alphabet.
  function Or(high: nat, low: nat, unit: nat): nat
    requires unit > 0 && low <= unit
  {
    if low < unit || (high / unit) % 2 == 0 then high + low else high
  }

  function First(a: byte, b: byte): byte { Or(Six(a) * 4, Six(b) / 16, 4) % 256 }
  function Second(b: byte, c: byte): byte { Or(Six(b) * 16, Six(c) / 4, 16) % 256 }
  function Third(c: byte, d: byte): byte { Or(Six(c) * 64, Six(d), 64) % 256 }

  // Up to two trailing '=' signs are ignored.
  function Strip(s: Bytes): (r: Bytes)
    ensures r <= s
  {
    var r := if s != [] && s[|s| - 1] == 61 then s[..|s| - 1] else s;
    if r != [] && r[|r| - 1] == 61 then r[..|r| - 1] else r
  }

  // The bytes a stripped text stands for: three per full group, the rest from a partial group.
  function Bits(s: Bytes): Bytes {
    if |s| > 4 then [First(s[0], s[1]), Second(s[1], s[2]), Third(s[2], s[3])] + Bits(s[4..])
    else (if |s| > 1 then [First(s[0], s[1])] else [])
         + (if |s| > 2 then [Second(s[1], s[2])] else [])
         + (if |s| > 3 then [Third(s[2], s[3])] else [])
  }

  lemma GroupStep(s: Bytes, i: nat)
    requires i + 4 < |s|
    ensures Bits(s[i..]) == [First(s[i], s[i + 1]), Second(s[i + 1], s[i + 2]), Third(s[i + 2], s[i + 3])]
            + Bits(s[i + 4..])
  {
    hide First, Second, Third;
    assert s[i..][4..] == s[i + 4..];
  }

  /** What decoding into a destination of `maxsize` bytes returns; None stands for -1. */
  function DecodeInto(maxsize: nat, coded: Bytes): Option<Bytes> {
    if |coded| % 4 == 1 || |Bits(Strip(coded))| > maxsize then None else Some(Bits(Strip(coded)))
  }

  method Decode(plain: array<byte>, maxsize: nat, coded: Bytes) returns (n: int)
    requires maxsize <= plain.Length
    modifies plain
    ensures match DecodeInto(maxsize, coded)
            case None => n == -1
            case Some(b) => n == |b| && plain[..n] == b && plain[n..] == old(plain[n..])
    ensures plain[maxsize..] == old(plain[maxsize..])
  {
    hide First, Second, Third, Bits;
    var left := |coded|;
    if left % 4 == 1 {
      return -1;
    } else if left == 0 {
      assert Bits([]) == [] by { BitsLength([]); }
      return 0;
    }
    if coded[left - 1] == 61 {
      left := left - 1;
    }
    if left > 0 && coded[left - 1] == 61 {
      left := left - 1;
    }
    var text := coded[..left];
    assert text == Strip(coded);
    n := DecodeText(plain, maxsize, text);
  }

  // The loop over full groups, then the last one.
  method DecodeText(plain: array<byte>, maxsize: nat, text: Bytes) returns (n: int)
    requires maxsize <= plain.Length
    modifies plain
    ensures if |Bits(text)| > maxsize then n == -1
            else n == |Bits(text)| && plain[..n] == Bits(text) && plain[n..] == old(plain[n..])
    ensures plain[maxsize..] == old(plain[maxsize..])
  {
    hide First, Second, Third, Bits;
    var i, o, left, room := 0, 0, |text|, maxsize;
    while left > 4
      invariant 0 <= left && i + left == |text| && o + room == maxsize
      invariant plain[..o] + Bits(text[i..]) == Bits(text) && plain[o..] == old(plain[o..])
    {
      GroupStep(text, i);
      if room < 3 {
        return -1;
      }
      DecodeGroup(plain, o, text[i], text[i + 1], text[i + 2], text[i + 3]);
      i, o, left, room := i + 4, o + 3, left - 4, room - 3;
    }
    n := DecodeTail(plain, o, room, text[i..]);
  }

  // Three bytes out of four characters.
  method DecodeGroup(plain: array<byte>, o: nat, a: byte, b: byte, c: byte, d: byte)
    requires o + 3 <= plain.Length
    modifies plain
    ensures plain[..o + 3] == old(plain[..o]) + [First(a, b), Second(b, c), Third(c, d)]
    ensures plain[o + 3..] == old(plain[o + 3..])
  {
    hide First, Second, Third;
    plain[o] := First(a, b);
    plain[o + 1] := Second(b, c);
    plain[o + 2] := Third(c, d);
  }

  // The last group, of up to four characters, decoded behind the o bytes already written.
  method DecodeTail(plain: array<byte>, o: nat, room: nat, rest: Bytes) returns (n: int)
    requires o + room <= plain.Length && |rest| <= 4
    modifies plain
    ensures if |Bits(rest)| > room then n == -1
            else n == o + |Bits(rest)| && plain[..n] == old(plain[..o]) + Bits(rest)
                 && plain[n..] == old(plain[n..])
    ensures plain[o + room..] == old(plain[o + room..])
  {
    hide First, Second, Third;
    n := o;
    if |rest| > 1 {
      if room < 1 {
        return -1;
      }
      plain[n] := First(rest[0], rest[1]);
      n := n + 1;
    }
    if |rest| > 2 {
      if room < 2 {
        return -1;
      }
      plain[n] := Second(rest[1], rest[2]);
      n := n + 1;
    }
    if |rest| > 3 {
      if room < 3 {
        return -1;
      }
      plain[n] := Third(rest[2], rest[3]);
      n := n + 1;
    }
  }

  // --- the reference encoder of section 5 of RFC 4648 ---

  function Char(v: nat): (c: byte)
    requires v < 64
    ensures Six(c) == v && c != 61
  {
    if v < 26 then v + 65
    else if v < 52 then v + 71
    else if v < 62 then v - 4
    else if v == 62 then 45
    else 95
  }

  function Encode(b: Bytes, pad: bool): Bytes {
    if b == [] then []
    else if |b| == 1 then [Char(b[0] / 4), Char(b[0] % 4 * 16)] + if pad then [61, 61] else []
    else if |b| == 2 then
      [Char(b[0] / 4), Char(b[0] % 4 * 16 + b[1] / 16), Char(b[1] % 16 * 4)] + if pad then [61] else []
    else
      [Char(b[0] / 4), Char(b[0] % 4 * 16 + b[1] / 16), Char(b[1] % 16 * 4 + b[2] / 64), Char(b[2] % 64)]
      + Encode(b[3..], pad)
  }

  lemma {:induction false} EncodedLength(b: Bytes, pad: bool)
    ensures |Encode(b, pad)| % 4 != 1
    ensures pad ==> |Encode(b, pad)| == (|b| + 2) / 3 * 4
    ensures b != [] ==> |Encode(b, pad)| > 1
  {
    if |b| > 2 {
      EncodedLength(b[3..], pad);
      LongEncoded(b, pad);
      hide Encode;
      FourMore(|Encode(b[3..], pad)|);
    }
  }

  lemma LongEncoded(b: Bytes, pad: bool)
    requires |b| > 2
    ensures |Encode(b, pad)| == |Encode(b[3..], pad)| + 4
  {
    hide Char;
  }

  lemma FourMore(n: nat)
    ensures (n + 4) % 4 == n % 4
  {
  }

  // Stripping looks only at the last group.
  lemma StripTail(head: Bytes, tail: Bytes)
    requires |tail| > 1
    ensures Strip(head + tail) == head + Strip(tail)
  {
    assert (head + tail)[..|head + tail| - 1] == head + tail[..|tail| - 1];
    var cut := if tail[|tail| - 1] == 61 then tail[..|tail| - 1] else tail;
    assert (head + cut)[..|head + cut| - 1] == head + cut[..|cut| - 1];
  }

  // Padding is exactly what Strip removes.
  lemma {:induction false} StripEncoded(b: Bytes, pad: bool)
    ensures Strip(Encode(b, pad)) == Encode(b, false)
  {
    if |b| > 3 {
      var head := Encode(b, pad)[..4];
      assert Encode(b, pad) == head + Encode(b[3..], pad) && Encode(b, false) == head + Encode(b[3..], false);
      EncodedLength(b[3..], pad);
      StripTail(head, Encode(b[3..], pad));
      StripEncoded(b[3..], pad);
    } else if |b| == 3 {
      assert b[3..] == [];
    } else if |b| == 2 && pad {
      assert Encode(b, pad)[..3] == Encode(b, false);
    } else if |b| == 1 && pad {
      assert Encode(b, pad)[..3][..2] == Encode(b, false);
    }
  }

  lemma {:induction false} BitsOfEncoded(b: Bytes)
    ensures Bits(Encode(b, false)) == b
  {
    hide First, Second, Third, Char;
    var e := Encode(b, false);
    if |b| > 3 {
      BitsOfEncoded(b[3..]);
      EncodedLength(b[3..], false);
      GroupBits(b[0], b[1], b[2]);
      assert e[4..] == Encode(b[3..], false);
      assert b == [b[0], b[1], b[2]] + b[3..];
    } else if |b| == 3 {
      GroupBits(b[0], b[1], b[2]);
      assert Encode(b[3..], false) == [];
      assert b == [b[0], b[1], b[2]];
    } else if |b| == 2 {
      GroupBits(b[0], b[1], 0);
      assert b == [b[0], b[1]];
    } else if |b| == 1 {
      GroupBits(b[0], 0, 0);
      assert b == [b[0]];
    }
  }

  lemma FirstJoins(a: byte, b: byte, x: byte)
    requires Six(a) == x / 4 && Six(b) / 16 == x % 4
    ensures First(a, b) == x
  {
    assert Six(a) * 4 + Six(b) / 16 == x;
  }

  lemma SecondJoins(b: byte, c: byte, high: nat, y: byte)
    requires Six(b) == high * 16 + y / 16 && Six(c) / 4 == y % 16
    ensures Second(b, c) == y
  {
    hide Six;
    assert Or(Six(b) * 16, Six(c) / 4, 16) == high * 256 + y;
    LowByte(high, y);
  }

  lemma LowByte(high: nat, y: byte)
    ensures (high * 256 + y) % 256 == y
  {
  }

  lemma ThirdJoins(c: byte, d: byte, high: nat, z: byte)
    requires Six(c) == high * 4 + z / 64 && Six(d) == z % 64
    ensures Third(c, d) == z
  {
    hide Six;
    assert Or(Six(c) * 64, Six(d), 64) == high * 256 + z;
    LowByte(high, z);
  }

  // A group of three bytes cut into four six-bit characters and put together again.
  lemma GroupBits(x: byte, y: byte, z: byte)
    ensures First(Char(x / 4), Char(x % 4 * 16 + y / 16)) == x
    ensures Second(Char(x % 4 * 16 + y / 16), Char(y % 16 * 4 + z / 64)) == y
    ensures Third(Char(y % 16 * 4 + z / 64), Char(z % 64)) == z
  {
    var b, c := Char(x % 4 * 16 + y / 16), Char(y % 16 * 4 + z / 64);
    FirstJoins(Char(x / 4), b, x);
    SecondJoins(b, c, x % 4, y);
    ThirdJoins(c, Char(z % 64), y % 16, z);
  }

  /** Decoding inverts encoding for every byte string, padded or not, and fails exactly when the
      destination is too small. */
  lemma DecodeInvertsEncode(b: Bytes, pad: bool, maxsize: nat)
    ensures DecodeInto(maxsize, Encode(b, pad)) == if maxsize < |b| then None else Some(b)
  {
    EncodedLength(b, pad);
    StripEncoded(b, pad);
    BitsOfEncoded(b);
  }

  // How many bytes a stripped text of a given length yields, whatever its characters.
  lemma {:induction false} BitsLength(s: Bytes)
    ensures |Bits(s)| == |s| / 4 * 3 + if |s| % 4 == 0 then 0 else |s| % 4 - 1
  {
    if |s| > 4 { BitsLength(s[4..]); }
  }

  // --- the alphabet and the numbers, written out ---

  const UPPER: string := "ABCDEFGHIJKLMNOPQRSTUVWXYZ"
  const LOWER: string := "abcdefghijklmnopqrstuvwxyz"
  const OTHER: string := "0123456789-_"

  // The letter of a value, as Table 2 of RFC 4648 lists them.
  function Letter(v: nat): char
    requires v < 64
  {
    if v < 26 then UPPER[v] else if v < 52 then LOWER[v - 26] else OTHER[v - 52]
  }

  /** The alphabet; besides it, '/' is read like '_', and nothing else is read. */
  lemma AlphabetIs(v: nat, c: byte)
    ensures v < 64 ==> Char(v) == Letter(v) as int && Six(Char(v)) == v
    ensures Six(c) < 64 <==> c == 47 || exists k: nat :: k < 64 && c == Letter(k) as int
    ensures Six(47) == 63
  {
    hide Letter;
    forall k: nat | k < 64
      ensures Char(k) == Letter(k) as int && Six(Char(k)) == k
    {
      LetterIs(k);
    }
    if Six(c) < 64 && c != 47 { assert c == Letter(Six(c)) as int; }
  }

  lemma LetterIs(v: nat)
    requires v < 64
    ensures Char(v) == Letter(v) as int && Six(Char(v)) == v
  {
  }

  /** Four characters stand for three bytes as one number of 24 bits. */
  lemma GroupSpells(a: byte, b: byte, c: byte, d: byte)
    requires Six(a) < 64 && Six(b) < 64 && Six(c) < 64 && Six(d) < 64
    ensures (First(a, b) as int * 256 + Second(b, c)) * 256 + Third(c, d) ==
            ((Six(a) * 64 + Six(b)) * 64 + Six(c)) * 64 + Six(d)
  {
    hide First, Second, Third;
    BytesOfGroup(a, b, c, d);
    var x, y := Six(b), Six(c);
    hide Six;
    assert x == x / 16 * 16 + x % 16 && y == y / 4 * 4 + y % 4;
  }

  lemma BytesOfGroup(a: byte, b: byte, c: byte, d: byte)
    requires Six(a) < 64 && Six(b) < 64 && Six(c) < 64 && Six(d) < 64
    ensures First(a, b) as int == Six(a) * 4 + Six(b) / 16
    ensures Second(b, c) as int == Six(b) % 16 * 16 + Six(c) / 4
    ensures Third(c, d) as int == Six(c) % 4 * 64 + Six(d)
  {
    hide Six, Or;
    OrAdds(Six(a) * 4, Six(b) / 16, 4);
    OrAdds(Six(b) * 16, Six(c) / 4, 16);
    OrAdds(Six(c) * 64, Six(d), 64);
    LowPart(Six(b), 16, 16, Six(c) / 4);
    LowPart(Six(c), 64, 4, Six(d));
  }

  lemma LowPart(x: nat, unit: nat, n: nat, low: nat)
    requires (unit == 16 && n == 16) || (unit == 64 && n == 4)
    requires low < unit
    ensures (x * unit + low) % 256 == x % n * unit + low
  {
    assert x == x / n * n + x % n;
    assert x * unit + low == x / n * 256 + (x % n * unit + low);
  }

  lemma OrAdds(high: nat, low: nat, unit: nat)
    requires low < unit
    ensures Or(high, low, unit) == high + low
  {
  }
}
