/** Addresses published with BIP 173 and BIP 350, as literal instances of decode, and what an address is made
    of, with the numbers and characters of these documents written out. */
module SegwitVectors {
  import opened Common
  import opened Bech32
  import opened ConvertBits
  import opened Segwit

  // --- one step of the checksum, written out ---

  predicate Has(s: Checksum, bit: Checksum) { s & bit != 0 }

  function Feedback(s: Checksum, bit: Checksum, g: Checksum): Checksum { if Has(s, bit) then g else 0 }

  // bech32_polymod for one value.
  function Next(s: Checksum, v: Checksum): Checksum {
    Begun(s, v) ^ Feedback(s, 0x8000000, 0x1ea119fa) ^ Feedback(s, 0x10000000, 0x3d4233dd) ^ Feedback(s, 0x20000000,
      0x2a1462b3)
  }

  function Begun(s: Checksum, v: Checksum): Checksum {
    ((s & 0x1ffffff) << 5) ^ v ^ Feedback(s, 0x2000000, 0x3b6a57b2) ^ Feedback(s, 0x4000000, 0x26508e6d)
  }

  /** A value shifts the state by five bits, adds itself, and feeds the generator's terms back. */
  lemma NextIs(s: Checksum, v: Checksum)
    ensures Next(s, v) == Xor(Shift(s), v)
  {
    hide Xor, Right, Odd, Term, Terms, Low, Feedback, Next;
    var a, b, c := Feedback(s, 0x2000000, G0), Feedback(s, 0x4000000, G1), Feedback(s, 0x8000000, G2);
    var d, e := Feedback(s, 0x10000000, G3), Feedback(s, 0x20000000, G4);
    FiveTerms(Right(s, 25));
    FirstTerms(s);
    LastTerms(s);
    NextUnfolds(s, v);
    InOrder(Low(s), v, a, b, c, d, e);
  }

  lemma NextUnfolds(s: Checksum, v: Checksum)
    ensures Next(s, v) ==
            Xor(Xor(Xor(Xor(Xor(Xor(Low(s), v), Feedback(s, 0x2000000, G0)), Feedback(s, 0x4000000, G1)),
                        Feedback(s, 0x8000000, G2)), Feedback(s, 0x10000000, G3)), Feedback(s, 0x20000000, G4))
  {
    hide Feedback, Xor, Begun;
    BegunUnfolds(s, v);
    var x := Begun(s, v);
    ThreeXors(x, Feedback(s, 0x8000000, G2), Feedback(s, 0x10000000, G3), Feedback(s, 0x20000000, G4));
  }

  lemma BegunUnfolds(s: Checksum, v: Checksum)
    ensures Begun(s, v) == Xor(Xor(Xor(Low(s), v), Feedback(s, 0x2000000, G0)), Feedback(s, 0x4000000, G1))
  {
    hide Feedback, Xor;
    var l := Low(s);
    assert l == (s & 0x1ffffff) << 5;
    hide Low;
    ThreeXors(l, v, Feedback(s, 0x2000000, G0), Feedback(s, 0x4000000, G1));
  }

  lemma ThreeXors(x: Checksum, a: Checksum, b: Checksum, c: Checksum)
    ensures Xor(Xor(Xor(x, a), b), c) == x ^ a ^ b ^ c
  {
  }

  lemma FirstTerms(s: Checksum)
    ensures var top := Right(s, 25);
            && Term(Right(top, 0), G0) == Feedback(s, 0x2000000, G0)
            && Term(Right(top, 1), G1) == Feedback(s, 0x4000000, G1)
            && Term(Right(top, 2), G2) == Feedback(s, 0x8000000, G2)
  {
    hide Right, Odd, Has;
    HighBits(s);
  }

  lemma LastTerms(s: Checksum)
    ensures var top := Right(s, 25);
            && Term(Right(top, 3), G3) == Feedback(s, 0x10000000, G3)
            && Term(Right(top, 4), G4) == Feedback(s, 0x20000000, G4)
  {
    hide Right, Odd, Has;
    HighBits(s);
  }

  lemma HighBits(s: Checksum)
    ensures var top := Right(s, 25);
            && (Odd(Right(top, 0)) <==> Has(s, 0x2000000)) && (Odd(Right(top, 1)) <==> Has(s, 0x4000000))
            && (Odd(Right(top, 2)) <==> Has(s, 0x8000000)) && (Odd(Right(top, 3)) <==> Has(s, 0x10000000))
            && (Odd(Right(top, 4)) <==> Has(s, 0x20000000))
  {
    hide Right, Odd;
    TopSmall(s);
    TopBits(Right(s, 25));
    TopHas(s);
  }

  lemma TopHas(s: Checksum)
    ensures var top := Right(s, 25);
            && (top & 1 != 0 <==> Has(s, 0x2000000)) && (top & 2 != 0 <==> Has(s, 0x4000000))
            && (top & 4 != 0 <==> Has(s, 0x8000000)) && (top & 8 != 0 <==> Has(s, 0x10000000))
            && (top & 16 != 0 <==> Has(s, 0x20000000))
  {
  }

  lemma InOrder(l: Checksum, v: Checksum, a: Checksum, b: Checksum, c: Checksum, d: Checksum, e: Checksum)
    ensures Xor(Xor(Xor(Xor(Xor(Xor(l, v), a), b), c), d), e)
            == Xor(Xor(l, Xor(Xor(Xor(Xor(Xor(0, a), b), c), d), e)), v)
  {
    hide Xor;
    var x := Xor(l, v);
    XorZero(a);
    XorAssociates(x, a, b);
    XorAssociates(x, Xor(a, b), c);
    XorAssociates(x, Xor(Xor(a, b), c), d);
    XorAssociates(x, Xor(Xor(Xor(a, b), c), d), e);
    XorSwaps(l, v, Xor(Xor(Xor(Xor(a, b), c), d), e));
  }

  lemma NextPolymod(s: Checksum, v: Five)
    ensures Polymod(s, [v]) == Next(s, Symbol(v))
  {
    hide Xor, Shift, Symbol, Next;
    NextIs(s, Symbol(v));
    var t := Xor(Shift(s), Symbol(v));
    assert [v][1..] == [];
    assert Polymod(t, []) == t;
  }

  // The symbols as bits.
  lemma SymbolsAre()
    ensures Symbol(0) == 0 && Symbol(1) == 1 && Symbol(2) == 2 && Symbol(3) == 3 && Symbol(4) == 4 && Symbol(5) == 5
    ensures Symbol(6) == 6 && Symbol(7) == 7 && Symbol(8) == 8 && Symbol(9) == 9 && Symbol(10) == 10 && Symbol(11) == 11
    ensures Symbol(12) == 12 && Symbol(13) == 13 && Symbol(14) == 14 && Symbol(15) == 15 && Symbol(16) == 16
            && Symbol(17) == 17
    ensures Symbol(18) == 18 && Symbol(19) == 19 && Symbol(20) == 20 && Symbol(21) == 21 && Symbol(22) == 22
            && Symbol(23) == 23
    ensures Symbol(24) == 24 && Symbol(25) == 25 && Symbol(26) == 26 && Symbol(27) == 27 && Symbol(28) == 28
            && Symbol(29) == 29
    ensures Symbol(30) == 30 && Symbol(31) == 31
  {
  }
  // --- what an address is ---

  const ALPHABET: string := "qpzry9x8gf2tvdw0s3jn54khce6mua7l"

  lemma AlphabetIs(v: Five)
    ensures CharOf(v) == ALPHABET[v] as int
  {
  }

  // The checksum of some values, one step after the other.
  function Sum(s: Checksum, values: seq<Five>): Checksum {
    if values == [] then s else Next(Sum(s, values[..|values| - 1]), Symbol(values[|values| - 1]))
  }

  lemma {:induction false} SumIs(s: Checksum, values: seq<Five>)
    ensures Sum(s, values) == Polymod(s, values)
  {
    hide Next, Polymod;
    if values == [] {
      assert Polymod(s, values) == s by { NoValues(s); }
    } else {
      var n := |values| - 1;
      SumIs(s, values[..n]);
      PolymodJoins(s, values[..n], [values[n]]);
      NextPolymod(Polymod(s, values[..n]), values[n]);
      assert values == values[..n] + [values[n]];
    }
  }

  lemma NoValues(s: Checksum)
    ensures Polymod(s, []) == s
  {
  }

  // The prefix among the values: the high bits of its characters, a zero, and the low five bits.
  ghost predicate Expands(hrp: Bytes, e: seq<Five>) {
    && |e| == 2 * |hrp| + 1 && e[|hrp|] == 0
    && forall i :: 0 <= i < |hrp| ==> e[i] == hrp[i] / 32 && e[|hrp| + 1 + i] == hrp[i] % 32
  }

  // The prefix, a '1', and the symbols' characters.
  ghost predicate Writes(address: Bytes, hrp: Bytes, data: seq<Five>) {
    && |address| == |hrp| + 1 + |data| && hrp <= address && address[|hrp|] == 49
    && forall i :: 0 <= i < |data| ==> address[|hrp| + 1 + i] == ALPHABET[data[i]] as int
  }

  // The program's bits in groups of five, padded with fewer than five zeros.
  ghost predicate Groups(d: seq<Five>, program: Bytes) {
    && 8 * |program| <= 5 * |d| < 8 * |program| + 5
    && Value(d, 32) == Value(program, 256) * Two(5 * |d| - 8 * |program|)
  }

  /** An address consists of the prefix, '1' and characters of the alphabet for the version, the program in
      groups of five bits, and six more symbols with which the checksum over the expanded prefix and all
      symbols is 1 in version 0 and 0x2bc830a3 in all others. */
  lemma AddressMeans(hrp: Bytes, version: Five, program: Bytes)
    requires Encode(hrp, version, program).Some?
    ensures exists d: seq<Five>, c: seq<Five>, e: seq<Five> ::
              && Groups(d, program) && |c| == 6 && Expands(hrp, e)
              && Sum(1, e + ([version] + d + c)) == (if version == 0 then 1 else 0x2bc830a3)
              && Writes(Encode(hrp, version, program).value, hrp, [version] + d + c)
  {
    hide Polymod, Sum, Next, CreateChecksum, VerifyChecksum, AddressData, Decode, CharOf, Groups;
    AddressVersion(version, program);
    DataGroups(version, program);
    var data := AddressData(version, program);
    var d := data[1..];
    var c := CreateChecksum(hrp, data, SpecOf(version));
    assert data == [version] + d;
    ChecksumExactly(hrp, data, c, SpecOf(version));
    VerifyMeans(hrp, data + c, SpecOf(version));
    SumIs(1, HrpExpand(hrp) + (data + c));
    var e := HrpExpand(hrp);
    assert Expands(hrp, e);
    assert Sum(1, e + ([version] + d + c)) == Const(SpecOf(version));
    WrittenOut(hrp, data, c);
  }

  lemma WrittenOut(hrp: Bytes, data: seq<Five>, c: seq<Five>)
    ensures Writes(hrp + [49] + Chars(data + c), hrp, data + c)
  {
    hide CharOf;
    forall i | 0 <= i < |data + c|
      ensures CharOf((data + c)[i]) == ALPHABET[(data + c)[i]] as int
    {
      AlphabetIs((data + c)[i]);
    }
  }

  lemma DataGroups(version: Five, program: Bytes)
    ensures AddressData(version, program) != [] && Groups(AddressData(version, program)[1..], program)
  {
    hide Converted, Value, Two;
    Widths();
    AllBytes(program);
    PaddedSpells(program, 8, 5);
  }

  /** And nothing else is that address. */
  lemma GroupsAgree(version: Five, program: Bytes, d: seq<Five>)
    requires Groups(d, program)
    ensures AddressData(version, program) == [version] + d
  {
    hide Converted, Value, Two;
    Widths();
    AllBytes(program);
    PaddedSpells(program, 8, 5);
    AddressVersion(version, program);
    var out := Converted(program, 8, 5, true).value;
    DataGroups(version, program);
    AllFives(d);
    DigitsUnique(d, out, 32);
  }

  // --- reading an address piece by piece ---

  function Text(s: string): (b: Bytes)
    ensures |b| == |s|
  {
    seq(|s|, i requires 0 <= i < |s| => s[i] as int % 256)
  }

  lemma TextJoins(a: string, b: string)
    ensures Text(a + b) == Text(a) + Text(b)
  {
  }

  // What some characters are: symbols, the state they lead to, and the number they spell.
  ghost predicate Read(text: string, d: seq<Five>, from: Checksum, to: Checksum, value: nat) {
    Text(text) == Chars(d) && Polymod(from, d) == to && Value(d, 32) == value
  }

  lemma ReadNothing(s: Checksum)
    ensures Read("", [], s, s, 0)
  {
  }

  lemma ReadOne(text: string, d: seq<Five>, from: Checksum, to: Checksum, value: nat, x: char, v: Five)
    requires Read(text, d, from, to, value) && x as int == CharOf(v)
    ensures Read(text + [x], d + [v], from, Next(to, Symbol(v)), value * 32 + v)
  {
    hide Polymod, Next, Symbol, Value, CharOf;
    TextJoins(text, [x]);
    assert Text([x]) == [CharOf(v)];
    assert Chars(d + [v]) == Chars(d) + [CharOf(v)];
    hide Text, Chars;
    PolymodJoins(from, d, [v]);
    NextPolymod(to, v);
    ValueMore(d, v, 32);
  }

  // The states after four values.
  predicate Steps4(s: Checksum, v: seq<Five>, t: seq<Checksum>) {
    && |v| == 4 && |t| == 4 && Next(s, Symbol(v[0])) == t[0] && Next(t[0], Symbol(v[1])) == t[1]
    && Next(t[1], Symbol(v[2])) == t[2] && Next(t[2], Symbol(v[3])) == t[3]
  }

  function Number4(value: nat, a: nat, b: nat, c: nat, d: nat, base: nat): nat {
    (((value * base + a) * base + b) * base + c) * base + d
  }

  predicate Spelt4(s: string, a: Five, b: Five, c: Five, d: Five) {
    && |s| == 4 && s[0] as int == CharOf(a) && s[1] as int == CharOf(b)
    && s[2] as int == CharOf(c) && s[3] as int == CharOf(d)
  }

  lemma Read4(text: string, d: seq<Five>, from: Checksum, to: Checksum, value: nat, s: string, v: seq<Five>,
              t: seq<Checksum>)
    requires Read(text, d, from, to, value) && Steps4(to, v, t) && Spelt4(s, v[0], v[1], v[2], v[3])
    ensures Read(text + s, d + v, from, t[3], Number4(value, v[0], v[1], v[2], v[3], 32))
  {
    hide Read, Next, CharOf, Symbol;
    ReadOne(text, d, from, to, value, s[0], v[0]);
    ReadOne(text + [s[0]], d + [v[0]], from, t[0], value * 32 + v[0], s[1], v[1]);
    var n := (value * 32 + v[0]) * 32 + v[1];
    ReadOne(text + [s[0]] + [s[1]], d + [v[0]] + [v[1]], from, t[1], n, s[2], v[2]);
    ReadOne(text + [s[0]] + [s[1]] + [s[2]], d + [v[0]] + [v[1]] + [v[2]], from, t[2], n * 32 + v[2], s[3], v[3]);
    assert text + s == text + [s[0]] + [s[1]] + [s[2]] + [s[3]];
    assert d + v == d + [v[0]] + [v[1]] + [v[2]] + [v[3]];
  }

  lemma Bytes4(b: Bytes, value: nat, v: Bytes)
    requires Value(b, 256) == value && |v| == 4
    ensures Value(b + v, 256) == Number4(value, v[0], v[1], v[2], v[3], 256)
  {
    hide Value;
    ValueMore(b, v[0], 256);
    ValueMore(b + [v[0]], v[1], 256);
    ValueMore(b + [v[0]] + [v[1]], v[2], 256);
    ValueMore(b + [v[0]] + [v[1]] + [v[2]], v[3], 256);
    assert b + v == b + [v[0]] + [v[1]] + [v[2]] + [v[3]];
  }

  lemma Reads(text: string, d: seq<Five>, from: Checksum, to: Checksum, value: nat)
    requires Read(text, d, from, to, value)
    ensures Text(text) == Chars(d) && Polymod(from, d) == to && Value(d, 32) == value
  {
  }

  /** A version, a program in groups, and a checksum, read and summed, are the address that decodes to them. */
  lemma Decodes(hrp: string, version: Five, x: char, text: string, d: seq<Five>, check: string, c: seq<Five>,
                start: Checksum, middle: Checksum, last: Checksum, value: nat, ignored: nat, program: Bytes)
    requires LegalHrp(Text(hrp)) && version <= 16 && LegalProgram(version, program)
    requires |hrp| + |d| + 8 <= 90 && Polymod(1, HrpExpand(Text(hrp))) == start && x as int == CharOf(version)
    requires Read(text, d, Next(start, Symbol(version)), middle, value) && Groups(d, program)
    requires |c| == 6 && Read(check, c, middle, last, ignored) && last == if version == 0 then 1 else 0x2bc830a3
    ensures Decode(Text(hrp), Text(hrp + "1" + [x] + text + check)) == Some((version, program))
  {
    hide Polymod, Next, Value, CharOf, Decode, AddressData, LegalHrp, HrpExpand, CreateChecksum, VerifyChecksum, Two,
         LegalProgram, Text, Groups, Symbol, Chars, Read;
    Reads(text, d, Next(start, Symbol(version)), middle, value);
    Reads(check, c, middle, last, ignored);
    var data := [version] + d;
    GroupsAgree(version, program, d);
    GroupCount(program, d);
    WholeSum(Text(hrp), version, d, c, start, middle, last);
    VerifyMeans(Text(hrp), data + c, SpecOf(version));
    ChecksumExactly(Text(hrp), data, c, SpecOf(version));
    AddressRoundTrip(Text(hrp), version, program);
    WholeText(hrp, version, x, text, d, check, c);
    assert Encode(Text(hrp), version, program).value == EncodeString(Text(hrp), data, SpecOf(version));
  }

  lemma GroupCount(program: Bytes, d: seq<Five>)
    requires Groups(d, program)
    ensures |d| == SymbolCount(|program|)
  {
  }

  lemma WholeSum(hrp: Bytes, version: Five, d: seq<Five>, c: seq<Five>, start: Checksum, middle: Checksum,
                 last: Checksum)
    requires Polymod(1, HrpExpand(hrp)) == start && Polymod(Next(start, Symbol(version)), d) == middle
    requires Polymod(middle, c) == last
    ensures Polymod(1, HrpExpand(hrp) + ([version] + d + c)) == last
  {
    hide Polymod, Next, HrpExpand, Symbol;
    NextPolymod(start, version);
    PolymodJoins(1, HrpExpand(hrp), [version] + d + c);
    PolymodJoins(start, [version] + d, c);
    PolymodJoins(start, [version], d);
  }

  lemma WholeText(hrp: string, version: Five, x: char, text: string, d: seq<Five>, check: string, c: seq<Five>)
    requires x as int == CharOf(version) && Text(text) == Chars(d) && Text(check) == Chars(c)
    ensures Text(hrp + "1" + [x] + text + check) == Text(hrp) + [49] + Chars([version] + d + c)
  {
    hide CharOf;
    TextJoins(hrp + "1" + [x] + text, check);
    TextJoins(hrp + "1" + [x], text);
    TextJoins(hrp + "1", [x]);
    TextJoins(hrp, "1");
    assert Text("1") == [49] && Text([x]) == [CharOf(version)];
    assert Chars([version] + d + c) == [CharOf(version)] + Chars(d) + Chars(c);
  }

  // --- the published addresses ---

  // The prefix "bc".
  lemma Prefix()
    ensures LegalHrp(Text("bc")) && Polymod(1, HrpExpand(Text("bc"))) == 0x2318043
  {
    hide Polymod, Next, Symbol;
    assert Text("bc") == [98, 99];
    assert HrpExpand(Text("bc")) == [3, 3, 0, 2, 3];
    SymbolsAre();
    PrefixSteps();
    FiveSteps(1, [3, 3, 0, 2, 3], [0x23, 0x463, 0x8c60, 0x118c02, 0x2318043]);
  }

  lemma PrefixSteps()
    ensures Next(1, 3) == 0x23 && Next(0x23, 3) == 0x463
    ensures Next(0x463, 0) == 0x8c60 && Next(0x8c60, 2) == 0x118c02 && Next(0x118c02, 3) == 0x2318043
  {
  }

  lemma FiveSteps(s: Checksum, e: seq<Five>, t: seq<Checksum>)
    requires |e| == 5 && |t| == 5 && Next(s, Symbol(e[0])) == t[0]
    requires forall i :: 1 <= i < 5 ==> Next(t[i - 1], Symbol(e[i])) == t[i]
    ensures Polymod(s, e) == t[4]
  {
    hide Polymod, Next, Symbol;
    SumIs(s, e);
    assert Sum(s, []) == s;
    assert e[..5] == e && e[..5][..4] == e[..4] && e[..4][..3] == e[..3] && e[..3][..2] == e[..2];
    assert e[..2][..1] == e[..1] && e[..1][..0] == [];
    assert Sum(s, e[..1]) == t[0] && Sum(s, e[..2]) == t[1] && Sum(s, e[..3]) == t[2] && Sum(s, e[..4]) == t[3];
  }

  lemma KeyhashSteps0()
    ensures Next(0x3d5a5fd2, 14) == 0x4ec3cb7 && Next(0x4ec3cb7, 20) == 0x3bd71899
    ensures Next(0x3bd71899, 15) == 0x87e0c09 && Next(0x87e0c09, 7) == 0x116098dd
    ensures Next(0x116098dd, 13) == 0x11512870 && Next(0x11512870, 26) == 0x17673dc7
    ensures Next(0x17673dc7, 0) == 0xc9f52e2 && Next(0xc9f52e2, 25) == 0x2b1bcbce
  {
  }

  lemma KeyhashSteps1()
    ensures Next(0x2b1bcbce, 18) == 0x2ca65529 && Next(0x2ca65529, 6) == 0x62f5002
    ensures Next(0x62f5002, 11) == 0x18d0d994 && Next(0x18d0d994, 13) == 0x39f818aa
    ensures Next(0x39f818aa, 8) == 0x36f45ddc && Next(0x36f45ddc, 21) == 0x14e73324
    ensures Next(0x14e73324, 4) == 0x7f4d934 && Next(0x7f4d934, 20) == 0x23a1ff4b
  {
  }

  lemma KeyhashSteps2()
    ensures Next(0x23a1ff4b, 3) == 0x2541dc62 && Next(0x2541dc62, 17) == 0x247f608f
    ensures Next(0x247f608f, 2) == 0x3a8fd3c && Next(0x3a8fd3c, 29) == 0xe75f02f
    ensures Next(0xe75f02f, 3) == 0xd25c5c6 && Next(0xd25c5c6, 12) == 0x1c492f5b
    ensures Next(0x1c492f5b, 29) == 0xc964f37 && Next(0xc964f37, 3) == 0x2a387174
  {
  }

  lemma KeyhashSteps3()
    ensures Next(0x2a387174, 4) == 0x8d1027f && Next(0x8d1027f, 15) == 0x4815615
    ensures Next(0x4815615, 24) == 0x367a4cd5 && Next(0x367a4cd5, 20) == 0x5251205
    ensures Next(0x5251205, 6) == 0x2f2cecb && Next(0x2f2cecb, 14) == 0x25338edc
    ensures Next(0x25338edc, 30) == 0x2a353740 && Next(0x2a353740, 22) == 0x979c4ed
  {
  }

  lemma KeyhashSum()
    ensures Next(0x2318043, 0) == 0x3d5a5fd2
    ensures Next(0x979c4ed, 12) == 0x31998456 && Next(0x31998456, 7) == 0x2466dba9
    ensures Next(0x2466dba9, 9) == 0x9f99f7 && Next(0x9f99f7, 17) == 0x13f33ef1
    ensures Next(0x13f33ef1, 11) == 0x384fba44 && Next(0x384fba44, 21) == 0x1
  {
  }

  lemma KeyhashText() returns (text: string, d: seq<Five>)
    ensures text == "w508" + "d6qe" + "jxtd" + "g4y5" + "r3za" + "rvar" + "y0c5" + "xw7k"
    ensures |d| == 32 && Read(text, d, 0x3d5a5fd2, 0x979c4ed, 668631300771580858519448973337422070966705667030)
  {
    hide Read, Next, Symbol, Number4;
    SymbolsAre();
    KeyhashSteps0();
    KeyhashSteps1();
    KeyhashSteps2();
    KeyhashSteps3();
    KeyhashNumbers();
    KeyhashSpelling();
    text, d := "", [];
    ReadNothing(0x3d5a5fd2);
    Read4(text, d, 0x3d5a5fd2, 0x3d5a5fd2, 0, "w508", [14, 20, 15, 7],
          [0x4ec3cb7, 0x3bd71899, 0x87e0c09, 0x116098dd]);
    text, d := text + "w508", d + [14, 20, 15, 7];
    Read4(text, d, 0x3d5a5fd2, 0x116098dd, 479719, "d6qe", [13, 26, 0, 25],
          [0x11512870, 0x17673dc7, 0xc9f52e2, 0x2b1bcbce]);
    text, d := text + "d6qe", d + [13, 26, 0, 25];
    Read4(text, d, 0x3d5a5fd2, 0x2b1bcbce, 503022282777, "jxtd", [18, 6, 11, 13],
          [0x2ca65529, 0x62f5002, 0x18d0d994, 0x39f818aa]);
    text, d := text + "jxtd", d + [18, 6, 11, 13];
    Read4(text, d, 0x3d5a5fd2, 0x39f818aa, 527457093185771885, "g4y5", [8, 21, 4, 20],
          [0x36f45ddc, 0x14e73324, 0x7f4d934, 0x23a1ff4b]);
    text, d := text + "g4y5", d + [8, 21, 4, 20];
    Read4(text, d, 0x3d5a5fd2, 0x23a1ff4b, 553078848944363940369556, "r3za", [3, 17, 2, 29],
          [0x2541dc62, 0x247f608f, 0x3a8fd3c, 0xe75f02f]);
    text, d := text + "r3za", d + [3, 17, 2, 29];
    Read4(text, d, 0x3d5a5fd2, 0xe75f02f, 579945207110685363136947668061, "rvar", [3, 12, 29, 3],
          [0xd25c5c6, 0x1c492f5b, 0xc964f37, 0x2a387174]);
    text, d := text + "rvar", d + [3, 12, 29, 3];
    Read4(text, d, 0x3d5a5fd2, 0x2a387174, 608116625491294015336688037984842659, "y0c5", [4, 15, 24, 20],
          [0x8d1027f, 0x4815615, 0x367a4cd5, 0x5251205]);
    text, d := text + "y0c5", d + [4, 15, 24, 20];
    Read4(text, d, 0x3d5a5fd2, 0x5251205, 637656498691159113425682996117994376150804, "xw7k", [6, 14, 30, 22],
          [0x2f2cecb, 0x25338edc, 0x2a353740, 0x979c4ed]);
    text, d := text + "xw7k", d + [6, 14, 30, 22];
  }

  lemma KeyhashNumbers()
    ensures Number4(0, 14, 20, 15, 7, 32) == 479719
    ensures Number4(479719, 13, 26, 0, 25, 32) == 503022282777
    ensures Number4(503022282777, 18, 6, 11, 13, 32) == 527457093185771885
    ensures Number4(527457093185771885, 8, 21, 4, 20, 32) == 553078848944363940369556
    ensures Number4(553078848944363940369556, 3, 17, 2, 29, 32) == 579945207110685363136947668061
    ensures Number4(579945207110685363136947668061, 3, 12, 29, 3, 32) == 608116625491294015336688037984842659
    ensures Number4(608116625491294015336688037984842659, 4, 15, 24, 20, 32)
            == 637656498691159113425682996117994376150804
    ensures Number4(637656498691159113425682996117994376150804, 6, 14, 30, 22, 32)
            == 668631300771580858519448973337422070966705667030
  {
  }

  lemma KeyhashSpelling()
    ensures Spelt4("w508", 14, 20, 15, 7)
    ensures Spelt4("d6qe", 13, 26, 0, 25)
    ensures Spelt4("jxtd", 18, 6, 11, 13)
    ensures Spelt4("g4y5", 8, 21, 4, 20)
    ensures Spelt4("r3za", 3, 17, 2, 29)
    ensures Spelt4("rvar", 3, 12, 29, 3)
    ensures Spelt4("y0c5", 4, 15, 24, 20)
    ensures Spelt4("xw7k", 6, 14, 30, 22)
    ensures Spelt4("v8f3", 12, 7, 9, 17)
    ensures CharOf(0) == 113 && CharOf(11) == 116 && CharOf(21) == 52
  {
    hide Spelt4, CharOf;
    KeyhashSpelling0();
    KeyhashSpelling1();
    KeyhashSpelling2();
    KeyhashSpelling3();
  }

  lemma KeyhashSpelling0()
    ensures Spelt4("w508", 14, 20, 15, 7)
    ensures Spelt4("d6qe", 13, 26, 0, 25)
    ensures Spelt4("jxtd", 18, 6, 11, 13)
  {
  }

  lemma KeyhashSpelling1()
    ensures Spelt4("g4y5", 8, 21, 4, 20)
    ensures Spelt4("r3za", 3, 17, 2, 29)
    ensures Spelt4("rvar", 3, 12, 29, 3)
  {
  }

  lemma KeyhashSpelling2()
    ensures Spelt4("y0c5", 4, 15, 24, 20)
    ensures Spelt4("xw7k", 6, 14, 30, 22)
  {
  }

  lemma KeyhashSpelling3()
    ensures Spelt4("v8f3", 12, 7, 9, 17)
    ensures CharOf(0) == 113 && CharOf(11) == 116 && CharOf(21) == 52
  {
  }

  lemma KeyhashCheck() returns (c: seq<Five>, ignored: nat)
    ensures |c| == 6 && Read("v8f3t4", c, 0x979c4ed, 0x1, ignored)
  {
    hide Read, Next, Symbol, CharOf;
    SymbolsAre();
    KeyhashSum();
    KeyhashSpelling();
    c := [12, 7, 9, 17, 11, 21];
    ignored := ReadSix("v8f3t4", c, 0x979c4ed, [0x31998456, 0x2466dba9, 0x9f99f7, 0x13f33ef1, 0x384fba44, 0x1]);
  }

  lemma KeyhashBytes(d: seq<Five>, program: Bytes)
    requires |d| == 32 && Value(d, 32) == 668631300771580858519448973337422070966705667030
    requires program == [117, 30, 118, 232] + [25, 145, 150, 212] + [84, 148, 28, 69] + [209, 179, 163, 35]
                        + [241, 67, 59, 214]
    ensures Groups(d, program)
  {
    hide Value;
    var b: Bytes := [];
    NoBytes();
    Bytes4(b, 0, [117, 30, 118, 232]);
    assert Number4(0, 117, 30, 118, 232, 256) == 1964930792;
    b := b + [117, 30, 118, 232];
    Bytes4(b, 1964930792, [25, 145, 150, 212]);
    assert Number4(1964930792, 25, 145, 150, 212, 256) == 8439313490972350164;
    b := b + [25, 145, 150, 212];
    Bytes4(b, 8439313490972350164, [84, 148, 28, 69]);
    assert Number4(8439313490972350164, 84, 148, 28, 69, 256) == 36246575444417835196059229253;
    b := b + [84, 148, 28, 69];
    Bytes4(b, 36246575444417835196059229253, [209, 179, 163, 35]);
    assert Number4(36246575444417835196059229253, 209, 179, 163, 35, 256) == 155677856125771267926192137724119720739;
    b := b + [209, 179, 163, 35];
    Bytes4(b, 155677856125771267926192137724119720739, [241, 67, 59, 214]);
    assert Number4(155677856125771267926192137724119720739, 241, 67, 59, 214, 256)
           == 668631300771580858519448973337422070966705667030;
    b := b + [241, 67, 59, 214];
    assert b == program;
    Paddings();
  }

  /** BIP 173: version 0 on the main network, of a key's hash. */
  lemma Keyhash()
    ensures Decode(Text("bc"), Text("bc1qw508d6qejxtdg4y5r3zarvary0c5xw7kv8f3t4"))
            == Some((0, [117, 30, 118, 232] + [25, 145, 150, 212] + [84, 148, 28, 69]
                     + [209, 179, 163, 35] + [241, 67, 59, 214]))
  {
    hide Decode, LegalHrp, Polymod, Next, Read, Groups, HrpExpand, Text, CharOf, Value, Two, Symbol;
    Prefix();
    SymbolsAre();
    KeyhashSum();
    KeyhashSpelling();
    var text, d := KeyhashText();
    var c, ignored := KeyhashCheck();
    var program: Bytes := [117, 30, 118, 232] + [25, 145, 150, 212] + [84, 148, 28, 69] + [209, 179, 163, 35]
                           + [241, 67, 59, 214];
    Reads(text, d, 0x3d5a5fd2, 0x979c4ed, 668631300771580858519448973337422070966705667030);
    KeyhashBytes(d, program);
    Decodes("bc", 0, 'q', text, d, "v8f3t4", c, 0x2318043, 0x979c4ed, 0x1,
            668631300771580858519448973337422070966705667030, ignored, program);
    KeyhashWhole();
  }

  lemma KeyhashWhole()
    ensures "bc1qw508d6qejxtdg4y5r3zarvary0c5xw7kv8f3t4" ==
            "bc" + "1" + "q" + ("w508" + "d6qe" + "jxtd" + "g4y5" + "r3za" + "rvar" + "y0c5" + "xw7k")
            + "v8f3t4"
  {
  }

  lemma ShortestSteps0()
    ensures Next(0x3d5a5fc2, 14) == 0x4ec3eb7 && Next(0x4ec3eb7, 20) == 0x3bd75899
    ensures Next(0x3bd75899, 15) == 0x8760c09 && Next(0x8760c09, 0) == 0x106098da
  {
  }

  lemma ShortestSum()
    ensures Next(0x2318043, 16) == 0x3d5a5fc2
    ensures Next(0x106098da, 8) == 0x31512895 && Next(0x31512895, 13) == 0x3d7343c3
    ensures Next(0x3d7343c3, 2) == 0x1cfbe9b && Next(0x1cfbe9b, 10) == 0x39f7d36a
    ensures Next(0x39f7d36a, 20) == 0x370d25c0 && Next(0x370d25c0, 18) == 0x2bc830a3
  {
  }

  lemma ShortestText() returns (text: string, d: seq<Five>)
    ensures text == "w50q"
    ensures |d| == 4 && Read(text, d, 0x3d5a5fc2, 0x106098da, 479712)
  {
    hide Read, Next, Symbol, Number4;
    SymbolsAre();
    ShortestSteps0();
    ShortestNumbers();
    ShortestSpelling();
    text, d := "", [];
    ReadNothing(0x3d5a5fc2);
    Read4(text, d, 0x3d5a5fc2, 0x3d5a5fc2, 0, "w50q", [14, 20, 15, 0],
          [0x4ec3eb7, 0x3bd75899, 0x8760c09, 0x106098da]);
    text, d := text + "w50q", d + [14, 20, 15, 0];
  }

  lemma ShortestNumbers()
    ensures Number4(0, 14, 20, 15, 0, 32) == 479712
  {
  }

  lemma ShortestSpelling()
    ensures Spelt4("w50q", 14, 20, 15, 0)
    ensures Spelt4("gdz2", 8, 13, 2, 10)
    ensures CharOf(16) == 115 && CharOf(20) == 53 && CharOf(18) == 106
  {
  }

  lemma ShortestCheck() returns (c: seq<Five>, ignored: nat)
    ensures |c| == 6 && Read("gdz25j", c, 0x106098da, 0x2bc830a3, ignored)
  {
    hide Read, Next, Symbol, CharOf;
    SymbolsAre();
    ShortestSum();
    ShortestSpelling();
    c := [8, 13, 2, 10, 20, 18];
    ignored := ReadSix("gdz25j", c, 0x106098da,
                       [0x31512895, 0x3d7343c3, 0x1cfbe9b, 0x39f7d36a, 0x370d25c0, 0x2bc830a3]);
  }

  lemma ShortestBytes(d: seq<Five>, program: Bytes)
    requires |d| == 4 && Value(d, 32) == 479712
    requires program == [117, 30]
    ensures Groups(d, program)
  {
    hide Value;
    var b: Bytes := [];
    NoBytes();
    ValueMore(b, 117, 256);
    b := b + [117];
    ValueMore(b, 30, 256);
    b := b + [30];
    assert b == program;
    Paddings();
  }

  /** BIP 350: version 16 with two bytes, in upper case. */
  lemma Shortest()
    ensures Decode(Text("bc"), Text("BC1SW50QGDZ25J"))
            == Some((16, [117, 30]))
  {
    hide Decode, LegalHrp, Polymod, Next, Read, Groups, HrpExpand, Text, CharOf, Value, Two, Symbol;
    Prefix();
    SymbolsAre();
    ShortestSum();
    ShortestSpelling();
    var text, d := ShortestText();
    var c, ignored := ShortestCheck();
    var program: Bytes := [117, 30];
    Reads(text, d, 0x3d5a5fc2, 0x106098da, 479712);
    ShortestBytes(d, program);
    Decodes("bc", 16, 's', text, d, "gdz25j", c, 0x2318043, 0x106098da, 0x2bc830a3, 479712, ignored, program);
    assert "bc1sw50qgdz25j" == "bc" + "1" + "s" + text + "gdz25j";
    UpperTwin("BC1SW50QGDZ25J", "bc1sw50qgdz25j", Text("bc"));
  }

  lemma ReadSix(s: string, v: seq<Five>, from: Checksum, t: seq<Checksum>) returns (n: nat)
    requires |s| == 6 == |v| == |t| && Spelt4(s[..4], v[0], v[1], v[2], v[3]) && Steps4(from, v[..4], t[..4])
    requires s[4] as int == CharOf(v[4]) && s[5] as int == CharOf(v[5])
    requires Next(t[3], Symbol(v[4])) == t[4] && Next(t[4], Symbol(v[5])) == t[5]
    ensures Read(s, v, from, t[5], n)
  {
    hide Read, Next, CharOf, Symbol;
    ReadNothing(from);
    n := Number4(0, v[0], v[1], v[2], v[3], 32);
    Read4("", [], from, from, 0, s[..4], v[..4], t[..4]);
    ReadOne("" + s[..4], [] + v[..4], from, t[3], n, s[4], v[4]);
    ReadOne("" + s[..4] + [s[4]], [] + v[..4] + [v[4]], from, t[4], n * 32 + v[4], s[5], v[5]);
    assert s == "" + s[..4] + [s[4]] + [s[5]] && v == [] + v[..4] + [v[4]] + [v[5]];
    n := (n * 32 + v[4]) * 32 + v[5];
  }

  lemma NoBytes()
    ensures Value([], 256) == 0
  {
  }

  lemma Paddings()
    ensures Two(0) == 1 && Two(4) == 16
  {
    Widths();
    assert Pow(2, 1) == 2 && Pow(2, 2) == 4 && Pow(2, 3) == 8 && Pow(2, 4) == 16;
  }

  // An address in upper case decodes as in lower case.
  lemma UpperTwin(s: string, l: string, hrp: Bytes)
    requires |s| == |l| && forall i :: 0 <= i < |s| ==> 33 <= s[i] as int <= 126 && !(97 <= s[i] as int <= 122)
    requires forall i :: 0 <= i < |s| ==> l[i] as int == LowerChar(s[i] as int)
    ensures Decode(hrp, Text(s)) == Decode(hrp, Text(l))
  {
    hide DecodeLower, Text, Lower, Upper, Printable;
    UpperLower(s, l);
  }

  lemma UpperLower(s: string, l: string)
    requires |s| == |l| && forall i :: 0 <= i < |s| ==> 33 <= s[i] as int <= 126 && !(97 <= s[i] as int <= 122)
    requires forall i :: 0 <= i < |s| ==> l[i] as int == LowerChar(s[i] as int)
    ensures Lower(Text(s)) == Text(l) && Upper(Text(s)) == Text(s) && Lower(Text(l)) == Text(l)
    ensures Printable(Text(s)) && Printable(Text(l))
  {
  }
}
