/** Bech32 strings and segwit addresses (test/python/apps/bitcoin_client/ledger_bitcoin/segwit_addr.py,
    "Bech32" and "Segwit address format" of BIP 173, BIP 350). */
module Segwit {
  import opened Common
  import opened Bech32
  import opened ConvertBits

  // --- characters ---

  function LowerChar(c: byte): byte { if 65 <= c <= 90 then c + 32 else c }
  function UpperChar(c: byte): byte { if 97 <= c <= 122 then c - 32 else c }

  function Lower(b: Bytes): (r: Bytes)
    ensures |r| == |b|
  {
    seq(|b|, i requires 0 <= i < |b| => LowerChar(b[i]))
  }

  function Upper(b: Bytes): (r: Bytes)
    ensures |r| == |b|
  {
    seq(|b|, i requires 0 <= i < |b| => UpperChar(b[i]))
  }

  predicate Printable(b: Bytes) { forall i :: 0 <= i < |b| ==> 33 <= b[i] <= 126 }

  // str.rfind('1')
  function LastOne(b: Bytes): (p: Option<nat>)
    ensures match p
            case None => 49 !in b
            case Some(k) => k < |b| && b[k] == 49 && 49 !in b[k + 1..]
  {
    if b == [] then None
    else if b[|b| - 1] == 49 then Some(|b| - 1)
    else
      assert b == b[..|b| - 1] + [b[|b| - 1]];
      var p := LastOne(b[..|b| - 1]);
      assert p.Some? ==> b[p.value + 1..] == b[..|b| - 1][p.value + 1..] + [b[|b| - 1]];
      p
  }

  function Chars(d: seq<Five>): (s: Bytes)
    ensures |s| == |d|
  {
    seq(|d|, i requires 0 <= i < |d| => CharOf(d[i]))
  }

  function Symbols(s: Bytes): (d: Option<seq<Five>>)
    ensures d.Some? ==> |d.value| == |s|
  {
    if s == [] then Some([])
    else match (Symbols(s[..|s| - 1]), Find(s[|s| - 1]))
         case (Some(d), Some(v)) => Some(d + [v])
         case _ => None
  }

  // The characters are printable, not upper case, and not '1'.
  lemma CharsArePlain(v: Five)
    ensures 33 <= CharOf(v) <= 126 && !(65 <= CharOf(v) <= 90) && CharOf(v) != 49
  {
  }

  lemma {:induction false} SymbolsOfChars(d: seq<Five>)
    ensures Symbols(Chars(d)) == Some(d)
  {
    hide CharOf, Find;
    if d != [] {
      var n := |d| - 1;
      SymbolsOfChars(d[..n]);
      FindsChar(d[n]);
      assert Chars(d)[..n] == Chars(d[..n]);
      assert d == d[..n] + [d[n]];
    }
  }

  lemma {:induction false} CharsOfSymbols(s: Bytes)
    requires Symbols(s).Some?
    ensures Chars(Symbols(s).value) == s
  {
    hide CharOf, Find;
    if s != [] {
      var n := |s| - 1;
      CharsOfSymbols(s[..n]);
      var d, v := Symbols(s[..n]).value, Find(s[n]).value;
      assert Chars(d + [v]) == Chars(d) + [CharOf(v)];
      assert s == s[..n] + [s[n]];
    }
  }

  // --- Bech32 strings ---

  function EncodeString(hrp: Bytes, data: seq<Five>, spec: Encoding): Bytes {
    hrp + [49] + Chars(data + CreateChecksum(hrp, data, spec))
  }

  function DecodeString(bech: Bytes): Option<(Bytes, seq<Five>, Encoding)> {
    if !Printable(bech) || (Lower(bech) != bech && Upper(bech) != bech) then None
    else DecodeLower(Lower(bech))
  }

  function DecodeLower(s: Bytes): Option<(Bytes, seq<Five>, Encoding)> {
    match LastOne(s)
    case None => None
    case Some(pos) =>
      if pos < 1 || pos + 7 > |s| || |s| > 90 then None
      else match Symbols(s[pos + 1..])
           case None => None
           case Some(data) =>
             match VerifyChecksum(s[..pos], data)
             case None => None
             case Some(spec) => Some((s[..pos], data[..|data| - 6], spec))
  }

  /** A human-readable part that is not empty, printable and without upper-case letters. */
  ghost predicate LegalHrp(hrp: Bytes) { hrp != [] && Plain(hrp) }

  predicate PlainChar(c: byte) { 33 <= c <= 126 && !(65 <= c <= 90) }

  ghost predicate Plain(b: Bytes) { forall i :: 0 <= i < |b| ==> PlainChar(b[i]) }

  lemma PlainIs(b: Bytes)
    ensures Plain(b) <==> Printable(b) && Lower(b) == b
  {
    assert forall i :: 0 <= i < |b| ==> (Lower(b)[i] == b[i] <==> !(65 <= b[i] <= 90));
  }

  lemma CharsPlain(d: seq<Five>)
    ensures Plain(Chars(d)) && 49 !in Chars(d)
  {
    forall i | 0 <= i < |d|
      ensures PlainChar(Chars(d)[i]) && Chars(d)[i] != 49
    {
      CharsArePlain(d[i]);
    }
    hide CharOf;
  }

  lemma PlainJoins(a: Bytes, c: Bytes)
    requires Plain(c)
    ensures Plain(a + [49] + c) <==> Plain(a)
  {
    hide PlainChar;
    var s := a + [49] + c;
    assert PlainChar(49) by { SeparatorPlain(); }
    assert forall i :: 0 <= i < |a| ==> s[i] == a[i];
    assert forall i :: |a| < i < |s| ==> s[i] == c[i - |a| - 1];
  }

  lemma SeparatorPlain()
    ensures PlainChar(49)
  {
  }

  lemma EncodedPlain(hrp: Bytes, d: seq<Five>)
    ensures var s := hrp + [49] + Chars(d);
            (Plain(s) <==> Plain(hrp)) && LastOne(s) == Some(|hrp|) && s[..|hrp|] == hrp && s[|hrp| + 1..] == Chars(d)
  {
    CharsPlain(d);
    var c := Chars(d);
    hide Chars, Plain, LastOne;
    PlainJoins(hrp, c);
    var s := hrp + [49] + c;
    assert forall i :: |hrp| < i < |s| ==> s[i] == c[i - |hrp| - 1];
    assert s[|hrp|] == 49;
    LastIs(s, |hrp|);
  }

  lemma LastIs(s: Bytes, k: nat)
    requires k < |s| && s[k] == 49 && forall i :: k < i < |s| ==> s[i] != 49
    ensures LastOne(s) == Some(k)
  {
  }

  /** Whatever the data, an encoded string decodes exactly when the human-readable part is legal and the
      string is not too long, and then to what was encoded. */
  lemma StringRoundTrip(hrp: Bytes, data: seq<Five>, spec: Encoding)
    ensures var s := EncodeString(hrp, data, spec);
            if LegalHrp(hrp) && |hrp| + |data| + 7 <= 90 then DecodeString(s) == Some((hrp, data, spec))
            else match DecodeString(s) case None => true case Some((got, _, _)) => got != hrp
  {
    hide EncodeString, DecodeString, LegalHrp;
    var s := EncodeString(hrp, data, spec);
    if LegalHrp(hrp) && |hrp| + |data| + 7 <= 90 {
      StringDecodes(hrp, data, spec);
    } else if DecodeString(s).Some? {
      DecodedHrp(s);
      EncodedLength(hrp, data, spec);
    }
  }

  lemma EncodedLength(hrp: Bytes, data: seq<Five>, spec: Encoding)
    ensures |EncodeString(hrp, data, spec)| == |hrp| + |data| + 7
  {
    hide CreateChecksum;
  }

  lemma StringDecodes(hrp: Bytes, data: seq<Five>, spec: Encoding)
    requires LegalHrp(hrp) && |hrp| + |data| + 7 <= 90
    ensures DecodeString(EncodeString(hrp, data, spec)) == Some((hrp, data, spec))
  {
    var c := CreateChecksum(hrp, data, spec);
    hide VerifyChecksum, CreateChecksum, Symbols, Chars, LastOne, Lower, Upper, Printable, Plain;
    ChecksumExactly(hrp, data, c, spec);
    var d := data + c;
    EncodedPlain(hrp, d);
    SymbolsOfChars(d);
    var s := hrp + [49] + Chars(d);
    PlainIs(s);
    assert d[..|d| - 6] == data;
  }

  // What a decoded string says of its human-readable part.
  lemma DecodedHrp(s: Bytes)
    requires DecodeString(s).Some?
    ensures LegalHrp(DecodeString(s).value.0) && |s| <= 90
  {
    var l := Lower(s);
    var hrp := DecodeString(s).value.0;
    hide VerifyChecksum, Symbols, LastOne;
    assert hrp <= l;
    assert forall i :: 0 <= i < |s| ==> PlainChar(l[i]);
  }

  // What went into a decoded string.
  lemma DecodedParts(l: Bytes) returns (pos: nat, d: seq<Five>, spec: Encoding)
    requires DecodeLower(l).Some?
    ensures 1 <= pos && pos + 7 <= |l| && l[pos] == 49 && Symbols(l[pos + 1..]) == Some(d) && |d| == |l| - pos - 1
    ensures VerifyChecksum(l[..pos], d) == Some(spec) && DecodeLower(l) == Some((l[..pos], d[..|d| - 6], spec))
  {
    hide VerifyChecksum, Symbols;
    pos := LastOne(l).value;
    d := Symbols(l[pos + 1..]).value;
    spec := VerifyChecksum(l[..pos], d).value;
  }

  lemma LowerDecodes(l: Bytes)
    requires DecodeLower(l).Some?
    ensures var (hrp, data, spec) := DecodeLower(l).value; l == EncodeString(hrp, data, spec)
  {
    hide VerifyChecksum, CreateChecksum, Symbols, Chars, LastOne, DecodeLower;
    var pos, d, spec := DecodedParts(l);
    CharsOfSymbols(l[pos + 1..]);
    var hrp, data, c := l[..pos], d[..|d| - 6], d[|d| - 6..];
    assert data + c == d;
    ChecksumExactly(hrp, data, c, spec);
    assert hrp + [49] + l[pos + 1..] == l;
  }

  /** What decodes is, in lower case, the encoding of what it decodes to. */
  lemma OnlyEncodingsDecode(s: Bytes)
    requires DecodeString(s).Some?
    ensures var (hrp, data, spec) := DecodeString(s).value;
            LegalHrp(hrp) && |hrp| + |data| + 7 <= 90 && Lower(s) == EncodeString(hrp, data, spec)
  {
    hide DecodeLower, LegalHrp, EncodeString, Lower, Upper, Printable;
    DecodedHrp(s);
    LowerDecodes(Lower(s));
    var (hrp, data, spec) := DecodeString(s).value;
    EncodedLength(hrp, data, spec);
  }

  // --- addresses ---

  // Program lengths: 2 to 40 bytes, and 20 or 32 for version 0.
  predicate LegalProgram(version: nat, program: seq<nat>) {
    2 <= |program| <= 40 && (version == 0 ==> |program| == 20 || |program| == 32)
  }

  function SpecOf(version: nat): Encoding { if version == 0 then BECH32 else BECH32M }

  function Decode(hrp: Bytes, address: Bytes): Option<(nat, seq<nat>)> {
    match DecodeString(address)
    case None => None
    case Some((got, data, spec)) => if got != hrp then None else DecodeData(data, spec)
  }

  function DecodeData(data: seq<Five>, spec: Encoding): Option<(nat, seq<nat>)> {
    if data == [] then None
    else match Converted(data[1..], 5, 8, false)
         case None => None
         case Some(program) =>
           if |program| < 2 || |program| > 40 || data[0] > 16 then None
           else if data[0] == 0 && |program| != 20 && |program| != 32 then None
           else if spec != SpecOf(data[0]) then None
           else Some((data[0], program))
  }

  // The symbols of an address: its version, and the program in groups of five bits.
  function AddressData(version: Five, program: Bytes): seq<Five> {
    Widths();
    AllBytes(program);
    PaddedSpells(program, 8, 5);
    [version] + FiveBits(Converted(program, 8, 5, true).value)
  }

  // Numbers below 32, as symbols.
  function FiveBits(d: seq<nat>): seq<Five>
    requires Digits(d, 32)
  {
    d
  }

  lemma Widths()
    ensures Two(5) == 32 && Two(8) == 256
  {
    assert Pow(2, 0) == 1;
    assert Pow(2, 1) == 2;
    assert Pow(2, 2) == 4;
    assert Pow(2, 3) == 8;
    assert Pow(2, 4) == 16;
    assert Pow(2, 5) == 32;
    assert Pow(2, 6) == 64;
    assert Pow(2, 7) == 128;
  }

  lemma AllBytes(b: Bytes)
    ensures Digits(b, 256)
  {
  }

  lemma AllFives(d: seq<Five>)
    ensures Digits(d, 32)
  {
  }

  /** encode: checked by decoding. */
  function Encode(hrp: Bytes, version: Five, program: Bytes): Option<Bytes> {
    var address := EncodeString(hrp, AddressData(version, program), SpecOf(version));
    if Decode(hrp, address) == None then None else Some(address)
  }

  function SymbolCount(bytes: nat): nat { (8 * bytes + 4) / 5 }

  lemma AddressSymbols(version: Five, program: Bytes)
    ensures |AddressData(version, program)| == 1 + SymbolCount(|program|)
    ensures Converted(AddressData(version, program)[1..], 5, 8, false) == Some(program)
  {
    Widths();
    AllBytes(program);
    ThereAndBack(program, 8, 5);
    PaddedSpells(program, 8, 5);
    hide Converted, Two, Value;
    var out := Converted(program, 8, 5, true).value;
    assert AddressData(version, program)[1..] == out;
  }

  /** Segwit addresses: encode gives an address exactly for a legal human-readable part, a version up to
      16, a legal program, and a total length of at most 90; and decode gives back version and program. */
  lemma AddressRoundTrip(hrp: Bytes, version: Five, program: Bytes)
    ensures Encode(hrp, version, program).Some? <==>
            LegalHrp(hrp) && version <= 16 && LegalProgram(version, program) && |hrp| + SymbolCount(|program|) + 8 <= 90
    ensures Encode(hrp, version, program).Some? ==>
            Decode(hrp, Encode(hrp, version, program).value) == Some((version, program))
  {
    hide AddressData, EncodeString, DecodeString, Converted, LegalHrp, DecodeData, LegalProgram;
    var data := AddressData(version, program);
    AddressSymbols(version, program);
    AddressVersion(version, program);
    StringRoundTrip(hrp, data, SpecOf(version));
    DataDecodes(version, program, data);
  }

  lemma AddressVersion(version: Five, program: Bytes)
    ensures AddressData(version, program) != [] && AddressData(version, program)[0] == version
  {
    hide Converted;
  }

  lemma DataDecodes(version: Five, program: Bytes, data: seq<Five>)
    requires data != [] && data[0] == version && Converted(data[1..], 5, 8, false) == Some(program)
    ensures DecodeData(data, SpecOf(version)) ==
            if version <= 16 && LegalProgram(version, program) then Some((version, program)) else None
  {
    hide Converted;
  }

  /** Addresses are unique up to case: what decode accepts is, in lower case, what encode gives for it. */
  lemma OnlyEncodingsAreAddresses(hrp: Bytes, address: Bytes)
    requires Decode(hrp, address).Some?
    ensures var (version, program) := Decode(hrp, address).value;
            && version < 32 && Digits(program, 256)
            && Encode(hrp, version, AsBytes(program)) == Some(Lower(address))
  {
    hide DecodeString, EncodeString, LegalHrp, Lower, Converted, Two, AddressData, LegalProgram;
    var (got, data, spec) := DecodeString(address).value;
    OnlyEncodingsDecode(address);
    var (version, program) := Decode(hrp, address).value;
    DataRegroups(data, program);
    var b := AsBytes(program);
    AddressRoundTrip(hrp, version, b);
    AddressSymbols(version, b);
    LegalData(data, spec);
  }

  lemma LegalData(data: seq<Five>, spec: Encoding)
    requires DecodeData(data, spec).Some?
    ensures var (version, program) := DecodeData(data, spec).value;
            version == data[0] <= 16 && LegalProgram(version, program) && spec == SpecOf(version)
  {
    hide Converted;
  }

  lemma DataRegroups(data: seq<Five>, program: seq<nat>)
    requires data != [] && Converted(data[1..], 5, 8, false) == Some(program)
    ensures Digits(program, 256) && AddressData(data[0], AsBytes(program)) == data
  {
    Widths();
    AllFives(data[1..]);
    BackAndThere(data[1..], 8, 5);
    hide Converted, Two;
    assert [data[0]] + data[1..] == data;
  }

  function AsBytes(d: seq<nat>): (b: Bytes)
    requires Digits(d, 256)
    ensures b == d
  {
    d
  }
}
