/** Printing of a fiat amount (src/printable_amount.c). */
module Decimal {
  import opened Common

  // C division and remainder round towards zero.
  function TruncDiv(a: int): int { if a < 0 then -(-a / 10) else a / 10 }
  function TruncMod(a: int): int { if a < 0 then -(-a % 10) else a % 10 }

  function Digit(d: nat): char
    requires d < 10
  {
    '0' + d as char
  }

  // The decimal digits of n, none for zero.
  function DigitsOf(n: nat): string {
    if n == 0 then "" else DigitsOf(n / 10) + [Digit(n % 10)]
  }

  function Reverse(s: string): (r: string)
    ensures |r| == |s| && forall i :: 0 <= i < |s| ==> r[i] == s[|s| - 1 - i]
  {
    seq(|s|, i requires 0 <= i < |s| => s[|s| - 1 - i])
  }

  /** The canonical decimal text of an integer. */
  function Text(n: int): string {
    if n == 0 then "0" else if n < 0 then "-" + DigitsOf(-n) else DigitsOf(n)
  }

  /** The number a digit string spells. */
  function ValueOf(s: string): int {
    if s == "" then 0 else ValueOf(s[..|s| - 1]) * 10 + (s[|s| - 1] as int - '0' as int)
  }

  predicate IsDigit(c: char) { '0' <= c <= '9' }
  predicate AllDigits(s: string) { forall i :: 0 <= i < |s| ==> IsDigit(s[i]) }

  // Canonical: digits only, no leading zero, and the value it was made from.
  lemma {:induction false} DigitsSpell(n: nat)
    ensures AllDigits(DigitsOf(n)) && ValueOf(DigitsOf(n)) == n
    ensures n > 0 ==> DigitsOf(n) != "" && DigitsOf(n)[0] != '0'
  {
    if n > 0 {
      DigitsSpell(n / 10);
      assert DigitsOf(n)[..|DigitsOf(n)| - 1] == DigitsOf(n / 10);
    }
  }

  lemma {:induction false} DigitsCount(n: nat, k: nat)
    requires n < Pow(10, k)
    ensures |DigitsOf(n)| <= k
  {
    if n > 0 {
      assert k > 0;
      assert Pow(10, k) == 10 * Pow(10, k - 1);
      DigitsCount(n / 10, k - 1);
    }
  }

  lemma Nineteen()
    ensures TWO_63 < Pow(10, 19)
  {
    assert Pow(10, 5) == 100_000;
    PowAdd(10, 5, 5);
    PowAdd(10, 10, 9);
    PowAdd(10, 5, 4);
    assert Pow(10, 4) == 10_000;
  }

  /** int64_to_str: the canonical text and a NUL, or a refusal exactly when they do not fit. */
  method Int64ToStr(data: array<char>, size: int, number: int) returns (ok: bool)
    requires -TWO_63 <= number < TWO_63 && size <= data.Length
    modifies data
    ensures ok <==> |Text(number)| + 1 <= size
    ensures !ok ==> data[..] == old(data[..])
    ensures ok ==> forall i :: 0 <= i < data.Length ==>
      data[i] == if i < |Text(number)| then Text(number)[i]
                 else if i == |Text(number)| then NUL else old(data[i])
  {
    hide Text, Reverse;
    var temp := Backwards(number);
    var used := |temp|;
    var distance := used + 1;
    if size < distance {
      return false;
    }
    ghost var text := Text(number);
    assert |text| == used && forall i :: 0 <= i < used ==> text[i] == temp[used - 1 - i];
    var index := 0;
    while index < used
      invariant 0 <= index <= used
      invariant forall i :: 0 <= i < index ==> data[i] == text[i]
      invariant forall i :: index <= i < data.Length ==> data[i] == old(data[i])
    {
      data[index] := temp[used - 1 - index];
      index := index + 1;
    }
    data[index] := NUL;
    ok := true;
  }

  const NUL: char := 0 as char

  lemma ReverseTwice(s: string)
    ensures Reverse(Reverse(s)) == s
  {
  }

  lemma ReverseSnoc(s: string, c: char)
    ensures Reverse(s + [c]) == [c] + Reverse(s)
  {
  }

  function Abs(n: int): nat { if n < 0 then -n else n }

  lemma TruncSteps(num: int)
    requires num != 0
    ensures Abs(TruncMod(num)) == Abs(num) % 10 && Abs(TruncDiv(num)) == Abs(num) / 10
    ensures num > 0 ==> TruncMod(num) >= 0 && TruncDiv(num) >= 0
    ensures num < 0 ==> TruncMod(num) <= 0 && TruncDiv(num) <= 0
    ensures DigitsOf(Abs(num)) == DigitsOf(Abs(TruncDiv(num))) + [Digit(Abs(num) % 10)]
  {
  }

  // The first half of int64_to_str: least significant digit first into the 21-character buffer.
  method Backwards(number: int) returns (written: string)
    requires -TWO_63 <= number < TWO_63
    ensures written == Reverse(Text(number))
  {
    hide TruncMod, TruncDiv, Reverse, Digit;
    var temp := new char[21];
    var used := 0;
    var num := number;
    var sign := if number < 0 then -1 else 1;
    ghost var all := DigitsOf(Abs(number));
    Nineteen();
    DigitsCount(Abs(number), 19);
    while num != 0
      invariant used <= 19 && if sign == 1 then num >= 0 else num <= 0
      invariant DigitsOf(Abs(num)) + Reverse(temp[..used]) == all
      decreases Abs(num)
    {
      TruncSteps(num);
      ghost var before := temp[..used];
      temp[used] := Digit(TruncMod(num) * sign);
      ReverseSnoc(before, temp[used]);
      assert temp[..used + 1] == before + [temp[used]];
      used := used + 1;
      num := TruncDiv(num);
    }
    ghost var before := temp[..used];
    assert Reverse(before) == all;
    if number < 0 {
      temp[used] := '-';
      ReverseSnoc(before, '-');
      used := used + 1;
      assert temp[..used] == before + ['-'];
    } else if number == 0 {
      temp[used] := '0';
      ReverseSnoc(before, '0');
      used := used + 1;
      assert temp[..used] == before + ['0'];
    }
    written := temp[..used];
    ReverseTwice(written);
  }

  /** uint64_from_BEarray: the shift silently drops what exceeds 64 bits. */
  method Uint64FromBigEndian(data: Bytes) returns (result: nat)
    ensures result == BigEndian(data) % TWO_64
  {
    result := 0;
    for i := 0 to |data|
      invariant result == BigEndian(data[..i]) % TWO_64
    {
      assert data[..i + 1][..i] == data[..i];
      WrapStep(BigEndian(data[..i]), data[i]);
      result := result * 256 % TWO_64;
      result := (result + data[i]) % TWO_64;
    }
    assert data[..|data|] == data;
  }

  lemma WrapStep(x: nat, b: byte)
    ensures (x % TWO_64 * 256 % TWO_64 + b) % TWO_64 == (x * 256 + b) % TWO_64
  {
    var q, r := x / TWO_64, x % TWO_64;
    assert x * 256 + b == q * 256 * TWO_64 + (r * 256 + b);
    assert r * 256 == r * 256 / TWO_64 * TWO_64 + r * 256 % TWO_64;
    ModAdd(q * 256 + r * 256 / TWO_64, r * 256 % TWO_64 + b);
  }

  lemma ModAdd(k: int, y: int)
    ensures (k * TWO_64 + y) % TWO_64 == y % TWO_64
  {
  }

  // The conversion of an unsigned 64-bit argument to int64_t.
  function AsSigned(v: nat): int
    requires v < TWO_64
  {
    if v < TWO_63 then v else v - TWO_64
  }

  function Repeat(c: char, n: nat): (s: string)
    ensures |s| == n && forall i :: 0 <= i < n ==> s[i] == c
  {
    seq(n, _ => c)
  }

  // strncpy into n characters: cut off, or padded with NUL.
  function StrNCpy(text: string, n: nat): (s: string)
    ensures |s| == n
  {
    if |text| >= n then text[..n] else text + Repeat(NUL, n - |text|)
  }

  /** What fpuint64_to_str leaves in a destination that held `was`, given the digits of the amount;
      None stands for -1. The second form copies no NUL. */
  function Placed(was: string, digits: string, decimals: nat): (r: Option<string>)
    ensures r.Some? ==> |r.value| == |was|
  {
    if |digits| <= decimals then
      var lead := 2 + decimals - |digits|;
      if |was| <= lead then None
      else Some("0." + Repeat('0', decimals - |digits|) + StrNCpy(digits, |was| - lead))
    else if |was| <= |digits| + 1 + decimals then None
    else Some(WithDot(digits, decimals) + was[|digits| + 1..])
  }

  function WithDot(digits: string, decimals: nat): (s: string)
    requires decimals <= |digits|
    ensures |s| == |digits| + 1
  {
    digits[..|digits| - decimals] + "." + digits[|digits| - decimals..]
  }

  method FpUint64ToStr(dst: array<char>, start: nat, size: nat, value: nat, decimals: byte) returns (ok: bool)
    requires start + size <= dst.Length && value < TWO_64
    modifies dst
    ensures match Placed(old(dst[start..start + size]), Text(AsSigned(value)), decimals)
            case None => !ok && dst[..] == old(dst[..])
            case Some(s) => ok && forall i :: 0 <= i < dst.Length ==>
              dst[i] == if start <= i < start + size then s[i - start] else old(dst[i])
  {
    var buffer := new char[30];
    ok := Int64ToStr(buffer, 30, AsSigned(value));
    ShortText(AsSigned(value));
    hide Text, AsSigned, Placed;
    var digits := StrLen(buffer, Text(AsSigned(value)));
    assert buffer[..digits] == Text(AsSigned(value));
    ok := PlaceDigits(dst, start, size, buffer[..digits], decimals);
  }

  // The second half of fpuint64_to_str: the digits laid out around the dot.
  method PlaceDigits(dst: array<char>, start: nat, size: nat, digits: string, decimals: byte) returns (ok: bool)
    requires start + size <= dst.Length
    modifies dst
    ensures match Placed(old(dst[start..start + size]), digits, decimals)
            case None => !ok && dst[..] == old(dst[..])
            case Some(s) => ok && forall i :: 0 <= i < dst.Length ==>
              dst[i] == if start <= i < start + size then s[i - start] else old(dst[i])
  {
    hide StrNCpy, Repeat, WithDot;
    if |digits| <= decimals {
      var lead := 2 + decimals - |digits|;
      if size <= lead {
        return false;
      }
      PutString(dst, start, "0." + Repeat('0', decimals - |digits|) + StrNCpy(digits, size - lead));
    } else {
      if size <= |digits| + 1 + decimals {
        return false;
      }
      PutString(dst, start, WithDot(digits, decimals));
    }
    ok := true;
  }

  // strlen of a buffer known to hold a NUL-free text and its terminator.
  method StrLen(buffer: array<char>, ghost text: string) returns (n: nat)
    requires |text| < buffer.Length && buffer[|text|] == NUL && NUL !in text
    requires forall i :: 0 <= i < |text| ==> buffer[i] == text[i]
    ensures n == |text|
  {
    n := 0;
    while buffer[n] != NUL
      invariant n <= |text|
      decreases |text| - n
    {
      n := n + 1;
    }
  }

  method PutString(dst: array<char>, at: nat, s: string)
    requires at + |s| <= dst.Length
    modifies dst
    ensures forall j :: 0 <= j < dst.Length ==> dst[j] == if at <= j < at + |s| then s[j - at] else old(dst[j])
  {
    for i := 0 to |s|
      invariant forall j :: 0 <= j < dst.Length ==> dst[j] == if at <= j < at + i then s[j - at] else old(dst[j])
    {
      dst[at + i] := s[i];
    }
  }

  lemma ShortText(n: int)
    requires -TWO_63 <= n < TWO_63
    ensures |Text(n)| <= 20 && NUL !in Text(n)
  {
    Nineteen();
    DigitsCount(if n < 0 then -n else n, 19);
    DigitsSpell(if n < 0 then -n else n);
  }

  /** get_fiat_printable_amount: the coefficient is cut to 64 bits and read as signed, the exponent
      is cut to 8 bits. */
  function FiatText(was: string, coefficient: Bytes, exponent: nat): Option<string> {
    Placed(was, Text(AsSigned(BigEndian(coefficient) % TWO_64)), exponent % 256)
  }

  method GetFiatPrintableAmount(coefficient: Bytes, exponent: nat, dst: array<char>, start: nat, size: nat)
    returns (ok: bool)
    requires start + size <= dst.Length
    modifies dst
    ensures match FiatText(old(dst[start..start + size]), coefficient, exponent)
            case None => !ok && dst[..] == old(dst[..])
            case Some(s) => ok && forall i :: 0 <= i < dst.Length ==>
              dst[i] == if start <= i < start + size then s[i - start] else old(dst[i])
  {
    var amount := Uint64FromBigEndian(coefficient);
    ok := FpUint64ToStr(dst, start, size, amount, exponent % 256);
  }

  // --- what the fiat text means ---

  /** The C string at the start of a buffer; None if no NUL ends it. */
  function CString(s: string): Option<string> {
    if s == "" then None
    else if s[0] == NUL then Some("")
    else match CString(s[1..])
         case None => None
         case Some(t) => Some([s[0]] + t)
  }

  /** The text is an integer part, a dot and exactly `exponent` digits, and its value times
      10^exponent is the coefficient. */
  ghost predicate Denotes(text: string, coefficient: nat, exponent: nat) {
    var dot := |text| - 1 - exponent;
    && dot >= 1 && text[dot] == '.'
    && AllDigits(text[..dot]) && AllDigits(text[dot + 1..])
    && ValueOf(text[..dot] + text[dot + 1..]) == coefficient
  }

  // Digits with a dot before the last `decimals` of them, zeros in front where digits are missing.
  function Layout(digits: string, decimals: nat): string {
    WithDot(Repeat('0', if |digits| <= decimals then decimals + 1 - |digits| else 0) + digits, decimals)
  }

  lemma {:induction false} CStringOf(t: string, rest: string)
    requires NUL !in t && (rest == "" || rest[0] == NUL)
    ensures CString(t + rest) == if rest == "" then None else Some(t)
  {
    if t == "" {
      assert t + rest == rest;
    } else {
      CStringOf(t[1..], rest);
      assert (t + rest)[1..] == t[1..] + rest;
      assert t == [t[0]] + t[1..];
    }
  }

  lemma {:induction false} LeadingZeros(n: nat, s: string)
    ensures ValueOf(Repeat('0', n) + s) == ValueOf(s)
  {
    var z := Repeat('0', n);
    if s != "" {
      var k := |s| - 1;
      assert (z + s)[..|z + s| - 1] == z + s[..k];
      LeadingZeros(n, s[..k]);
    } else if n > 0 {
      assert z + s == z && z[..n - 1] == Repeat('0', n - 1) && Repeat('0', n - 1) + "" == Repeat('0', n - 1);
      LeadingZeros(n - 1, "");
    } else {
      assert z + s == "";
    }
  }

  // Inserting a dot and taking it out again.
  lemma WithDotParts(full: string, decimals: nat)
    requires decimals < |full|
    ensures var text, dot := WithDot(full, decimals), |full| - decimals;
            && |text| == |full| + 1 && text[dot] == '.'
            && text[..dot] == full[..dot] && text[dot + 1..] == full[dot..]
            && text[..dot] + text[dot + 1..] == full
  {
  }

  lemma DigitsAround(text: string, dot: nat)
    requires dot < |text| && AllDigits(text[..dot]) && AllDigits(text[dot + 1..])
    ensures forall i :: 0 <= i < |text| && i != dot ==> IsDigit(text[i])
  {
    forall i | 0 <= i < |text| && i != dot
      ensures IsDigit(text[i])
    {
      assert text[i] == if i < dot then text[..dot][i] else text[dot + 1..][i - dot - 1];
    }
  }

  lemma WithDotTells(full: string, decimals: nat, dot: nat)
    requires decimals < |full| && dot <= |full|
    requires AllDigits(WithDot(full, decimals)[..dot]) && AllDigits(WithDot(full, decimals)[dot + 1..])
    ensures dot == |full| - decimals && AllDigits(full)
  {
    hide AllDigits, WithDot;
    var text := WithDot(full, decimals);
    WithDotParts(full, decimals);
    DigitsAround(text, dot);
    assert dot == |full| - decimals;
    DigitsJoin(text[..dot], text[dot + 1..]);
  }

  lemma DigitsJoin(a: string, b: string)
    requires AllDigits(a) && AllDigits(b)
    ensures AllDigits(a + b)
  {
  }

  lemma TextSpells(v: int)
    ensures Text(v) != "" && (v < 0 ==> Text(v)[0] == '-')
    ensures v >= 0 ==> AllDigits(Text(v)) && ValueOf(Text(v)) == v
  {
    DigitsSpell(Abs(v));
    if v == 0 {
      assert "0"[..0] == "";
    }
  }

  lemma LayoutIsRight(c: nat, exponent: nat)
    ensures Denotes(Layout(Text(c), exponent), c, exponent)
  {
    hide Text, WithDot, ValueOf;
    var t := Text(c);
    TextSpells(c);
    var n := if |t| <= exponent then exponent + 1 - |t| else 0;
    LeadingZeros(n, t);
    WithDotParts(Repeat('0', n) + t, exponent);
  }

  // A laid-out text tells the number of its decimals, and its sign and value.
  lemma LayoutTells(v: int, decimals: nat, c: nat, exponent: nat)
    requires Denotes(Layout(Text(v), decimals), c, exponent)
    ensures decimals == exponent && v == c
  {
    hide Text, WithDot, ValueOf;
    var t := Text(v);
    TextSpells(v);
    var n := if |t| <= decimals then decimals + 1 - |t| else 0;
    var full := Repeat('0', n) + t;
    WithDotTells(full, decimals, |full| - exponent);
    WithDotParts(full, decimals);
    LeadingZeros(n, t);
    assert full[n] == t[0];
  }

  lemma PlacedInFull(was: string, t: string, decimals: nat)
    requires t != "" && NUL !in t && was == Repeat(NUL, |was|) && Placed(was, t, decimals).Some?
    requires |t| <= decimals ==> |was| > decimals + 2
    ensures CString(Placed(was, t, decimals).value) == Some(Layout(t, decimals))
  {
    LayoutParts(t, decimals);
    var s, text := Placed(was, t, decimals).value, Layout(t, decimals);
    var rest := s[|text|..];
    assert s == text + rest && rest[0] == NUL;
    CStringOf(text, rest);
  }

  // The laid-out text, part by part.
  lemma LayoutParts(t: string, decimals: nat)
    ensures Layout(t, decimals) ==
            if |t| <= decimals then "0." + Repeat('0', decimals - |t|) + t else WithDot(t, decimals)
  {
    if |t| <= decimals {
      var n := decimals + 1 - |t|;
      var full := Repeat('0', n) + t;
      assert full[..1] == "0" && full[1..] == Repeat('0', n - 1) + t;
      assert "0." == "0" + ".";
    } else {
      assert Repeat('0', 0) + t == t;
    }
  }

  lemma PlacedCutOff(was: string, t: string, decimals: nat)
    requires t != "" && NUL !in t && Placed(was, t, decimals).Some?
    requires |t| <= decimals && |was| <= decimals + 2
    ensures CString(Placed(was, t, decimals).value) == None
  {
    var s := Placed(was, t, decimals).value;
    assert NUL !in s;
    assert s == s + "";
    CStringOf(s, "");
  }

  lemma PlacedIsRight(was: string, v: int, decimals: nat, c: nat, exponent: nat)
    requires was == Repeat(NUL, |was|) && Placed(was, Text(v), decimals).Some? && -TWO_63 <= v < TWO_63
    ensures
      var shown := CString(Placed(was, Text(v), decimals).value);
      (shown.Some? && Denotes(shown.value, c, exponent)) <==>
        (v == c && decimals == exponent && (|Text(v)| <= decimals ==> |was| > decimals + 2))
  {
    hide Text, Placed, Layout, Denotes, CString, Repeat;
    ShortText(v);
    TextSpells(v);
    if |Text(v)| <= decimals && |was| <= decimals + 2 {
      PlacedCutOff(was, Text(v), decimals);
    } else {
      PlacedInFull(was, Text(v), decimals);
      if Denotes(Layout(Text(v), decimals), c, exponent) {
        LayoutTells(v, decimals, c, exponent);
      }
      if v == c && decimals == exponent {
        LayoutIsRight(c, exponent);
      }
    }
  }

  /** When fiat formatting reports success on a zeroed destination, the C string there is the
      intended text exactly when the coefficient is below 2^63, the exponent below 256 and, for an
      amount below one, the destination holds "0.", all the decimals and a NUL. Outside these bounds
      the code still reports success. */
  lemma FiatTextIsRight(was: string, coefficient: Bytes, exponent: nat)
    requires was == Repeat(NUL, |was|)
    requires FiatText(was, coefficient, exponent).Some?
    ensures
      var c := BigEndian(coefficient);
      var shown := CString(FiatText(was, coefficient, exponent).value);
      (shown.Some? && Denotes(shown.value, c, exponent)) <==>
        (c < TWO_63 && exponent < 256 && (|Text(c)| <= exponent ==> |was| > exponent + 2))
  {
    hide Text, Placed, Denotes, CString, Repeat, BigEndian;
    var c := BigEndian(coefficient);
    PlacedIsRight(was, AsSigned(c % TWO_64), exponent % 256, c, exponent);
  }

  /** The bounds are needed: a coefficient from 2^63 on prints with a minus sign, one 2^64 larger
      prints the same text, and so does an exponent 256 larger. */
  lemma FiatTextGoesWrong(was: string, coefficient: Bytes, larger: Bytes, exponent: nat)
    requires BigEndian(larger) == BigEndian(coefficient) + TWO_64
    ensures FiatText(was, larger, exponent + 256) == FiatText(was, coefficient, exponent)
    ensures TWO_63 <= BigEndian(coefficient) < TWO_64 ==>
      Text(AsSigned(BigEndian(coefficient) % TWO_64))[0] == '-'
  {
    hide Text, Placed;
    var c := BigEndian(coefficient);
    ModAdd(1, c);
    assert (exponent + 256) % 256 == exponent % 256;
    TextSpells(AsSigned(c % TWO_64));
  }
}
