/** Currency names, addresses and amounts as the exchange uses them (src/ticker_normalization.c and
    the helpers of src/process_transaction.c). */
module Normalize {
  import opened Common
  import Der

  // The text in a char buffer: what is in front of the first NUL.
  function CText(b: Bytes): (t: Bytes)
    ensures t <= b && 0 !in t && (|t| < |b| ==> b[|t|] == 0)
  {
    if b == [] || b[0] == 0 then [] else [b[0]] + CText(b[1..])
  }

  lemma {:induction false} CTextOf(t: Bytes, rest: Bytes)
    requires 0 !in t && (rest == [] || rest[0] == 0)
    ensures CText(t + rest) == t
  {
    if t == [] {
      assert t + rest == rest;
    } else {
      CTextOf(t[1..], rest);
      assert (t + rest)[1..] == t[1..] + rest;
    }
  }

  // --- currency names ---

  function UpperByte(c: byte): byte { if 97 <= c <= 122 then c - 32 else c }

  function Upper(b: Bytes): (r: Bytes)
    ensures |r| == |b|
  {
    if b == [] || b[0] == 0 then b else [UpperByte(b[0])] + Upper(b[1..])
  }

  method ToUppercase(str: Bytes) returns (r: Bytes)
    ensures r == Upper(str)
  {
    hide Upper;
    r := str;
    var i := 0;
    while i < |r| && r[i] != 0
      invariant 0 <= i <= |str| && UpperTo(str, i, r)
    {
      UpperStep(str, i, r);
      if 97 <= r[i] <= 122 {
        r := r[i := r[i] - 32];
      }
      i := i + 1;
    }
    UpperStop(str, i, r);
  }

  // r is str with its first i characters, none of them NUL, in upper case.
  ghost predicate UpperTo(str: Bytes, i: nat, r: Bytes)
    requires i <= |str|
  {
    |r| == |str| && r[i..] == str[i..] && r[..i] + Upper(str[i..]) == Upper(str)
  }

  lemma UpperStep(str: Bytes, i: nat, r: Bytes)
    requires i < |str| && UpperTo(str, i, r) && r[i] != 0
    ensures UpperTo(str, i + 1, r[i := UpperByte(r[i])])
    ensures UpperByte(r[i]) == r[i] ==> UpperTo(str, i + 1, r)
  {
    var rest, c := str[i..], UpperByte(r[i]);
    assert rest[0] == r[i..][0] == r[i] && rest[1..] == str[i + 1..];
    assert Upper(rest) == [c] + Upper(rest[1..]);
    hide Upper, UpperByte;
    var r' := r[i := c];
    assert r'[..i + 1] == r[..i] + [c];
    assert r'[i + 1..] == r[i..][1..] == str[i + 1..];
    Joins(r[..i], c, Upper(str[i + 1..]));
    assert c == r[i] ==> r' == r;
  }

  lemma Joins(a: Bytes, c: byte, b: Bytes)
    ensures (a + [c]) + b == a + ([c] + b)
  {
  }

  lemma UpperStop(str: Bytes, i: nat, r: Bytes)
    requires i <= |str| && UpperTo(str, i, r) && (i < |str| ==> r[i] == 0)
    ensures r == Upper(str)
  {
    assert i < |str| ==> str[i..][0] == r[i..][0];
    assert r[..i] + r[i..] == r;
  }

  // strlcpy of a text into a buffer of |b| bytes.
  function StrLCpy(t: Bytes, b: Bytes): (r: Bytes)
    ensures |r| == |b|
  {
    if b == [] then b else var n := Min(|t|, |b| - 1); t[..n] + [0] + b[n + 1..]
  }

  const USDT20: Bytes := [85, 83, 68, 84, 50, 48]
  const USDT: Bytes := [85, 83, 68, 84]
  const REP: Bytes := [82, 69, 80]
  const REPV2: Bytes := [82, 69, 80, 118, 50]

  // A name the partner uses at the start of the buffer gives way to Ledger's.
  function LedgerName(b: Bytes): (r: Bytes)
    ensures |r| == |b|
  {
    if USDT20 <= b then StrLCpy(USDT, b) else if REP <= b then StrLCpy(REPV2, b) else b
  }

  const CURRENCY_ALIASES: seq<(Bytes, Bytes)> := [(USDT20, USDT), (REP, REPV2)]

  // strncmp(a, b, |b|) == 0 for a NUL-free b.
  method StartsWith(a: Bytes, b: Bytes) returns (yes: bool)
    ensures yes <==> b <= a
  {
    for i := 0 to |b|
      invariant i <= |a| && b[..i] == a[..i]
    {
      if i >= |a| || a[i] != b[i] {
        return false;
      }
    }
    yes := true;
  }

  method SetLedgerCurrencyName(currency: Bytes) returns (r: Bytes)
    ensures r == LedgerName(currency)
  {
    for i := 0 to |CURRENCY_ALIASES|
      invariant forall j :: 0 <= j < i ==> !(CURRENCY_ALIASES[j].0 <= currency)
    {
      var found := StartsWith(currency, CURRENCY_ALIASES[i].0);
      if found {
        assert i > 0 ==> !(CURRENCY_ALIASES[0].0 <= currency);
        return StrLCpy(CURRENCY_ALIASES[i].1, currency);
      }
    }
    assert !(CURRENCY_ALIASES[0].0 <= currency) && !(CURRENCY_ALIASES[1].0 <= currency);
    r := currency;
  }

  // The name of a currency, and the name as the exchange knows it.
  function KnownAs(t: Bytes): Bytes { Renamed(Upper(t)) }

  lemma {:induction false} UpperText(b: Bytes)
    ensures CText(Upper(b)) == Upper(CText(b))
  {
    if b != [] && b[0] != 0 { UpperText(b[1..]); }
  }

  lemma PrefixInText(p: Bytes, b: Bytes)
    requires 0 !in p
    ensures p <= b <==> p <= CText(b)
  {
    assert p <= b ==> forall i :: 0 <= i < |p| ==> b[i] == p[i] != 0;
  }

  lemma CopiedText(t: Bytes, b: Bytes)
    requires 0 !in t && |t| < |b|
    ensures CText(StrLCpy(t, b)) == t
  {
    assert t[..|t|] == t;
    assert StrLCpy(t, b) == t + ([0] + b[|t| + 1..]);
    CTextOf(t, [0] + b[|t| + 1..]);
  }

  function Renamed(t: Bytes): Bytes { if USDT20 <= t then USDT else if REP <= t then REPV2 else t }

  lemma RenamedText(b: Bytes)
    requires |b| > 5
    ensures CText(LedgerName(b)) == Renamed(CText(b))
  {
    hide CText, StrLCpy, USDT20, REP, USDT, REPV2;
    NamesInText(b);
    LedgerNamesFit(b);
  }

  lemma LedgerNamesFit(b: Bytes)
    requires |b| > 5
    ensures CText(StrLCpy(USDT, b)) == USDT && CText(StrLCpy(REPV2, b)) == REPV2
  {
    hide CText, StrLCpy;
    CopiedText(USDT, b);
    CopiedText(REPV2, b);
  }

  lemma NamesInText(b: Bytes)
    ensures (USDT20 <= b <==> USDT20 <= CText(b)) && (REP <= b <==> REP <= CText(b))
  {
    hide CText;
    PrefixInText(USDT20, b);
    PrefixInText(REP, b);
  }

  /** Normalising the buffer normalises the name in it. */
  lemma NormalisedText(b: Bytes)
    requires |b| > 5
    ensures CText(LedgerName(Upper(b))) == KnownAs(CText(b))
  {
    UpperText(b);
    RenamedText(Upper(b));
  }

  /** Written out: letters are raised, then USDT20 and longer names become USDT, and REP and longer ones REPv2. */
  lemma KnownLiterally(t: Bytes)
    requires 0 !in t
    ensures exists u: Bytes ::
              && |u| == |t| && (forall i :: 0 <= i < |t| ==> u[i] == if 97 <= t[i] <= 122 then t[i] - 32 else t[i])
              && KnownAs(t) == (if [85, 83, 68, 84, 50, 48] <= u then [85, 83, 68, 84]
                                else if [82, 69, 80] <= u then [82, 69, 80, 118, 50] else u)
  {
    hide Upper;
    var u := Upper(t);
    forall i | 0 <= i < |t|
      ensures u[i] == if 97 <= t[i] <= 122 then t[i] - 32 else t[i]
    {
      UpperAt(t, i);
    }
  }

  /** Names settle after one pass, so a name of the exchange's own list is left alone. */
  lemma KnownOnce(t: Bytes)
    ensures KnownAs(KnownAs(t)) == KnownAs(t)
  {
    UpperTwice(t);
    NamesSettle();
    hide Upper;
  }

  lemma NamesSettle()
    ensures Upper(USDT) == USDT && REP <= Upper(REPV2)
    ensures !(USDT20 <= Upper(REPV2)) && !(USDT20 <= USDT) && !(REP <= USDT)
  {
    hide Upper;
    var usdt, repV2 := USDT, REPV2;
    forall i | 0 <= i < 4
      ensures Upper(usdt)[i] == usdt[i]
    {
      UpperAt(usdt, i);
    }
    assert Upper(usdt) == usdt;
    UpperAt(repV2, 0);
    UpperAt(repV2, 1);
    UpperAt(repV2, 2);
    assert Upper(repV2)[..3] == REP;
    assert REP[0] != USDT20[0] && REP[0] != USDT[0];
  }

  lemma {:induction false} UpperAt(b: Bytes, i: nat)
    requires i < |b| && 0 !in b[..i]
    ensures Upper(b)[i] == UpperByte(b[i])
  {
    if i > 0 {
      assert b[0] == b[..i][0] && b[1..][..i - 1] == b[..i][1..];
      UpperAt(b[1..], i - 1);
    }
  }

  lemma {:induction false} UpperTwice(b: Bytes)
    ensures Upper(Upper(b)) == Upper(b)
  {
    if b != [] && b[0] != 0 {
      UpperTwice(b[1..]);
      assert Upper(b)[1..] == Upper(b[1..]);
    }
  }

  /** check_matching_ticker compares names as the exchange knows them, whatever the local buffer held
      before. */
  method CheckMatchingTicker(ticker: Bytes, reference: Bytes, was: Bytes) returns (ok: bool)
    requires 1 <= |ticker| <= 9 && |was| == 10
    ensures ok <==> CText(reference) == KnownAs(CText(ticker))
  {
    var name := ticker + [0] + was[|ticker| + 1..];
    ghost var all := name;
    var upper := ToUppercase(name[..|ticker|]);
    name := upper + name[|ticker|..];
    UpperFront(ticker, all[|ticker|..]);
    assert all[..|ticker|] == ticker && all == ticker + all[|ticker|..];
    name := SetLedgerCurrencyName(name);
    NormalisedText(all);
    TextFront(ticker, all[|ticker|..]);
    ok := CText(reference) == CText(name);
  }

  lemma {:induction false} UpperFront(t: Bytes, rest: Bytes)
    requires rest != [] && rest[0] == 0
    ensures Upper(t + rest) == Upper(t) + rest
  {
    if t == [] {
      assert t + rest == rest;
    } else if t[0] != 0 {
      UpperFront(t[1..], rest);
      assert (t + rest)[1..] == t[1..] + rest;
    }
  }

  lemma {:induction false} TextFront(t: Bytes, rest: Bytes)
    requires rest != [] && rest[0] == 0
    ensures CText(t + rest) == CText(t)
  {
    if t == [] {
      assert t + rest == rest;
    } else if t[0] != 0 {
      TextFront(t[1..], rest);
      assert (t + rest)[1..] == t[1..] + rest;
    }
  }

  // --- addresses ---

  // Index of the first ':' in the buffer, its length if there is none.
  function Colon(b: Bytes): (i: nat)
    ensures i <= |b| && (i < |b| ==> b[i] == 58) && forall j :: 0 <= j < i ==> b[j] != 58
  {
    if b == [] || b[0] == 58 then 0 else 1 + Colon(b[1..])
  }

  // What follows the first ':' moved to the front.
  function Stripped(b: Bytes): (r: Bytes)
    ensures |r| == |b|
  {
    var i := Colon(b);
    if i == |b| then b else b[i + 1..] + b[|b| - i - 1..]
  }

  method StripHeader(address: Bytes) returns (r: Bytes)
    ensures r == Stripped(address)
  {
    hide Colon;
    for i := 0 to |address|
      invariant forall j :: 0 <= j < i ==> address[j] != 58
    {
      if address[i] == 58 {
        ColonIs(address, i);
        return address[i + 1..] + address[|address| - i - 1..];
      }
    }
    ColonIs(address, |address|);
    r := address;
  }

  lemma ColonIs(b: Bytes, i: nat)
    requires i <= |b| && (i < |b| ==> b[i] == 58) && forall j :: 0 <= j < i ==> b[j] != 58
    ensures Colon(b) == i
  {
  }

  /** A header in the address goes. */
  lemma StrippedText(b: Bytes)
    requires |CText(b)| < |b| && 58 in CText(b)
    ensures CText(Stripped(b)) == CText(b)[Colon(CText(b)) + 1..]
  {
    hide CText;
    var t := CText(b);
    var i := Colon(t);
    ColonFound(t);
    hide Colon;
    ColonIs(b, i);
    TextBehind(b, t, i);
  }

  lemma {:induction false} ColonFound(b: Bytes)
    ensures Colon(b) < |b| <==> 58 in b
  {
  }

  /** An address without one stays as it is, unless a ':' follows behind the end of its text: then the
      text behind that ':' takes its place. */
  lemma StrippedExactly(b: Bytes)
    requires Terminated(b)
    ensures CText(Stripped(b)) ==
            if 58 in CText(b) then CText(b)[Colon(CText(b)) + 1..]
            else if 58 in b then CText(b[Colon(b) + 1..])
            else CText(b)
  {
    hide CText, Colon;
    ColonFound(b);
    if 58 in CText(b) {
      hide Stripped;
      TextEnds(b);
      StrippedText(b);
    } else if 58 in b {
      var i := Colon(b);
      var tail := b[i + 1..];
      assert Terminated(tail);
      TextEnds(tail);
      TextStays(tail, b[|b| - i - 1..]);
    }
  }

  lemma {:induction false} TextEnds(b: Bytes)
    requires Terminated(b)
    ensures |CText(b)| < |b|
  {
    if b[0] != 0 { TextEnds(b[1..]); }
  }

  lemma TextStays(b: Bytes, more: Bytes)
    requires |CText(b)| < |b|
    ensures CText(b + more) == CText(b)
  {
    var t := CText(b);
    hide CText;
    assert b + more == t + (b[|t|..] + more);
    CTextOf(t, b[|t|..] + more);
  }

  lemma TextBehind(b: Bytes, t: Bytes, i: nat)
    requires t <= b && |t| < |b| && b[|t|] == 0 && 0 !in t && i < |t|
    ensures CText(b[i + 1..] + b[|b| - i - 1..]) == t[i + 1..]
  {
    hide CText;
    var tail := t[i + 1..];
    var rest := b[|t|..] + b[|b| - i - 1..];
    assert b[i + 1..] == tail + b[|t|..];
    CTextOf(tail, rest);
    assert b[i + 1..] + b[|b| - i - 1..] == tail + rest;
  }

  // --- amounts ---

  // A byte array of which the first `size` bytes count, with its leading zeros cut off.
  function Trimmed(size: nat, b: Bytes): (r: (nat, Bytes))
    requires size <= |b|
    ensures r.0 <= size && |r.1| == |b| && r.1[..r.0] == Der.Trim(b[..size])
  {
    var t := Der.Trim(b[..size]);
    (|t|, t + b[|t|..])
  }

  method TrimPbBytesArray(size: nat, b: Bytes) returns (newSize: nat, r: Bytes)
    requires size <= |b|
    ensures (newSize, r) == Trimmed(size, b)
  {
    var i := 0;
    var d := b[..size];
    while i < size && b[i] == 0
      invariant 0 <= i <= size && Der.Trim(d) == Der.Trim(d[i..])
    {
      assert d[i..][1..] == d[i + 1..];
      i := i + 1;
    }
    if i == 0 {
      assert b == d + b[size..];
      return size, b;
    }
    newSize := size - i;
    r := b[i..size] + b[newSize..];
    assert d[i..] == b[i..size];
  }

  /** Trimming keeps the amount and leaves no leading zero. */
  lemma TrimmedAmount(size: nat, b: Bytes)
    requires size <= |b|
    ensures var (n, r) := Trimmed(size, b);
            BigEndian(r[..n]) == BigEndian(b[..size]) && (n > 0 ==> r[0] != 0)
  {
    var (n, r) := Trimmed(size, b);
    Der.TrimKeepsValue(b[..size]);
    assert n > 0 ==> r[0] == r[..n][0];
  }
}
