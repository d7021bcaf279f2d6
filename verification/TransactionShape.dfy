/** What the transaction in the context always is: a message of its table whose texts end inside their
    buffers. */
module TransactionShape {
  import opened Common
  import opened Commands
  import opened Normalize
  import opened Transactions
  import opened Pb
  import Varint

  // Every text buffer, also of submessages, is NUL-terminated.
  predicate EndedVal(v: Val)
    decreases v
  {
    match v
    case VString(buf) => Terminated(buf)
    case VMsg(fields) => Ended(fields)
    case _ => true
  }

  predicate Ended(m: Message)
    decreases m
  {
    forall i :: 0 <= i < |m| ==> EndedVal(m[i])
  }

  // --- decoding ---

  lemma {:induction false} ZeroEnded(f: Field)
    requires WellFormedField(f) && Holds(f.kind, f.size)
    ensures EndedVal(ZeroVal(f))
    decreases f
  {
    if f.kind.KMessage? {
      ZerosEnded(f.kind.sub);
    }
  }

  lemma {:induction false} ZerosEnded(t: Table)
    requires WellFormed(t)
    ensures Ended(ZeroMessage(t))
    decreases t
  {
    forall i | 0 <= i < |t|
      ensures EndedVal(ZeroMessage(t)[i])
    {
      ZeroEnded(t[i]);
    }
  }

  lemma OverEnds(data: Bytes, buf: Bytes)
    requires Terminated(buf) && |data| + 1 <= |buf|
    ensures Terminated(Over(data + [0], buf))
  {
  }

  lemma {:induction false} FieldEnded(f: Field, s: Bytes, was: Val)
    requires Fits(f, was) && EndedVal(was) && DecodeField(f, s, was).Some?
    ensures EndedVal(DecodeField(f, s, was).value.0)
    decreases |s|, 0
  {
    if !f.kind.KUint32? {
      var (data, rest) := Delimited(s).value;
      if f.kind.KMessage? {
        FieldsEnded(f.kind.sub, data, was.fields);
      } else if f.kind.KString? {
        OverEnds(data, was.buf);
      }
    }
  }

  lemma {:induction false} FieldsEnded(t: Table, s: Bytes, m: Message)
    requires Conforms(t, m) && Ended(m) && DecodeFields(t, s, m).Some?
    ensures Ended(DecodeFields(t, s, m).value)
    decreases |s|, 1
  {
    if s != [] {
      var (key, rest) := Varint.Parse32(s).value;
      if key != 0 {
        match Find(t, key / 8)
        case None => FieldsEnded(t, Skip(key % 8, rest).value, m);
        case Some(i) =>
          var (v, after) := DecodeField(t[i], rest, m[i]).value;
          FieldEnded(t[i], rest, m[i]);
          FieldsEnded(t, after, m[i := v]);
      }
    }
  }

  /** Whatever the bytes were, a decoded message fits its table and ends its texts. */
  lemma DecodedEnded(t: Table, s: Bytes)
    requires WellFormed(t) && Decode(t, s).Some?
    ensures Conforms(t, Decode(t, s).value) && Ended(Decode(t, s).value)
  {
    ZerosEnded(t);
    FieldsEnded(t, s, ZeroMessage(t));
  }

  // --- preparing ---

  // A message of the table with ended texts.
  ghost predicate Shaped(t: Table, m: Message) { Conforms(t, m) && Ended(m) }

  lemma FieldShaped(t: Table, m: Message, i: nat, v: Val)
    requires Shaped(t, m) && i < |t| && Fits(t[i], v) && EndedVal(v)
    ensures Shaped(t, m[i := v])
  {
  }

  lemma FieldOf(t: Table, m: Message, i: nat)
    requires Shaped(t, m) && i < |m|
    ensures |t| == |m| && Fits(t[i], m[i]) && EndedVal(m[i])
  {
  }

  lemma SetStrShaped(t: Table, m: Message, i: nat, b: Bytes)
    requires Shaped(t, m) && (Terminated(Str(m, i)) ==> Terminated(b) && |b| == |Str(m, i)|)
    ensures Shaped(t, SetStr(m, i, b))
  {
    if i < |m| && m[i].VString? {
      FieldOf(t, m, i);
      FieldShaped(t, m, i, VString(b));
    }
  }

  lemma TrimShaped(t: Table, m: Message, i: nat)
    requires Shaped(t, m)
    ensures Shaped(t, TrimBlob(m, i))
  {
    hide Trimmed;
    if i < |m| && m[i].VBytes? && m[i].size <= |m[i].buf| {
      FieldOf(t, m, i);
      var (n, b) := Trimmed(m[i].size, m[i].buf);
      FieldShaped(t, m, i, VBytes(n, b));
    }
  }

  lemma {:induction false} UpperEnds(b: Bytes)
    requires Terminated(b)
    ensures Terminated(Upper(b))
  {
    if b[0] != 0 && |b| > 1 { UpperEnds(b[1..]); }
  }

  lemma NameEnds(b: Bytes)
    requires Terminated(b)
    ensures Terminated(LedgerName(Upper(b)))
  {
    UpperEnds(b);
    hide Upper;
  }

  lemma NameShaped(t: Table, m: Message, i: nat)
    requires Shaped(t, m)
    ensures Shaped(t, NormaliseName(m, i))
  {
    hide LedgerName, Upper, Str, SetStr, Shaped;
    if Terminated(Str(m, i)) { NameEnds(Str(m, i)); }
    SetStrShaped(t, m, i, LedgerName(Upper(Str(m, i))));
  }

  lemma PreparedShaped(sub: Sub, m: Message)
    requires Shaped(TableOf(sub), m)
    ensures Shaped(TableOf(sub), Prepared(sub, m))
  {
    var t := TableOf(sub);
    hide Shaped, NormaliseName, SetStr, TrimBlob, TableOf, Str;
    if sub.IsSwap() {
      var a := NormaliseName(m, CURRENCY_FROM);
      var named := NormaliseName(a, CURRENCY_TO);
      NameShaped(t, m, CURRENCY_FROM);
      NameShaped(t, a, CURRENCY_TO);
      StripEnds(Str(named, PAYIN_ADDRESS));
      SetStrShaped(t, named, PAYIN_ADDRESS, Stripped(Str(named, PAYIN_ADDRESS)));
      var n := Normalised(sub, m);
      TrimShaped(t, n, AMOUNT_TO_PROVIDER);
      TrimShaped(t, TrimBlob(n, AMOUNT_TO_PROVIDER), AMOUNT_TO_WALLET);
    } else {
      NameShaped(t, m, if sub.IsSell() then SELL_IN_CURRENCY else FUND_IN_CURRENCY);
      TrimShaped(t, Normalised(sub, m), if sub.IsSell() then SELL_IN_AMOUNT else FUND_IN_AMOUNT);
    }
  }

  lemma StripEnds(b: Bytes)
    ensures Terminated(b) ==> Terminated(Stripped(b))
  {
  }

  // --- the texts of a prepared transaction ---

  lemma TextOfName(m: Message, i: nat)
    requires i < |m| && m[i].VString? && |m[i].buf| > 5
    ensures CText(Str(NormaliseName(m, i), i)) == KnownAs(CText(Str(m, i)))
  {
    hide CText, KnownAs, LedgerName, Upper;
    NormalisedText(m[i].buf);
  }

  /** Preparing puts the currencies under the names the exchange knows them by, takes the header off the
      pay-in address of a swap, and leaves that of another flow alone. */
  lemma PreparedTexts(sub: Sub, m: Message)
    requires Shaped(TableOf(sub), m)
    ensures var r := Prepared(sub, m);
            && CText(InCurrency(sub, r)) == KnownAs(CText(InCurrency(sub, m)))
            && (sub.IsSwap() ==> CText(Str(r, CURRENCY_TO)) == KnownAs(CText(Str(m, CURRENCY_TO))))
            && (!sub.IsSwap() ==> InAddress(sub, r) == InAddress(sub, m))
            && (sub.IsSwap() ==>
                Terminated(Str(m, PAYIN_ADDRESS)) && InAddress(sub, r) == CText(Stripped(Str(m, PAYIN_ADDRESS))))
  {
    TextAt(sub, m, if sub.IsSwap() then CURRENCY_FROM else if sub.IsSell() then SELL_IN_CURRENCY else FUND_IN_CURRENCY);
    TrimsKeepTexts(sub, Normalised(sub, m));
    if sub.IsSwap() {
      SwapTexts(sub, m);
    } else {
      TextOfName(m, if sub.IsSell() then SELL_IN_CURRENCY else FUND_IN_CURRENCY);
      NameKeeps(m, if sub.IsSell() then SELL_IN_CURRENCY else FUND_IN_CURRENCY);
    }
    hide Str, NormaliseName, WithTrimmedAmounts, CText, KnownAs, Stripped, Shaped;
  }

  lemma SwapTexts(sub: Sub, m: Message)
    requires Shaped(TableOf(sub), m) && sub.IsSwap()
    ensures var n := Normalised(sub, m);
            && CText(Str(n, CURRENCY_FROM)) == KnownAs(CText(Str(m, CURRENCY_FROM)))
            && CText(Str(n, CURRENCY_TO)) == KnownAs(CText(Str(m, CURRENCY_TO)))
            && Terminated(Str(m, PAYIN_ADDRESS)) && Str(n, PAYIN_ADDRESS) == Stripped(Str(m, PAYIN_ADDRESS))
  {
    var a := NormaliseName(m, CURRENCY_FROM);
    var b := NormaliseName(a, CURRENCY_TO);
    TextAt(sub, m, PAYIN_ADDRESS);
    TextAt(sub, m, CURRENCY_FROM);
    TextAt(sub, m, CURRENCY_TO);
    hide Shaped, TableOf;
    TextOfName(m, CURRENCY_FROM);
    NameKeeps(m, CURRENCY_FROM);
    TextOfName(a, CURRENCY_TO);
    NameKeeps(a, CURRENCY_TO);
    hide NormaliseName, CText, KnownAs, Stripped;
  }

  lemma NameKeeps(m: Message, i: nat)
    ensures |NormaliseName(m, i)| == |m|
    ensures forall j: nat :: j != i ==> Str(NormaliseName(m, i), j) == Str(m, j)
    ensures forall j: nat :: j < |m| && j != i ==> NormaliseName(m, i)[j] == m[j]
  {
    hide LedgerName, Upper;
  }

  lemma TrimsKeepTexts(sub: Sub, m: Message)
    ensures forall j: nat :: Str(WithTrimmedAmounts(sub, m), j) == Str(m, j)
  {
    hide Trimmed;
  }

  // The text fields preparing looks at.
  lemma TextAt(sub: Sub, m: Message, i: nat)
    requires Shaped(TableOf(sub), m)
    requires if sub.IsSwap() then i == PAYIN_ADDRESS || i == PAYOUT_ADDRESS || i == REFUND_ADDRESS
             || i == CURRENCY_FROM || i == CURRENCY_TO
             else if sub.IsSell() then i == SELL_IN_CURRENCY || i == SELL_IN_ADDRESS
             else i == FUND_IN_CURRENCY || i == FUND_IN_ADDRESS
    ensures i < |m| && m[i].VString? && |m[i].buf| > 5 && Terminated(m[i].buf)
  {
    var t := TableOf(sub);
    assert i < |t| && t[i].kind.KString? && t[i].kind.cap > 5;
    FieldOf(t, m, i);
    hide Shaped, Conforms, Ended;
  }
}
