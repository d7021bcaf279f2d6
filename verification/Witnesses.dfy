/** Inputs that reach what the theorems speak of: payloads as the device can receive them, and fair deals of
    every kind. */
module Witnesses {
  import opened Common
  import opened Commands
  import opened Messages
  import opened Normalize
  import opened Transactions
  import opened Pb
  import opened Flow
  import opened Apdu
  import opened Device
  import opened TransactionShape
  import opened Conversation
  import opened PbLaws
  import opened FlowLaws
  import ProtocolTables
  import Payloads
  import Varint
  import Base64Url
  import Decimal
  import Der

  // --- payloads ---

  // A length-delimited field.
  function Line(t: Table, i: nat, b: Bytes): Bytes
    requires i < |t|
  {
    EncodeItem(Item(t[i].tag, Block(b)))
  }

  // A message with a text or some bytes in one field.
  function With(m: Message, i: nat, b: Bytes): Message
    requires i < |m| && (m[i].VString? || m[i].VBytes?) && |b| < |m[i].buf| + if m[i].VString? then 0 else 1
  {
    m[i := if m[i].VString? then VString(Over(b + [0], m[i].buf)) else VBytes(|b|, Over(b, m[i].buf))]
  }

  // A field of a table that is a text or bytes, with room for b.
  predicate Takes(t: Table, i: nat, b: Bytes) {
    i < |t| && (t[i].kind.KString? || t[i].kind.KBytes?) && |b| < t[i].kind.cap + if t[i].kind.KString? then 0 else 1
  }

  lemma LineDecodes(t: Table, i: nat, b: Bytes, rest: Bytes, m: Message)
    requires WellFormed(t) && Conforms(t, m) && Takes(t, i, b) && |b| < TWO_32
    ensures Fits(t[i], m[i]) && Conforms(t, With(m, i, b))
    ensures DecodeFields(t, Line(t, i, b) + rest, m) == DecodeFields(t, rest, With(m, i, b))
  {
    assert Fits(t[i], m[i]) && 0 < t[i].tag < 0x2000_0000;
    hide DecodeFields, WellFormed;
    FindUnique(t, i);
    hide Find;
    DecodeItem(t, Item(t[i].tag, Block(b)), rest, m);
  }

  // What a filled field holds.
  lemma WithText(m: Message, i: nat, b: Bytes)
    requires i < |m| && m[i].VString? && |b| < |m[i].buf|
    ensures |With(m, i, b)| == |m| && Str(With(m, i, b), i) == b + [0] + m[i].buf[|b| + 1..]
    ensures 0 !in b ==> CText(Str(With(m, i, b), i)) == b
  {
    hide CText;
    if 0 !in b {
      assert b + [0] + m[i].buf[|b| + 1..] == b + ([0] + m[i].buf[|b| + 1..]);
      CTextOf(b, [0] + m[i].buf[|b| + 1..]);
    }
  }

  lemma WithBytes(m: Message, i: nat, b: Bytes)
    requires i < |m| && m[i].VBytes? && |b| <= |m[i].buf|
    ensures |With(m, i, b)| == |m| && Blob(With(m, i, b), i) == b
  {
  }

  // --- a colon behind the end ---

  /** A received payload whose pay-in address is a text and, behind its end, a colon and another text: it
      decodes to the first text, and the second one is paid. */
  lemma ColonBehindTheEnd(sub: Sub, text: Bytes, hidden: Bytes)
    requires sub.IsSwap() && 0 !in text && 58 !in text && 0 !in hidden && |text| + |hidden| <= 148
    ensures var r := Deserialize(sub, Line(ProtocolTables.SWAP_TABLE, PAYIN_ADDRESS, text + [0, 58] + hidden), false);
            r.Ready? && InAddress(sub, r.message) == text && InAddress(sub, Prepared(sub, r.message)) == hidden
  {
    hide Line, Shaped, CText, Stripped, DecodeFields, Prepared, With, TableOf;
    var t, b := ProtocolTables.SWAP_TABLE, text + [0, 58] + hidden;
    assert TableOf(sub) == t && t[PAYIN_ADDRESS].kind == KString(151) by { SwapTable(sub); }
    var m := With(ZeroMessage(t), PAYIN_ADDRESS, b);
    OneLine(sub, t, PAYIN_ADDRESS, b);
    FlowTheorems.DeserializedShaped(sub, Line(t, PAYIN_ADDRESS, b), false);
    TextAt(sub, m, PAYIN_ADDRESS);
    PreparedTexts(sub, m);
    WithText(ZeroMessage(t), PAYIN_ADDRESS, b);
    TextsOf(text, hidden, Str(m, PAYIN_ADDRESS));
  }

  lemma SwapTable(sub: Sub)
    requires sub.IsSwap()
    ensures TableOf(sub) == ProtocolTables.SWAP_TABLE && |TableOf(sub)| == 13
            && TableOf(sub)[PAYIN_ADDRESS].kind == KString(151)
  {
  }

  lemma OneLine(sub: Sub, t: Table, i: nat, b: Bytes)
    requires t == TableOf(sub) && Takes(t, i, b) && |b| < TWO_32
    ensures Fits(t[i], ZeroMessage(t)[i]) && Deserialize(sub, Line(t, i, b), false) == Ready(With(ZeroMessage(t), i, b))
  {
    ProtocolTables.TablesAreWellFormed();
    hide WellFormed, Line, DecodeFields, With;
    LineDecodes(t, i, b, [], ZeroMessage(t));
    assert Line(t, i, b) + [] == Line(t, i, b);
    NothingLeft(t, With(ZeroMessage(t), i, b));
  }

  lemma NothingLeft(t: Table, m: Message)
    requires Conforms(t, m)
    ensures DecodeFields(t, [], m) == Some(m)
  {
  }

  // Of a buffer with a colon behind the end of its text.
  lemma TextsOf(text: Bytes, hidden: Bytes, b: Bytes)
    requires 0 !in text && 58 !in text && 0 !in hidden && Terminated(b) && text + [0, 58] + hidden + [0] <= b
    ensures CText(b) == text && CText(Stripped(b)) == hidden
  {
    hide CText, Colon, Stripped;
    TextIn(text, b);
    ColonIn(text, b);
    StrippedExactly(b);
    TextIn(hidden, b[|text| + 2..]);
  }

  lemma TextIn(text: Bytes, b: Bytes)
    requires 0 !in text && text + [0] <= b
    ensures CText(b) == text
  {
    hide CText;
    assert b == text + b[|text|..];
    CTextOf(text, b[|text|..]);
  }

  lemma ColonIn(text: Bytes, b: Bytes)
    requires 58 !in text && text + [0, 58] <= b
    ensures 58 in b && Colon(b) == |text| + 1
  {
    hide Colon;
    assert b[|text| + 1] == 58 && forall j :: 0 <= j < |text| ==> b[j] == text[j];
    ColonIs(b, |text| + 1);
  }

  // --- fair deals ---

  const BTC: Bytes := [66, 84, 67]
  const ETH: Bytes := [69, 84, 72]
  const BITCOIN: Bytes := [66, 105, 116, 99, 111, 105, 110]
  const ETHEREUM: Bytes := [69, 116, 104, 101, 114, 101, 117, 109]
  const DER: Bytes := [48, 68] + Zeros(68)

  // Sub-configurations whose application shows no text, or is missing for them; a path of foreign addresses.
  const MUTE: Bytes := [7]
  const ABSENT: Bytes := [8]
  const ELSEWHERE: Bytes := [1]

  // A device on which every signature verifies, and every address but those of one path is its own.
  function Lenient(wallet: bool): Platform {
    Platform(_ => Zeros(32), (_, _, _) => true, _ => true, [],
             (_, config, _, _) => if config == ABSENT then FormatterMissing
                                  else if config == MUTE then Formatted(Zeros(50)) else Formatted([49] + Zeros(49)),
             (_, _, path, _, _) => if path == ELSEWHERE then Foreign else Belongs,
             _ => BadDescriptor([]), [], wallet)
  }

  function CurrencyAt(sub: Sub): nat {
    if sub.IsSwap() then CURRENCY_FROM else if sub.IsSell() then SELL_IN_CURRENCY else FUND_IN_CURRENCY
  }

  // A transaction of two or three fields: the currencies and the issued id.
  function Raw(sub: Sub, id: Bytes): Bytes {
    var t := TableOf(sub);
    Line(t, CurrencyAt(sub), BTC) + (Line(t, IdAt(sub), id) + (if sub.IsSwap() then Line(t, CURRENCY_TO, ETH) else []))
  }

  function RawMessage(sub: Sub, id: Bytes): Message
    requires |id| == if sub.Swap? then 10 else 32
  {
    var m := With(With(ZeroMessage(TableOf(sub)), CurrencyAt(sub), BTC), IdAt(sub), id);
    if sub.IsSwap() then With(m, CURRENCY_TO, ETH) else m
  }

  // A deal over it in the formats of the client's specifications.
  function PlainDeal(sub: Sub, rng: Random, failing: Option<Bytes>): Deal {
    var raw := Raw(sub, IssuedId(sub, FreshId(sub, rng)));
    Deal(sub, 0, rng, 0, Partner([80, 65, 82], if sub.Swap? then Secp256k1 else Secp256r1, Zeros(65)), DER,
         if sub.Swap? then raw else Base64Url.Encode(raw, true), !sub.Swap?, 1,
         !sub.Swap?, !sub.Swap? && !sub.Fund?, if sub.Swap? || sub.Fund? then DER else Zeros(64),
         Currency(BTC, BITCOIN, [], DER, [2]), Currency(ETH, ETHEREUM, [], DER, [2]),
         if failing.Some? then Some(Currency(ETH, ETHEREUM, failing.value, DER, ELSEWHERE)) else None)
  }

  lemma FieldsOf(sub: Sub)
    ensures var t := TableOf(sub);
            && CurrencyAt(sub) < |t| && IdAt(sub) < |t| && CurrencyAt(sub) != IdAt(sub)
            && t[CurrencyAt(sub)].kind == KString(10)
               && t[IdAt(sub)].kind == (if sub.Swap? then KString(11) else KBytes(32))
            && t[CurrencyAt(sub)].tag < 16 && t[IdAt(sub)].tag < 16
            && (sub.IsSwap() ==> CURRENCY_TO < |t| && t[CURRENCY_TO].kind == KString(10) && t[CURRENCY_TO].tag < 16)
  {
  }

  lemma LineLength(t: Table, i: nat, b: Bytes)
    requires i < |t| && t[i].tag < 16 && |b| < 128
    ensures |Line(t, i, b)| == 2 + |b|
  {
  }

  lemma ZeroFits(t: Table, i: nat)
    requires i < |t|
    ensures |ZeroMessage(t)| == |t| && Fits(t[i], ZeroMessage(t)[i]) && ZeroMessage(t)[i] == ZeroVal(t[i])
  {
  }

  lemma RawDecodes(sub: Sub, id: Bytes)
    requires |id| == if sub.Swap? then 10 else 32
    ensures Decode(TableOf(sub), Raw(sub, id)) == Some(RawMessage(sub, id)) && 1 <= |Raw(sub, id)| <= 44
  {
    hide WellFormed, DecodeFields, Line, With, TableOf, IdAt, CurrencyAt;
    var t, cur, at := TableOf(sub), CurrencyAt(sub), IdAt(sub);
    ProtocolTables.TablesAreWellFormed();
    TableIsWell(sub);
    FieldsOf(sub);
    var rest := if sub.IsSwap() then Line(t, CURRENCY_TO, ETH) else [];
    var m0 := ZeroMessage(t);
    var m1 := With(m0, cur, BTC);
    LineDecodes(t, cur, BTC, Line(t, at, id) + rest, m0);
    LineDecodes(t, at, id, rest, m1);
    var m2 := With(m1, at, id);
    LineLength(t, cur, BTC);
    LineLength(t, at, id);
    if sub.IsSwap() {
      LineDecodes(t, CURRENCY_TO, ETH, [], m2);
      LineLength(t, CURRENCY_TO, ETH);
      assert rest + [] == rest;
      NothingLeft(t, With(m2, CURRENCY_TO, ETH));
    } else {
      NothingLeft(t, m2);
    }
  }

  lemma TableIsWell(sub: Sub)
    ensures WellFormed(TableOf(sub))
  {
    ProtocolTables.TablesAreWellFormed();
    hide WellFormed;
  }

  lemma WithKeeps(m: Message, i: nat, b: Bytes)
    requires i < |m| && (m[i].VString? || m[i].VBytes?) && |b| < |m[i].buf| + if m[i].VString? then 0 else 1
    ensures |With(m, i, b)| == |m| && forall j :: 0 <= j < |m| && j != i ==> With(m, i, b)[j] == m[j]
  {
  }

  // Every other field keeps its default.
  predicate OtherwiseZero(sub: Sub, m: Message) {
    |m| == |TableOf(sub)|
    && forall j :: 0 <= j < |m| && j != CurrencyAt(sub) && j != IdAt(sub) && !(sub.IsSwap() && j == CURRENCY_TO)
         ==> m[j] == ZeroVal(TableOf(sub)[j])
  }

  lemma RawHolds(sub: Sub, id: Bytes)
    requires |id| == if sub.Swap? then 10 else 32
    ensures var m := RawMessage(sub, id);
            && CText(InCurrency(sub, m)) == BTC && CarriedId(sub, m) == Some(id) && OtherwiseZero(sub, m)
            && (sub.IsSwap() ==> CText(Str(m, CURRENCY_TO)) == ETH)
  {
    hide CText, TableOf, With, IdAt, CurrencyAt;
    var t, cur, at := TableOf(sub), CurrencyAt(sub), IdAt(sub);
    FieldsOf(sub);
    ZeroFits(t, cur);
    ZeroFits(t, at);
    var m0 := ZeroMessage(t);
    var m1 := With(m0, cur, BTC);
    WithText(m0, cur, BTC);
    WithKeeps(m0, cur, BTC);
    var m2 := With(m1, at, id);
    WithKeeps(m1, at, id);
    IdFilled(sub, m1, id);
    if sub.IsSwap() {
      ZeroFits(t, CURRENCY_TO);
      Apart(sub);
      WithText(m2, CURRENCY_TO, ETH);
      WithKeeps(m2, CURRENCY_TO, ETH);
      SameId(sub, m2, RawMessage(sub, id));
    }
    CurrencyIn(sub, RawMessage(sub, id));
  }

  lemma IdFilled(sub: Sub, m: Message, id: Bytes)
    requires |id| == if sub.Swap? then 10 else 32
    requires IdAt(sub) < |m| && Fits(Field(1, if sub.Swap? then KString(11) else KBytes(32), 0, 0), m[IdAt(sub)])
    ensures CarriedId(sub, With(m, IdAt(sub), id)) == Some(id)
  {
    if sub.Swap? {
      WithText(m, IdAt(sub), id);
      assert Str(With(m, IdAt(sub), id), SWAP_ID)[..10] == id;
    } else {
      WithBytes(m, IdAt(sub), id);
    }
  }

  lemma Apart(sub: Sub)
    requires sub.IsSwap()
    ensures CurrencyAt(sub) != CURRENCY_TO && IdAt(sub) != CURRENCY_TO
  {
  }

  lemma CurrencyIn(sub: Sub, m: Message)
    ensures InCurrency(sub, m) == Str(m, CurrencyAt(sub))
  {
  }

  lemma PayloadRead(sub: Sub, rng: Random, failing: Option<Bytes>)
    ensures var d := PlainDeal(sub, rng, failing);
            var id := IssuedId(sub, FreshId(sub, rng));
            && |id| == (if sub.Swap? then 10 else 32) && 1 <= |d.payload| <= 60
            && Deserialize(sub, d.payload, d.base64) == Ready(RawMessage(sub, id))
  {
    hide Raw, RawMessage, TableOf, DecodeFields, FreshId, Base64Url.Encode;
    var id := IssuedId(sub, FreshId(sub, rng));
    var raw := Raw(sub, id);
    RawDecodes(sub, id);
    if !sub.Swap? {
      Base64Url.EncodedLength(raw, true);
      Base64Url.DecodeInvertsEncode(raw, true, 512);
    }
  }

  // Nothing of a transaction otherwise zero is extra data, and its fiat amount is shown.
  lemma ZeroExtra(sub: Sub, m: Message)
    requires OtherwiseZero(sub, m)
    ensures ExtraOk(sub, m) && (sub.IsSell() ==> FiatAmount(Prepared(sub, m)).Some?)
  {
    hide Prepared, CText;
    if sub.IsSwap() { assert m[PAYIN_EXTRA_DATA] == VBytes(0, Zeros(34)); }
    if sub.IsSell() {
      PreparedKeeps(sub, m, OUT_CURRENCY);
      PreparedKeeps(sub, m, OUT_AMOUNT);
      ZeroFiat(Prepared(sub, m));
    }
  }

  lemma ZeroFiat(n: Message)
    requires |n| > OUT_AMOUNT && n[OUT_CURRENCY] == VString(Zeros(10))
             && n[OUT_AMOUNT] == ZeroVal(Field(6, KMessage(ProtocolTables.UDECIMAL_TABLE), 1, 24))
    ensures FiatAmount(n).Some?
  {
    assert CText(Str(n, OUT_CURRENCY)) == [] && Blob(n[OUT_AMOUNT].fields, 0) == [];
    hide CText;
    assert Decimal.FiatText(Decimal.Repeat(Decimal.NUL, 49), [], 0).Some?;
  }

  // The message of a plain deal.
  function PlainMessage(sub: Sub, rng: Random): Message {
    var id := IssuedId(sub, FreshId(sub, rng));
    if |id| == (if sub.Swap? then 10 else 32) then RawMessage(sub, id) else []
  }

  // A payout check that fails, if there is one, has no text or no application.
  predicate Fails(failing: Option<Bytes>) { failing.Some? ==> failing.value == MUTE || failing.value == ABSENT }

  lemma LegalCurrency(ticker: Bytes, app: Bytes, config: Bytes, path: Bytes)
    requires |ticker| == 3 && 3 <= |app| <= 8 && |config| <= 1 && |path| == 1
    ensures Legal(Currency(ticker, app, config, DER, path))
  {
  }

  lemma PlainCrafts(sub: Sub, payload: Bytes, base64: bool)
    requires |payload| <= 60
    ensures var data := CraftTransaction(sub, payload, 1, base64); data.Some? && |data.value| <= 65 && 1 < Pow(256, 16)
  {
    PowBig(16);
  }

  lemma {:induction false} PowBig(e: nat)
    requires e > 0
    ensures Pow(256, e) >= 256
  {
    if e > 1 { PowBig(e - 1); }
  }

  lemma PlainBuilt(sub: Sub, rng: Random, failing: Option<Bytes>)
    requires Fails(failing)
    ensures WellBuilt(PlainDeal(sub, rng, failing))
  {
    hide Legal, CraftTransaction, Deserialize, Base64Url.Encode, Raw, FreshId, Der.Signature, Pow;
    var d := PlainDeal(sub, rng, failing);
    PayloadRead(sub, rng, failing);
    PlainCrafts(sub, d.payload, d.base64);
    LegalCurrency(BTC, BITCOIN, [], [2]);
    LegalCurrency(ETH, ETHEREUM, [], [2]);
    if failing.Some? { LegalCurrency(ETH, ETHEREUM, failing.value, ELSEWHERE); }
    Der.CurveSizedSignature(Zeros(64)[..32], Zeros(64)[32..]);
  }

  lemma PlainSigned(sub: Sub, rng: Random, failing: Option<Bytes>, wallet: bool)
    requires Fails(failing) && WellBuilt(PlainDeal(sub, rng, failing))
    ensures WellSigned(Lenient(wallet), PlainDeal(sub, rng, failing), PlainMessage(sub, rng))
  {
    hide WellBuilt, Deserialize, Base64Url.Encode, Raw, RawMessage, FreshId, SignatureAsDer, Credentials, ExtraOk,
         OtherwiseZero, CText, CarriedId;
    PayloadRead(sub, rng, failing);
    var id := IssuedId(sub, FreshId(sub, rng));
    RawHolds(sub, id);
    ZeroExtra(sub, RawMessage(sub, id));
  }

  // What the applications of the lenient device answer.
  lemma LenientServes(wallet: bool, k: Currency, amount: Bytes, fee: bool, ins: Ins, n: Message, name: Bytes)
    requires Legal(k) && CText(name) == k.ticker && (k.ticker == BTC || k.ticker == ETH)
    ensures var p := Lenient(wallet);
            && (TextFor(p, k, amount, fee).Some? <==> k.config != MUTE && k.config != ABSENT)
            && VerdictOf(p, ins, n, k) == (if k.path == ELSEWHERE then Foreign else Belongs) && Names(p, k, name)
  {
    hide CText, Legal, AppName, KnownAs;
    assert k.ticker + [] == k.ticker;
    CTextOf(k.ticker, []);
  }

  lemma PlainServed(sub: Sub, rng: Random, failing: Option<Bytes>, wallet: bool)
    requires Fails(failing) && WellBuilt(PlainDeal(sub, rng, failing))
    ensures WellServed(Lenient(wallet), PlainDeal(sub, rng, failing), PlainMessage(sub, rng))
    ensures sub.IsSwap() && failing.Some? ==>
              ForeignTo(Lenient(wallet), PlainDeal(sub, rng, failing), PlainMessage(sub, rng),
                        PlainDeal(sub, rng, failing).stray.value)
    ensures sub.IsSwap() ==>
              VerdictOf(Lenient(wallet), CheckPayout, Prepared(sub, PlainMessage(sub, rng)),
                        PlainDeal(sub, rng, failing).received).Belongs?
  {
    hide WellBuilt, CText, Legal, RawMessage, FreshId, Prepared, TextFor, VerdictOf, Names, Lenient, OtherwiseZero,
         CarriedId, FiatAmount, InAmount, InCurrency, MinimalBytes, Raw, Base64Url.Encode, ExtraOk, Str, Blob;
    PayloadRead(sub, rng, failing);
    var d, m := PlainDeal(sub, rng, failing), PlainMessage(sub, rng);
    var n := Prepared(sub, m);
    RawHolds(sub, IssuedId(sub, FreshId(sub, rng)));
    ZeroExtra(sub, m);
    LegalCurrency(BTC, BITCOIN, [], [2]);
    LenientServes(wallet, d.paid, InAmount(sub, n), false, RefundNoDisplay, n, InCurrency(sub, m));
    LenientServes(wallet, d.paid, MinimalBytes(1), true, RefundNoDisplay, n, InCurrency(sub, m));
    if sub.IsSwap() {
      LegalCurrency(ETH, ETHEREUM, [], [2]);
      LenientServes(wallet, d.received, Blob(n, AMOUNT_TO_WALLET), false, CheckPayout, n, Str(m, CURRENCY_TO));
      if failing.Some? {
        LegalCurrency(ETH, ETHEREUM, failing.value, ELSEWHERE);
        LenientServes(wallet, d.stray.value, Blob(n, AMOUNT_TO_WALLET), false, CheckPayout, n, Str(m, CURRENCY_TO));
      }
    }
  }

  /** There are fair deals of every kind, for small and large screens, with and without a payout check that
      fails on the way. */
  lemma FairDeals(sub: Sub, rng: Random, failing: Option<Bytes>, wallet: bool)
    requires Fails(failing)
    ensures Fair(Lenient(wallet), PlainDeal(sub, rng, failing), PlainMessage(sub, rng))
  {
    hide WellBuilt, WellSigned, WellServed, PlainMessage, PlainDeal, Lenient;
    PlainBuilt(sub, rng, failing);
    PlainSigned(sub, rng, failing, wallet);
    PlainServed(sub, rng, failing, wallet);
  }

  // The items of a plain deal's payload.
  function RawItems(sub: Sub, id: Bytes): seq<Item> {
    var t := TableOf(sub);
    if CurrencyAt(sub) >= |t| || IdAt(sub) >= |t| then []
    else
      [Item(t[CurrencyAt(sub)].tag, Block(BTC)), Item(t[IdAt(sub)].tag, Block(id))]
      + if sub.IsSwap() && CURRENCY_TO < |t| then [Item(t[CURRENCY_TO].tag, Block(ETH))] else []
  }

  lemma RawIsItems(sub: Sub, id: Bytes)
    requires |id| == if sub.Swap? then 10 else 32
    ensures Raw(sub, id) == EncodeItems(RawItems(sub, id)) && Payloads.Blocks(RawItems(sub, id), Payloads.TopField(sub))
    ensures Payloads.InnerOf(sub, RawItems(sub, id), [])
  {
    RawTags(sub);
    var t, items := TableOf(sub), RawItems(sub, id);
    hide EncodeItem, TableOf, IdAt, CurrencyAt;
    assert items[1..][0] == items[1];
    if sub.IsSwap() {
      assert items[1..][1..] == [items[2]] && [items[2]][1..] == [];
      assert EncodeItems([items[2]]) == EncodeItem(items[2]) + EncodeItems([]);
    } else {
      assert items[1..][1..] == [];
    }
    assert EncodeItems([]) == [];
    assert EncodeItems(items) == EncodeItem(items[0]) + EncodeItems(items[1..]);
    assert EncodeItems(items[1..]) == EncodeItem(items[1]) + EncodeItems(items[1..][1..]);
    NothingWithin(items);
  }

  lemma RawTags(sub: Sub)
    ensures var t := TableOf(sub);
            && CurrencyAt(sub) < |t| && IdAt(sub) < |t| && (sub.IsSwap() ==> CURRENCY_TO < |t|)
            && 0 < t[CurrencyAt(sub)].tag < 16 && t[CurrencyAt(sub)].tag != 6 && 0 < t[IdAt(sub)].tag < 16
            && (sub.IsSell() ==> t[IdAt(sub)].tag != 6) && (sub.IsSwap() ==> 0 < t[CURRENCY_TO].tag < 16)
  {
  }

  lemma {:induction false} NothingWithin(items: seq<Item>)
    ensures (forall i :: 0 <= i < |items| ==> items[i].tag != 6) ==> Payloads.Within(items, 6, [])
    decreases items
  {
    if items != [] { NothingWithin(items[1..]); }
  }

  // The proposal of a plain deal's run is made of them.
  lemma PlainProposal(sub: Sub, rng: Random, log: seq<Event>)
    requires WellBuilt(PlainDeal(sub, rng, None)) && DataAt(log, 3) == Crafted(PlainDeal(sub, rng, None))
    ensures Payloads.ProposalOf(sub, log, RawItems(sub, IssuedId(sub, FreshId(sub, rng))))
  {
    hide WellBuilt, Crafted, ParseTransaction, FreshId, Raw, RawItems, Base64Url.Encode, Payloads.Blocks;
    var d, id := PlainDeal(sub, rng, None), IssuedId(sub, FreshId(sub, rng));
    PayloadRead(sub, rng, None);
    ProposalParses(d);
    RawIsItems(sub, id);
    RawLength(sub, id);
    if !sub.Swap? { Base64Url.DecodeInvertsEncode(Raw(sub, id), true, 512); }
  }

  lemma RawLength(sub: Sub, id: Bytes)
    requires |id| == if sub.Swap? then 10 else 32
    ensures 1 <= |Raw(sub, id)| <= 44
  {
    hide Raw, RawMessage;
    RawDecodes(sub, id);
  }

  /** So in every kind of flow there is a run from boot that ends in a signing, of a payload made of items. */
  lemma EveryKindSigns(sub: Sub, boot: Word)
    ensures exists p: Platform, inputs: seq<Input>, i: Input, request: Request, items: seq<Item> ::
              && Launched(request) in Step(p, Run(p, boot, inputs), i).1 && Run(p, boot, inputs).context.sub == sub
              && Payloads.ProposalOf(sub, Run(p, boot, inputs).log, items) && Payloads.InnerOf(sub, items, [])
  {
    hide Fair, PlainMessage, PlainDeal, Lenient, Run, Step, Talk, Say, RequestFor, Prepared, Marked, WellBuilt,
         Crafted, Payloads.ProposalOf, Payloads.InnerOf, RawItems, FreshId;
    var p, d, m := Lenient(false), PlainDeal(sub, Zeros(32), None), PlainMessage(sub, Zeros(32));
    FairDeals(sub, Zeros(32), None, false);
    DealFacts(sub, Zeros(32), None);
    BootReady(p, boot);
    ValidExchangeSigns(p, boot, [], d, m);
    var inputs := [] + Talk(d);
    var i := Say(d, StartSigning, []);
    var request := RequestFor(d, Prepared(d.sub, m));
    assert Step(p, Run(p, boot, inputs), i).1[1] == Launched(request);
    var id := IssuedId(sub, FreshId(sub, Zeros(32)));
    PlainProposal(sub, Zeros(32), Run(p, boot, inputs).log);
    PayloadRead(sub, Zeros(32), None);
    RawIsItems(sub, id);
    assert Payloads.ProposalOf(sub, Run(p, boot, inputs).log, RawItems(sub, id));
  }

  lemma DealFacts(sub: Sub, rng: Random, failing: Option<Bytes>)
    requires Fails(failing)
    ensures PlainDeal(sub, rng, failing).sub == sub && PlainDeal(sub, rng, failing).stray.Some? == failing.Some?
    ensures WellBuilt(PlainDeal(sub, rng, failing))
  {
    PlainBuilt(sub, rng, failing);
    hide WellBuilt;
  }

  lemma BootReady(p: Platform, boot: Word)
    ensures !Run(p, boot, []).context.state.WaitingUser?
  {
  }

  /** A warning without a reason, and a missing application that resets nothing: in a swap, a first payout
      check is about a foreign address and fails, as its amount cannot be shown or its application is missing;
      the context stays, but for the mark. The next check, of an address of the device, goes through, and the
      swap is signed with the mark up. */
  lemma MarkOutlives(sub: Sub, rng: Random, failing: Option<Bytes>, wallet: bool, boot: Word)
    requires sub.IsSwap() && failing.Some? && Fails(failing)
    ensures var p, d, m := Lenient(wallet), PlainDeal(sub, rng, failing), PlainMessage(sub, rng);
            && WellBuilt(d) && d.stray.Some? && Legal(d.stray.value)
            && var w := Run(p, boot, Preface(d));
               var (v, out) := Step(p, w, Say(d, CheckPayout, Configuration(d.stray.value)));
               && w.context.state.SignatureChecked? && v.context == w.context.(otherSeed := true) != w.context
               && out == [Replied(if failing == Some(ABSENT) then APPLICATION_NOT_INSTALLED
                                  else AMOUNT_FORMATTING_FAILED, [])]
               && VerdictOf(p, CheckPayout, Prepared(sub, m), d.received).Belongs?
               && Run(p, boot, Talk(d)).context.otherSeed
               && Step(p, Run(p, boot, Talk(d)), Say(d, StartSigning, [])).1 ==
                  [Replied(SUCCESS, []), Launched(RequestFor(d, Prepared(sub, m)))]
  {
    hide Fair, PlainMessage, PlainDeal, Lenient, Run, Step, Preface, Talk, Say, RequestFor, Prepared, ForeignTo,
         WellBuilt, Legal, Configuration, SignedTo, FailureOf, VerdictOf, MinimalBytes;
    var p, d, m := Lenient(wallet), PlainDeal(sub, rng, failing), PlainMessage(sub, rng);
    FairDeals(sub, rng, failing, wallet);
    DealFacts(sub, rng, failing);
    PlainServed(sub, rng, failing, wallet);
    FairRate(p, d, m);
    FairSwap(p, d, m) by { hide PayoutServed, TextFor, Blob; }
    BootReady(p, boot);
    FailedCheckMarks(p, boot, [], d, m);
    SignedHolds(p, d, m);
    PlainFailure(sub, rng, failing, wallet);
    ValidExchangeSigns(p, boot, [], d, m);
    assert [] + Preface(d) == Preface(d) && [] + Talk(d) == Talk(d);
  }

  lemma PlainFailure(sub: Sub, rng: Random, failing: Option<Bytes>, wallet: bool)
    requires Fails(failing) && failing.Some?
    ensures var d := PlainDeal(sub, rng, failing);
            d.stray.Some? && FailureOf(Lenient(wallet), d, PlainMessage(sub, rng), d.stray.value) ==
            if failing == Some(ABSENT) then APPLICATION_NOT_INSTALLED else AMOUNT_FORMATTING_FAILED
  {
    hide PlainMessage, Prepared, Blob, AppName, FreshId, Raw, Base64Url.Encode;
    assert MUTE[0] != ABSENT[0];
  }
}
