/** What is paid, in terms of the payload's fields by number (src/proto/protocol.proto,
    src/start_signing_transaction.c). */
module Payloads {
  import opened Common
  import opened Commands
  import opened Messages
  import opened Normalize
  import opened Transactions
  import opened Pb
  import opened PbLaws
  import opened Flow
  import opened Apdu
  import opened Device
  import opened Replay
  import opened FlowLaws
  import opened FlowTheorems
  import opened TransactionShape
  import ProtocolTables

  // --- fields by number ---

  // The last block sent with this number; x if there is none.
  function Latest(items: seq<Item>, number: nat, x: Bytes): Bytes {
    if items == [] then x
    else
      var it := items[0];
      Latest(items[1..], number, if it.tag == number && it.payload.Block? then it.payload.b else x)
  }

  // A char array after the texts with this number have been written over it in turn, each with its NUL.
  function Overlaid(items: seq<Item>, number: nat, buf: Bytes): Bytes {
    if items == [] then buf
    else
      var it := items[0];
      var hit := it.tag == number && it.payload.Block? && |it.payload.b| < |buf|;
      Overlaid(items[1..], number, if hit then it.payload.b + [0] + buf[|it.payload.b| + 1..] else buf)
  }

  // The last number sent as a varint.
  function LatestNumber(items: seq<Item>, number: nat, x: nat): nat {
    if items == [] then x
    else
      var it := items[0];
      LatestNumber(items[1..], number, if it.tag == number && it.payload.Number? then it.payload.v else x)
  }

  // The messages with this number, put together, are made of these items.
  ghost predicate Within(items: seq<Item>, number: nat, inner: seq<Item>) {
    if items == [] then inner == []
    else if items[0].tag != number then Within(items[1..], number, inner)
    else
      exists k :: 0 <= k <= |inner| &&
        items[0].payload == Block(EncodeItems(inner[..k])) && Within(items[1..], number, inner[k..])
  }

  // Items with legal numbers and values, of which those up to a number are blocks.
  predicate Blocks(items: seq<Item>, top: nat) {
    forall i :: 0 <= i < |items| ==> ValidItem(items[i]) && (items[i].tag <= top ==> items[i].payload.Block?)
  }

  // The texts with this number fit an array of the given size, with a NUL.
  predicate AllFit(items: seq<Item>, number: nat, size: nat) {
    forall i :: 0 <= i < |items| && items[i].tag == number && items[i].payload.Block? ==> |items[i].payload.b| < size
  }

  // --- decoding them ---

  lemma {:induction false} BytesRead(t: Table, items: seq<Item>, m: Message, i: nat)
    requires Conforms(t, m) && AllWellTyped(t, items) && Fold(t, m, items).Some?
    requires i < |t| && Find(t, t[i].tag) == Some(i) && t[i].kind.KBytes?
    ensures Blob(Fold(t, m, items).value, i) == Latest(items, t[i].tag, Blob(m, i))
    decreases items
  {
    assert Fits(t[i], m[i]);
    if items != [] {
      var it, next := items[0], Apply(t, m, items[0]).value;
      assert WellTyped(t, it);
      assert Fits(t[i], next[i]);
      BytesRead(t, items[1..], next, i);
    }
  }

  lemma {:induction false} TextRead(t: Table, items: seq<Item>, m: Message, i: nat)
    requires Conforms(t, m) && AllWellTyped(t, items) && Fold(t, m, items).Some?
    requires i < |t| && Find(t, t[i].tag) == Some(i) && t[i].kind.KString?
    ensures Str(Fold(t, m, items).value, i) == Overlaid(items, t[i].tag, Str(m, i))
    ensures AllFit(items, t[i].tag, |Str(m, i)|)
    decreases items
  {
    assert Fits(t[i], m[i]);
    if items != [] {
      var it, next := items[0], Apply(t, m, items[0]).value;
      assert WellTyped(t, it);
      assert Fits(t[i], next[i]);
      TextRead(t, items[1..], next, i);
      assert forall j :: 1 <= j < |items| ==> items[j] == items[1..][j - 1];
    }
  }

  lemma {:induction false} NumberRead(t: Table, items: seq<Item>, m: Message, i: nat)
    requires Conforms(t, m) && AllWellTyped(t, items) && Fold(t, m, items).Some?
    requires i < |t| && Find(t, t[i].tag) == Some(i) && t[i].kind.KUint32?
    ensures Conforms(t, Fold(t, m, items).value) && Fits(t[i], Fold(t, m, items).value[i]) && Fits(t[i], m[i])
    ensures Fold(t, m, items).value[i].n == LatestNumber(items, t[i].tag, m[i].n)
    decreases items
  {
    assert Fits(t[i], m[i]);
    if items != [] {
      var it, next := items[0], Apply(t, m, items[0]).value;
      assert WellTyped(t, it);
      assert Fits(t[i], next[i]);
      NumberRead(t, items[1..], next, i);
    }
  }

  lemma {:induction false} FoldJoins(t: Table, a: seq<Item>, b: seq<Item>, m: Message)
    requires Conforms(t, m) && AllWellTyped(t, a) && AllWellTyped(t, b) && Fold(t, m, a).Some?
    ensures AllWellTyped(t, a + b) && Fold(t, m, a + b) == Fold(t, Fold(t, m, a).value, b)
    decreases a
  {
    if a == [] {
      assert a + b == b;
    } else {
      assert (a + b)[1..] == a[1..] + b;
      FoldJoins(t, a[1..], b, Apply(t, m, a[0]).value);
    }
  }

  // A message field holds what the items inside give.
  lemma {:induction false} MessageRead(t: Table, items: seq<Item>, m: Message, i: nat, inner: seq<Item>)
    requires Conforms(t, m) && AllWellTyped(t, items) && Fold(t, m, items).Some?
    requires i < |t| && Find(t, t[i].tag) == Some(i) && t[i].kind.KMessage?
    requires Within(items, t[i].tag, inner) && AllWellTyped(t[i].kind.sub, inner)
    ensures Fits(t[i], m[i]) && Fits(t[i], Fold(t, m, items).value[i])
    ensures Fold(t[i].kind.sub, m[i].fields, inner) == Some(Fold(t, m, items).value[i].fields)
    decreases items
  {
    MessageFits(t, m, i);
    if items != [] {
      hide Fits, Find, DecodeFields, ValidItem, Fold, Within, AllWellTyped, Conforms;
      var number, sub := t[i].tag, t[i].kind.sub;
      FirstApplied(t, items, m);
      var next := Apply(t, m, items[0]).value;
      MessageFits(t, next, i);
      if items[0].tag == number {
        var k: nat := FirstWithin(items, number, inner);
        TypedParts(sub, inner, k);
        MessageRead(t, items[1..], next, i, inner[k..]);
        MessageApplied(t, items[0], m, i, inner[..k]);
        WholeDecodes(sub, inner[..k], m[i].fields);
        FoldJoins(sub, inner[..k], inner[k..], m[i].fields);
        assert inner[..k] + inner[k..] == inner;
      } else {
        OtherApplied(t, items[0], m, i);
        OtherWithin(items, number, inner);
        MessageRead(t, items[1..], next, i, inner);
      }
    } else {
      NothingFolded(t, items, m, i, inner);
    }
  }

  lemma MessageFits(t: Table, m: Message, i: nat)
    requires Conforms(t, m) && i < |t| && t[i].kind.KMessage?
    ensures Fits(t[i], m[i]) && m[i].VMsg? && Conforms(t[i].kind.sub, m[i].fields)
  {
  }

  lemma NothingFolded(t: Table, items: seq<Item>, m: Message, i: nat, inner: seq<Item>)
    requires items == [] && Conforms(t, m) && AllWellTyped(t, items) && i < |t| && t[i].kind.KMessage?
    requires Within(items, t[i].tag, inner)
    ensures inner == [] && Fold(t, m, items) == Some(m)
  {
  }

  lemma FirstApplied(t: Table, items: seq<Item>, m: Message)
    requires Conforms(t, m) && AllWellTyped(t, items) && items != [] && Fold(t, m, items).Some?
    ensures WellTyped(t, items[0]) && AllWellTyped(t, items[1..]) && Apply(t, m, items[0]).Some?
    ensures var next := Apply(t, m, items[0]).value;
            Conforms(t, next) && Fold(t, m, items) == Fold(t, next, items[1..])
  {
  }

  lemma FirstWithin(items: seq<Item>, number: nat, inner: seq<Item>) returns (k: nat)
    requires items != [] && items[0].tag == number && Within(items, number, inner)
    ensures k <= |inner| && items[0].payload == Block(EncodeItems(inner[..k])) && Within(items[1..], number, inner[k..])
  {
    k :| 0 <= k <= |inner| && items[0].payload == Block(EncodeItems(inner[..k]))
      && Within(items[1..], number, inner[k..]);
  }

  lemma OtherWithin(items: seq<Item>, number: nat, inner: seq<Item>)
    requires items != [] && items[0].tag != number && Within(items, number, inner)
    ensures Within(items[1..], number, inner)
  {
  }

  lemma TypedParts(t: Table, items: seq<Item>, k: nat)
    requires AllWellTyped(t, items) && k <= |items|
    ensures AllWellTyped(t, items[..k]) && AllWellTyped(t, items[k..])
  {
    hide WellTyped;
  }

  lemma MessageApplied(t: Table, it: Item, m: Message, i: nat, part: seq<Item>)
    requires Conforms(t, m) && WellTyped(t, it) && i < |t| && t[i].kind.KMessage? && Find(t, t[i].tag) == Some(i)
    requires it.tag == t[i].tag && it.payload == Block(EncodeItems(part)) && Apply(t, m, it).Some?
    ensures Fits(t[i], m[i]) && |Apply(t, m, it).value| == |t| && Apply(t, m, it).value[i].VMsg?
    ensures DecodeFields(t[i].kind.sub, EncodeItems(part), m[i].fields) == Some(Apply(t, m, it).value[i].fields)
  {
    hide DecodeFields, EncodeItems;
  }

  lemma OtherApplied(t: Table, it: Item, m: Message, i: nat)
    requires Conforms(t, m) && WellTyped(t, it) && i < |t| && it.tag != t[i].tag && Apply(t, m, it).Some?
    ensures |Apply(t, m, it).value| == |t| == |m| && Apply(t, m, it).value[i] == m[i]
  {
    hide DecodeFields;
  }

  lemma WholeDecodes(t: Table, items: seq<Item>, m: Message)
    requires Conforms(t, m) && AllWellTyped(t, items)
    ensures DecodeFields(t, EncodeItems(items), m) == Fold(t, m, items)
  {
    DecodeItems(t, items, [], m);
    assert EncodeItems(items) + [] == EncodeItems(items);
  }

  // --- the texts ---

  /** The text in an overlaid array is that of the last block. */
  lemma {:induction false} OverlaidText(items: seq<Item>, number: nat, buf: Bytes, x: Bytes)
    requires CText(buf) == CText(x) && AllFit(items, number, |buf|)
    ensures CText(Overlaid(items, number, buf)) == CText(Latest(items, number, x))
    decreases items
  {
    if items != [] {
      var it := items[0];
      if it.tag == number && it.payload.Block? {
        var b := it.payload.b;
        assert b + [0] + buf[|b| + 1..] == b + ([0] + buf[|b| + 1..]);
        TextFront(b, [0] + buf[|b| + 1..]);
        OverlaidText(items[1..], number, b + [0] + buf[|b| + 1..], b);
      } else {
        OverlaidText(items[1..], number, buf, x);
      }
    }
  }

  // --- the fields of the three messages ---

  // A text field of the message, in an array of this size, and a field of bytes.
  ghost predicate TextField(items: seq<Item>, m: Message, i: nat, number: nat, size: nat) {
    Str(m, i) == Overlaid(items, number, Zeros(size)) && CText(Str(m, i)) == CText(Latest(items, number, []))
  }

  ghost predicate BytesField(items: seq<Item>, m: Message, i: nat,
                             number: nat) { Blob(m, i) == Latest(items, number, []) }

  lemma BlocksTyped(t: Table, items: seq<Item>, top: nat)
    requires Blocks(items, top) && forall i :: 0 <= i < |t| ==> t[i].tag <= top && !t[i].kind.KUint32?
    ensures AllWellTyped(t, items)
  {
    forall i | 0 <= i < |items|
      ensures WellTyped(t, items[i])
    {
      assert ValidItem(items[i]);
    }
  }

  lemma FieldOfText(t: Table, items: seq<Item>, m: Message, i: nat, number: nat, size: nat)
    requires WellFormed(t) && AllWellTyped(t, items) && Decode(t, EncodeItems(items)) == Some(m)
    requires i < |t| && t[i].tag == number && t[i].kind == KString(size) && size > 0
    ensures TextField(items, m, i, number, size)
  {
    hide WellFormed, AllWellTyped, Fold, CText, Overlaid, Latest;
    var zero := ZeroMessage(t);
    WholeDecodes(t, items, zero);
    FindUnique(t, i);
    ZeroText(t, i);
    TextRead(t, items, zero, i);
    assert CText([]) == [] && CText(Zeros(size)) == [] by { NoText(size); }
    OverlaidText(items, number, Zeros(size), []);
  }

  lemma ZeroText(t: Table, i: nat)
    requires i < |t|
    ensures match t[i].kind case KString(size) => Str(ZeroMessage(t), i) == Zeros(size) case _ => true
  {
    hide ZeroMessage;
    ZeroField(t, i);
  }

  lemma ZeroField(t: Table, i: nat)
    requires i < |t|
    ensures |ZeroMessage(t)| == |t| && ZeroMessage(t)[i] == ZeroVal(t[i])
  {
  }

  lemma NoText(size: nat)
    ensures CText([]) == [] && CText(Zeros(size)) == []
  {
  }

  lemma FieldOfBytes(t: Table, items: seq<Item>, m: Message, i: nat, number: nat)
    requires WellFormed(t) && AllWellTyped(t, items) && Decode(t, EncodeItems(items)) == Some(m)
    requires i < |t| && t[i].tag == number && t[i].kind.KBytes?
    ensures BytesField(items, m, i, number)
  {
    hide WellFormed, AllWellTyped, Fold, Latest;
    var zero := ZeroMessage(t);
    WholeDecodes(t, items, zero);
    FindUnique(t, i);
    assert Blob(zero, i) == [] by { ZeroBytes(t, i); }
    BytesRead(t, items, zero, i);
  }

  lemma ZeroBytes(t: Table, i: nat)
    requires i < |t|
    ensures t[i].kind.KBytes? ==> Blob(ZeroMessage(t), i) == []
  {
    hide ZeroMessage;
    ZeroField(t, i);
  }

  // A swap's message: pay-in address and its extra id, refund address and its extra id, payout address and
  // its extra id, the currencies from and to, the amounts to the provider and to the wallet, the two ids and
  // the extra data.
  ghost predicate SwapRead(items: seq<Item>, m: Message) {
    && TextField(items, m, 0, 1, 151) && TextField(items, m, 1, 2, 20) && TextField(items, m, 2, 3, 151)
    && TextField(items, m, 3, 4, 20) && TextField(items, m, 4, 5, 151) && TextField(items, m, 5, 6, 20)
    && TextField(items, m, 6, 7, 10) && TextField(items, m, 7, 8, 10) && BytesField(items, m, 8, 9)
    && BytesField(items, m, 9, 10) && TextField(items, m, 10, 11, 11) && BytesField(items, m, 11, 12)
    && BytesField(items, m, 12, 13)
  }

  lemma SwapReads(items: seq<Item>, m: Message)
    requires Blocks(items, 13) && Decode(ProtocolTables.SWAP_TABLE, EncodeItems(items)) == Some(m)
    ensures SwapRead(items, m)
  {
    hide WellFormed, AllWellTyped, Decode, TextField, BytesField, Blocks;
    ProtocolTables.TablesAreWellFormed();
    var t := ProtocolTables.SWAP_TABLE;
    BlocksTyped(t, items, 13);
    FieldOfText(t, items, m, 0, 1, 151);
    FieldOfText(t, items, m, 1, 2, 20);
    FieldOfText(t, items, m, 2, 3, 151);
    FieldOfText(t, items, m, 3, 4, 20);
    FieldOfText(t, items, m, 4, 5, 151);
    FieldOfText(t, items, m, 5, 6, 20);
    FieldOfText(t, items, m, 6, 7, 10);
    FieldOfText(t, items, m, 7, 8, 10);
    FieldOfBytes(t, items, m, 8, 9);
    FieldOfBytes(t, items, m, 9, 10);
    FieldOfText(t, items, m, 10, 11, 11);
    FieldOfBytes(t, items, m, 11, 12);
    FieldOfBytes(t, items, m, 12, 13);
  }

  // A sell's message: e-mail, currency, amount and address paid, fiat currency (and amount), id and extra id.
  ghost predicate SellRead(items: seq<Item>, m: Message) {
    && TextField(items, m, 0, 1, 50) && TextField(items, m, 1, 2, 10) && BytesField(items, m, 2, 3)
    && TextField(items, m, 3, 4, 151) && TextField(items, m, 4, 5, 10) && BytesField(items, m, 6, 7)
    && TextField(items, m, 7, 8, 20)
  }

  lemma SellReads(items: seq<Item>, m: Message)
    requires Blocks(items, 8) && Decode(ProtocolTables.SELL_TABLE, EncodeItems(items)) == Some(m)
    ensures SellRead(items, m)
  {
    hide WellFormed, AllWellTyped, Decode, TextField, BytesField, Blocks;
    ProtocolTables.TablesAreWellFormed();
    var t := ProtocolTables.SELL_TABLE;
    BlocksTyped(t, items, 8);
    FieldOfText(t, items, m, 0, 1, 50);
    FieldOfText(t, items, m, 1, 2, 10);
    FieldOfBytes(t, items, m, 2, 3);
    FieldOfText(t, items, m, 3, 4, 151);
    FieldOfText(t, items, m, 4, 5, 10);
    FieldOfBytes(t, items, m, 6, 7);
    FieldOfText(t, items, m, 7, 8, 20);
  }

  // A fund's message: user, account, currency, amount and address paid, id and extra id.
  ghost predicate FundRead(items: seq<Item>, m: Message) {
    && TextField(items, m, 0, 1, 50) && TextField(items, m, 1, 2, 50) && TextField(items, m, 2, 3, 10)
    && BytesField(items, m, 3, 4) && TextField(items, m, 4, 5, 151) && BytesField(items, m, 5, 6)
    && TextField(items, m, 6, 7, 20)
  }

  lemma FundReads(items: seq<Item>, m: Message)
    requires Blocks(items, 7) && Decode(ProtocolTables.FUND_TABLE, EncodeItems(items)) == Some(m)
    ensures FundRead(items, m)
  {
    hide WellFormed, AllWellTyped, Decode, TextField, BytesField, Blocks;
    ProtocolTables.TablesAreWellFormed();
    var t := ProtocolTables.FUND_TABLE;
    BlocksTyped(t, items, 7);
    FieldOfText(t, items, m, 0, 1, 50);
    FieldOfText(t, items, m, 1, 2, 50);
    FieldOfText(t, items, m, 2, 3, 10);
    FieldOfBytes(t, items, m, 3, 4);
    FieldOfText(t, items, m, 4, 5, 151);
    FieldOfBytes(t, items, m, 5, 6);
    FieldOfText(t, items, m, 6, 7, 20);
  }

  // The items of a decimal: its coefficient is a block, its exponent a number.
  predicate DecimalItems(inner: seq<Item>) {
    forall i :: 0 <= i < |inner| ==>
      ValidItem(inner[i]) && (inner[i].tag == 1 ==> inner[i].payload.Block?)
        && (inner[i].tag == 2 ==> inner[i].payload.Number?)
  }

  lemma DecimalTyped(inner: seq<Item>)
    requires DecimalItems(inner)
    ensures AllWellTyped(ProtocolTables.UDECIMAL_TABLE, inner)
  {
    var t := ProtocolTables.UDECIMAL_TABLE;
    forall i | 0 <= i < |inner|
      ensures WellTyped(t, inner[i])
    {
      assert ValidItem(inner[i]) && t[0] == Field(1, KBytes(16), 0, 18) && t[1] == Field(2, KUint32, 2, 4);
    }
  }

  // A sell's fiat amount.
  ghost predicate AmountRead(inner: seq<Item>, m: Message) {
    && 5 < |m| && m[5].VMsg? && |m[5].fields| == 2 && m[5].fields[1] == VUint(LatestNumber(inner, 2, 0))
    && Blob(m[5].fields, 0) == Latest(inner, 1, [])
  }

  lemma AmountReads(items: seq<Item>, m: Message, inner: seq<Item>)
    requires Blocks(items, 8) && Decode(ProtocolTables.SELL_TABLE, EncodeItems(items)) == Some(m)
    requires Within(items, 6, inner) && DecimalItems(inner)
    ensures AmountRead(inner, m)
  {
    hide WellFormed, AllWellTyped, DecodeFields, Fold, Latest, LatestNumber, Within, Blocks, DecimalItems;
    ProtocolTables.TablesAreWellFormed();
    var t, sub := ProtocolTables.SELL_TABLE, ProtocolTables.UDECIMAL_TABLE;
    assert t[5] == Field(6, KMessage(sub), 1, 24);
    BlocksTyped(t, items, 8) by { SellKinds(); }
    DecimalTyped(inner);
    WholeDecodes(t, items, ZeroMessage(t));
    FindUnique(t, 5);
    MessageRead(t, items, ZeroMessage(t), 5, inner);
    ZeroField(t, 5);
    hide ZeroMessage;
    InnerReads(inner, m[5].fields);
  }

  lemma SellKinds()
    ensures forall i :: 0 <= i < |ProtocolTables.SELL_TABLE| ==>
              ProtocolTables.SELL_TABLE[i].tag <= 8 && !ProtocolTables.SELL_TABLE[i].kind.KUint32?
  {
  }

  lemma InnerReads(inner: seq<Item>, r: Message)
    requires AllWellTyped(ProtocolTables.UDECIMAL_TABLE, inner)
    requires Fold(ProtocolTables.UDECIMAL_TABLE, ZeroMessage(ProtocolTables.UDECIMAL_TABLE), inner) == Some(r)
    ensures |r| == 2 && r[1] == VUint(LatestNumber(inner, 2, 0)) && Blob(r, 0) == Latest(inner, 1, [])
  {
    hide WellFormed, AllWellTyped, Fold, Latest, LatestNumber;
    ProtocolTables.TablesAreWellFormed();
    var t := ProtocolTables.UDECIMAL_TABLE;
    var zero := ZeroMessage(t);
    assert t[0] == Field(1, KBytes(16), 0, 18) && t[1] == Field(2, KUint32, 2, 4);
    FindUnique(t, 0);
    FindUnique(t, 1);
    ZeroField(t, 0);
    ZeroField(t, 1);
    BytesRead(t, inner, zero, 0);
    NumberRead(t, inner, zero, 1);
  }

  // --- the payment ---

  // What follows the first ':'.
  function Behind(b: Bytes): Bytes { if b == [] then [] else if b[0] == 58 then b[1..] else Behind(b[1..]) }

  // The address in an array, without its header; an array with a ':' behind its text only has what follows that.
  function Unheaded(b: Bytes): Bytes {
    var t := CText(b);
    if 58 in t then Behind(t) else if 58 in b then CText(Behind(b)) else t
  }

  lemma {:induction false} BehindColon(b: Bytes)
    requires 58 in b
    ensures Colon(b) < |b| && Behind(b) == b[Colon(b) + 1..]
  {
    if b[0] != 58 { BehindColon(b[1..]); }
  }

  lemma UnheadedIs(b: Bytes)
    requires Terminated(b)
    ensures CText(Stripped(b)) == Unheaded(b)
  {
    hide CText, Colon, Behind, Stripped;
    StrippedExactly(b);
    if 58 in CText(b) { BehindColon(CText(b)); }
    if 58 in b { BehindColon(b); }
  }

  // The number of blocks a payload of this kind starts with.
  function TopField(sub: Sub): nat { if sub.IsSwap() then 13 else if sub.IsSell() then 8 else 7 }

  // The proposal sent fourth is made of these items.
  ghost predicate ProposalOf(sub: Sub, log: seq<Event>, items: seq<Item>) {
    var q := ParseTransaction(sub, DataAt(log, 3));
    && q.Some? && Plain(q.value.payload, q.value.base64) == Some(EncodeItems(items)) && Blocks(items, TopField(sub))
  }

  // The items inside the fiat amount of a sell.
  ghost predicate InnerOf(sub: Sub, items: seq<Item>, inner: seq<Item>) {
    sub.IsSell() ==> Within(items, 6, inner) && DecimalItems(inner)
  }

  // The amount of field 9 (3 in a sell, 4 in a fund), to the address of field 1 without header (4, 5), with
  // the extra data of field 13 if it has 33 bytes, or the extra id of field 2 (8, 7).
  ghost predicate PaysFields(sub: Sub, items: seq<Item>, request: Request) {
    if sub.IsSwap() then
      && BigEndian(request.amount) == BigEndian(Latest(items, 9, []))
      && request.address == Unheaded(Overlaid(items, 1, Zeros(151)))
      && request.extra == (if |Latest(items, 13, [])| == 33 then Latest(items, 13, []) else CText(Latest(items, 2, [])))
    else if sub.IsSell() then
      && BigEndian(request.amount) == BigEndian(Latest(items, 3, []))
      && request.address == CText(Latest(items, 4, [])) && request.extra == CText(Latest(items, 8, []))
    else
      && BigEndian(request.amount) == BigEndian(Latest(items, 4, []))
      && request.address == CText(Latest(items, 5, [])) && request.extra == CText(Latest(items, 7, []))
  }

  // The issued id: ten characters of field 11 in a legacy swap, else the 32 bytes of field 12 (7 in a sell, 6
  // in a fund); and of a swap's extra id and extra data at most one, the latter of 33 bytes.
  ghost predicate ChecksFields(sub: Sub, items: seq<Item>, id: Bytes) {
    && (sub.Swap? ==>
          var b := Overlaid(items, 11, Zeros(11));
          |id| >= 10 && |b| == 11 && b[..10] == id[..10] && b[10] == 0)
    && (!sub.Swap? ==>
          |id| == 32 && Latest(items, if sub.IsSwap() then 12 else if sub.IsSell() then 7 else 6, []) == id)
    && var extra := Latest(items, 13, []);
       (sub.IsSwap() && extra != [] && extra != [0] ==> |extra| == 33 && CText(Latest(items, 2, [])) == [])
  }

  // The message of a proposal, field by field.
  ghost predicate FieldsRead(sub: Sub, items: seq<Item>, m: Message) {
    if sub.IsSwap() then SwapRead(items, m) else if sub.IsSell() then SellRead(items, m) else FundRead(items, m)
  }

  lemma ProposalReads(sub: Sub, log: seq<Event>, items: seq<Item>)
    requires ProposalOf(sub, log, items) && Proposed(sub, DataAt(log, 3)).Some?
    ensures var m := Proposed(sub, DataAt(log, 3)).value.0;
            FieldsRead(sub, items, m) && Decode(TableOf(sub), EncodeItems(items)) == Some(m)
  {
    hide ParseTransaction, Plain, Decode, SwapRead, SellRead, FundRead, Blocks;
    var m := Proposed(sub, DataAt(log, 3)).value.0;
    if sub.IsSwap() {
      SwapReads(items, m);
    } else if sub.IsSell() {
      SellReads(items, m);
    } else {
      FundReads(items, m);
    }
  }

  /** What is paid, by field: in every run, when the signing application is started and the payload sent fourth
      is the encoding of some items, the request pays the amount, address and extra of the last block with the
      numbers of these fields. */
  lemma PaymentByField(p: Platform, boot: Word, inputs: seq<Input>, i: Input, request: Request, items: seq<Item>)
    requires Launched(request) in Step(p, Run(p, boot, inputs), i).1
    requires var w := Run(p, boot, inputs); ProposalOf(w.context.sub, w.log, items)
    ensures var w := Run(p, boot, inputs);
            PaysFields(w.context.sub, items, request) && ChecksFields(w.context.sub, items, w.context.id)
            && w.log[0] == Started(w.context.sub, w.context.id)
  {
    hide Run, Step, ProposalOf, Pays, PaysFields, ChecksFields, RequestOf, Accept, CompleteFlow, FieldsRead, Proposed,
         PartnerKnown, PartnerVouched, ProposalRead, ProposalSigned;
    var w := Run(p, boot, inputs);
    var sub := w.context.sub;
    SignedIsProposed(p, boot, inputs, i, request);
    LaunchMeans(p, w, i, request);
    AuthenticatedTransaction(p, boot, inputs);
    ProposalReads(sub, w.log, items);
    var (m, fees) := Proposed(sub, DataAt(w.log, 3)).value;
    ProposalChecked(p, w.context, w.log);
    FieldsPay(sub, items, m, fees, request);
    FieldsCheck(sub, items, m, w.context.id);
  }

  lemma ProposalChecked(p: Platform, c: Context, log: seq<Event>)
    requires ProposalRead(p, c, log)
    ensures Proposed(c.sub, DataAt(log, 3)).Some?
    ensures var m := Proposed(c.sub, DataAt(log, 3)).value.0; ExtraOk(c.sub, m) && IdMatches(c.sub, m, c.id)
  {
    hide ParseTransaction, Deserialize, Prepared, ExtraOk, IdMatches, Resolving;
  }

  lemma FieldsPay(sub: Sub, items: seq<Item>, m: Message, fees: Bytes, request: Request)
    requires FieldsRead(sub, items, m) && Pays(request, sub, m, fees)
    ensures PaysFields(sub, items, request)
  {
    hide CText, Unheaded, BigEndian, Overlaid, Latest, Stripped;
    if sub.IsSwap() {
      OverlaidEnds(items, 1, Zeros(151));
      UnheadedIs(Overlaid(items, 1, Zeros(151)));
    }
  }

  lemma {:induction false} OverlaidEnds(items: seq<Item>, number: nat, buf: Bytes)
    requires Terminated(buf)
    ensures Terminated(Overlaid(items, number, buf)) && |Overlaid(items, number, buf)| == |buf|
    decreases items
  {
    if items != [] {
      var it := items[0];
      if it.tag == number && it.payload.Block? && |it.payload.b| < |buf| {
        OverlaidEnds(items[1..], number, it.payload.b + [0] + buf[|it.payload.b| + 1..]);
      } else {
        OverlaidEnds(items[1..], number, buf);
      }
    }
  }

  lemma FieldsCheck(sub: Sub, items: seq<Item>, m: Message, id: Bytes)
    requires FieldsRead(sub, items, m) && ExtraOk(sub, m) && IdMatches(sub, m, id)
    ensures ChecksFields(sub, items, id)
  {
    hide CText, Overlaid, Latest;
    OverlaidEnds(items, 11, Zeros(11));
  }
}
