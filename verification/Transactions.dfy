/** The partner's transaction: decoding it, checking it, and bringing it into the form the exchange
    uses (src/process_transaction.c). */
module Transactions {
  import opened Common
  import opened Commands
  import opened Pb
  import opened Normalize
  import ProtocolTables
  import Base64Url
  import PbStream
  import PbDecoder

  function TableOf(sub: Sub): Table {
    if sub.IsSwap() then ProtocolTables.SWAP_TABLE
    else if sub.IsSell() then ProtocolTables.SELL_TABLE
    else ProtocolTables.FUND_TABLE
  }

  // --- fields ---

  // A char buffer, and the counted bytes of a byte array.
  function Str(m: Message, i: nat): Bytes { if i < |m| && m[i].VString? then m[i].buf else [] }

  function Blob(m: Message, i: nat): Bytes {
    if i < |m| && m[i].VBytes? && m[i].size <= |m[i].buf| then m[i].buf[..m[i].size] else []
  }

  function SetStr(m: Message, i: nat, b: Bytes): (r: Message)
    ensures |r| == |m| && forall j :: 0 <= j < |m| && j != i ==> r[j] == m[j]
    ensures Str(m, i) != [] ==> Str(r, i) == b
  {
    if i < |m| && m[i].VString? then m[i := VString(b)] else m
  }

  function TrimBlob(m: Message, i: nat): (r: Message)
    ensures |r| == |m| && forall j :: 0 <= j < |m| && j != i ==> r[j] == m[j]
  {
    if i < |m| && m[i].VBytes? && m[i].size <= |m[i].buf| then
      var (n, b) := Trimmed(m[i].size, m[i].buf);
      m[i := VBytes(n, b)]
    else m
  }

  // Where the fields are.
  const PAYIN_ADDRESS: nat := 0
  const PAYIN_EXTRA_ID: nat := 1
  const REFUND_ADDRESS: nat := 2
  const REFUND_EXTRA_ID: nat := 3
  const PAYOUT_ADDRESS: nat := 4
  const PAYOUT_EXTRA_ID: nat := 5
  const CURRENCY_FROM: nat := 6
  const CURRENCY_TO: nat := 7
  const AMOUNT_TO_PROVIDER: nat := 8
  const AMOUNT_TO_WALLET: nat := 9
  const SWAP_ID: nat := 10
  const SWAP_ID_NG: nat := 11
  const PAYIN_EXTRA_DATA: nat := 12

  const TRADER_EMAIL: nat := 0
  const SELL_IN_CURRENCY: nat := 1
  const SELL_IN_AMOUNT: nat := 2
  const SELL_IN_ADDRESS: nat := 3
  const OUT_CURRENCY: nat := 4
  const OUT_AMOUNT: nat := 5
  const SELL_ID: nat := 6
  const SELL_IN_EXTRA_ID: nat := 7

  const USER_ID: nat := 0
  const ACCOUNT_NAME: nat := 1
  const FUND_IN_CURRENCY: nat := 2
  const FUND_IN_AMOUNT: nat := 3
  const FUND_IN_ADDRESS: nat := 4
  const FUND_ID: nat := 5
  const FUND_IN_EXTRA_ID: nat := 6

  // What the paying side sends, where to, and in which currency.
  function InCurrency(sub: Sub, m: Message): Bytes {
    Str(m, if sub.IsSwap() then CURRENCY_FROM else if sub.IsSell() then SELL_IN_CURRENCY else FUND_IN_CURRENCY)
  }

  function InAmount(sub: Sub, m: Message): Bytes {
    Blob(m, if sub.IsSwap() then AMOUNT_TO_PROVIDER else if sub.IsSell() then SELL_IN_AMOUNT else FUND_IN_AMOUNT)
  }

  function InAddress(sub: Sub, m: Message): Bytes {
    CText(Str(m, if sub.IsSwap() then PAYIN_ADDRESS else if sub.IsSell() then SELL_IN_ADDRESS else FUND_IN_ADDRESS))
  }

  // The extra id of the paying side; in a swap, extra data of 33 bytes takes its place.
  function InExtra(sub: Sub, m: Message): Bytes {
    if sub.IsSwap() && |Blob(m, PAYIN_EXTRA_DATA)| == 33 then Blob(m, PAYIN_EXTRA_DATA)
    else CText(Str(m, if sub.IsSwap() then PAYIN_EXTRA_ID else if sub.IsSell() then SELL_IN_EXTRA_ID
                   else FUND_IN_EXTRA_ID))
  }

  // --- decoding ---

  // The bytes to decode; None when the base64 text is no good or empty.
  function Plain(payload: Bytes, base64: bool): Option<Bytes> {
    if !base64 then Some(payload)
    else match Base64Url.DecodeInto(512, payload)
         case None => None
         case Some(d) => if d == [] then None else Some(d)
  }

  datatype Deserialized = Unreadable | Broken | Ready(message: Message)

  // Unreadable leaves the shared buffer alone, Broken leaves something else there.
  function Deserialize(sub: Sub, payload: Bytes, base64: bool): Deserialized {
    match Plain(payload, base64)
    case None => Unreadable
    case Some(d) => match Decode(TableOf(sub), d) case None => Broken case Some(m) => Ready(m)
  }

  method DeserializeProtobufPayload(payload: Bytes, sub: Sub, base64: bool) returns (r: Deserialized)
    ensures r == Deserialize(sub, payload, base64)
  {
    hide TableOf, Decode;
    var data := payload;
    if base64 {
      var decoded := new byte[512];
      var n := Base64Url.Decode(decoded, 512, payload);
      if n <= 0 {
        return Unreadable;
      }
      data := decoded[..n];
    }
    r := DecodeMessage(TableOf(sub), sub, data);
  }

  method DecodeMessage(t: Table, ghost sub: Sub, data: Bytes) returns (r: Deserialized)
    requires t == TableOf(sub)
    ensures r == match Decode(t, data) case None => Broken case Some(m) => Ready(m)
  {
    ProtocolTables.TablesAreWellFormed();
    hide Decode, WellFormed;
    var stream := new PbStream.Stream.FromBuffer(data);
    var mem := new byte[Size(t)];
    var ok := PbDecoder.PbDecode(stream, t, mem, 0);
    if !ok {
      return Broken;
    }
    r := Ready(PbDecoder.Load(mem[..], 0, t));
  }

  // --- checks ---

  // At most one of extra id and extra data, and data only in its one format; a single zero byte is
  // the native format, which is no data.
  function ExtraOk(sub: Sub, m: Message): bool {
    var id, data := Str(m, PAYIN_EXTRA_ID), Blob(m, PAYIN_EXTRA_DATA);
    sub.IsSwap() && data != [] && data != [0] ==> CText(id) == [] && |data| == 33
  }

  method CheckExtraIdExtraData(sub: Sub, m: Message) returns (ok: bool)
    ensures ok <==> ExtraOk(sub, m)
  {
    if sub.IsSwap() {
      var extra := Blob(m, PAYIN_EXTRA_DATA);
      var id := Str(m, PAYIN_EXTRA_ID);
      var hasId := id != [] && id[0] != 0;
      var hasData := |extra| != 0 && !(|extra| == 1 && extra[0] == 0);
      if hasId && hasData {
        return false;
      }
      if hasData {
        if |extra| != 33 {
          return false;
        }
      }
    }
    return true;
  }

  // The issued id: ten characters in a legacy swap, 32 bytes otherwise.
  function IssuedId(sub: Sub, id: Bytes): Bytes { if sub.Swap? && |id| >= 10 then id[..10] else id }

  // The id inside the transaction; None when it is not in its format.
  function CarriedId(sub: Sub, m: Message): Option<Bytes> {
    if sub.Swap? then
      var id := Str(m, SWAP_ID);
      if |id| > 10 && id[10] == 0 then Some(id[..10]) else None
    else
      var id := Blob(m, if sub.IsSell() then SELL_ID else if sub.IsFund() then FUND_ID else SWAP_ID_NG);
      if |id| == 32 then Some(id) else None
  }

  predicate IdMatches(sub: Sub, m: Message, id: Bytes) { CarriedId(sub, m) == Some(IssuedId(sub, id)) }

  method CheckTransactionId(sub: Sub, m: Message, id: Bytes) returns (ok: bool)
    ensures ok <==> IdMatches(sub, m, id)
  {
    if sub.Swap? {
      var carried := Str(m, SWAP_ID);
      if |carried| <= 10 || carried[10] != 0 {
        return false;
      }
      ok := IssuedId(sub, id) == carried[..10];
    } else {
      var carried;
      if sub.IsSell() {
        carried := Blob(m, SELL_ID);
      } else if sub.IsFund() {
        carried := Blob(m, FUND_ID);
      } else {
        carried := Blob(m, SWAP_ID_NG);
      }
      if |carried| != 32 {
        return false;
      }
      ok := id == carried;
    }
  }

  // --- the form the exchange uses ---

  function NormaliseName(m: Message, i: nat): Message { SetStr(m, i, LedgerName(Upper(Str(m, i)))) }

  function Normalised(sub: Sub, m: Message): Message {
    if sub.IsSwap() then
      var named := NormaliseName(NormaliseName(m, CURRENCY_FROM), CURRENCY_TO);
      SetStr(named, PAYIN_ADDRESS, Stripped(Str(named, PAYIN_ADDRESS)))
    else NormaliseName(m, if sub.IsSell() then SELL_IN_CURRENCY else FUND_IN_CURRENCY)
  }

  function WithTrimmedAmounts(sub: Sub, m: Message): Message {
    if sub.IsSwap() then TrimBlob(TrimBlob(m, AMOUNT_TO_PROVIDER), AMOUNT_TO_WALLET)
    else TrimBlob(m, if sub.IsSell() then SELL_IN_AMOUNT else FUND_IN_AMOUNT)
  }

  function Prepared(sub: Sub, m: Message): Message { WithTrimmedAmounts(sub, Normalised(sub, m)) }

  method NormalizeCurrency(m: Message, i: nat) returns (r: Message)
    ensures r == NormaliseName(m, i)
  {
    var name := ToUppercase(Str(m, i));
    name := SetLedgerCurrencyName(name);
    r := SetStr(m, i, name);
  }

  method NormalizeCurrencies(sub: Sub, m: Message) returns (r: Message)
    ensures r == Normalised(sub, m)
  {
    hide NormaliseName, SetStr, Str;
    if sub.IsSwap() {
      r := NormalizeCurrency(m, CURRENCY_FROM);
      r := NormalizeCurrency(r, CURRENCY_TO);
      var address := StripHeader(Str(r, PAYIN_ADDRESS));
      r := SetStr(r, PAYIN_ADDRESS, address);
    } else if sub.IsSell() {
      r := NormalizeCurrency(m, SELL_IN_CURRENCY);
    } else {
      r := NormalizeCurrency(m, FUND_IN_CURRENCY);
    }
  }

  method TrimAmount(m: Message, i: nat) returns (r: Message)
    ensures r == TrimBlob(m, i)
  {
    if i < |m| && m[i].VBytes? && m[i].size <= |m[i].buf| {
      var size, bytes := TrimPbBytesArray(m[i].size, m[i].buf);
      r := m[i := VBytes(size, bytes)];
    } else {
      r := m;
    }
  }

  method TrimAmounts(sub: Sub, m: Message) returns (r: Message)
    ensures r == WithTrimmedAmounts(sub, m)
  {
    hide TrimBlob;
    if sub.IsSwap() {
      r := TrimAmount(m, AMOUNT_TO_PROVIDER);
      r := TrimAmount(r, AMOUNT_TO_WALLET);
    } else if sub.IsSell() {
      r := TrimAmount(m, SELL_IN_AMOUNT);
    } else {
      r := TrimAmount(m, FUND_IN_AMOUNT);
    }
  }

  // --- what preparing means ---

  // The fields that preparing may rewrite.
  predicate Rewritten(sub: Sub, j: nat) {
    if sub.IsSwap() then j == PAYIN_ADDRESS || j == CURRENCY_FROM || j == CURRENCY_TO || j == AMOUNT_TO_PROVIDER
      || j == AMOUNT_TO_WALLET
    else if sub.IsSell() then j == SELL_IN_CURRENCY || j == SELL_IN_AMOUNT
    else j == FUND_IN_CURRENCY || j == FUND_IN_AMOUNT
  }

  lemma PreparedKeeps(sub: Sub, m: Message, j: nat)
    ensures |Prepared(sub, m)| == |m| && (j < |m| && !Rewritten(sub, j) ==> Prepared(sub, m)[j] == m[j])
  {
    hide Str, LedgerName, Upper, Stripped;
  }

  lemma Trims(m: Message, i: nat)
    ensures BigEndian(Blob(TrimBlob(m, i), i)) == BigEndian(Blob(m, i))
    ensures Blob(TrimBlob(m, i), i) == [] || Blob(TrimBlob(m, i), i)[0] != 0
    ensures forall j: nat :: j != i ==> Blob(TrimBlob(m, i), j) == Blob(m, j)
  {
    hide Trimmed, BigEndian;
    if i < |m| && m[i].VBytes? && m[i].size <= |m[i].buf| { TrimmedAmount(m[i].size, m[i].buf); }
  }

  lemma NamesKeepBlobs(m: Message, i: nat, b: Bytes, j: nat)
    ensures Blob(SetStr(m, i, b), j) == Blob(m, j)
  {
  }

  /** Preparing keeps the amounts as numbers, without leading zeros, and everything an id check or an extra
      check looks at. */
  lemma PreparedMeaning(sub: Sub, m: Message, id: Bytes)
    ensures var r := Prepared(sub, m);
            && BigEndian(InAmount(sub, r)) == BigEndian(InAmount(sub, m))
               && (InAmount(sub, r) == [] || InAmount(sub, r)[0] != 0)
            && (sub.IsSwap() ==> BigEndian(Blob(r, AMOUNT_TO_WALLET)) == BigEndian(Blob(m, AMOUNT_TO_WALLET)))
            && IdMatches(sub, r, id) == IdMatches(sub, m, id)
            && ExtraOk(sub, r) == ExtraOk(sub, m)
  {
    hide Prepared, BigEndian, ExtraOk, CarriedId, TableOf, Blob, InAmount;
    AmountsKept(sub, m);
    IdKept(sub, m);
    ExtraKept(sub, m);
  }

  lemma IdKept(sub: Sub, m: Message)
    ensures CarriedId(sub, Prepared(sub, m)) == CarriedId(sub, m)
  {
    hide Prepared, CarriedId;
    PreparedKeeps(sub, m, IdAt(sub));
    SameId(sub, m, Prepared(sub, m));
  }

  function IdAt(sub: Sub): nat {
    if sub.Swap? then SWAP_ID else if sub.IsSell() then SELL_ID else if sub.IsFund() then FUND_ID else SWAP_ID_NG
  }

  lemma SameId(sub: Sub, m: Message, r: Message)
    requires |r| == |m| && (IdAt(sub) < |m| ==> r[IdAt(sub)] == m[IdAt(sub)])
    ensures CarriedId(sub, r) == CarriedId(sub, m)
  {
  }

  lemma ExtraKept(sub: Sub, m: Message)
    ensures ExtraOk(sub, Prepared(sub, m)) == ExtraOk(sub, m)
  {
    PreparedKeeps(sub, m, PAYIN_EXTRA_ID);
    PreparedKeeps(sub, m, PAYIN_EXTRA_DATA);
    hide Prepared, CText;
  }

  lemma AmountsKept(sub: Sub, m: Message)
    ensures var r := Prepared(sub, m);
            && BigEndian(InAmount(sub, r)) == BigEndian(InAmount(sub, m))
               && (InAmount(sub, r) == [] || InAmount(sub, r)[0] != 0)
            && (sub.IsSwap() ==> BigEndian(Blob(r, AMOUNT_TO_WALLET)) == BigEndian(Blob(m, AMOUNT_TO_WALLET)))
  {
    var n := Normalised(sub, m);
    hide TrimBlob, BigEndian, Blob, Normalised;
    BlobsNormalised(sub, m);
    if sub.IsSwap() {
      Trims(n, AMOUNT_TO_PROVIDER);
      Trims(TrimBlob(n, AMOUNT_TO_PROVIDER), AMOUNT_TO_WALLET);
    } else if sub.IsSell() {
      Trims(n, SELL_IN_AMOUNT);
    } else {
      Trims(n, FUND_IN_AMOUNT);
    }
  }

  lemma BlobsNormalised(sub: Sub, m: Message)
    ensures forall j: nat :: Blob(Normalised(sub, m), j) == Blob(m, j)
  {
    hide Blob, SetStr, Str, LedgerName, Upper, Stripped;
    forall j: nat | true
      ensures Blob(Normalised(sub, m), j) == Blob(m, j)
    {
      if sub.IsSwap() {
        var a := NormaliseName(m, CURRENCY_FROM);
        var b := NormaliseName(a, CURRENCY_TO);
        NamesKeepBlobs(m, CURRENCY_FROM, LedgerName(Upper(Str(m, CURRENCY_FROM))), j);
        NamesKeepBlobs(a, CURRENCY_TO, LedgerName(Upper(Str(a, CURRENCY_TO))), j);
        NamesKeepBlobs(b, PAYIN_ADDRESS, Stripped(Str(b, PAYIN_ADDRESS)), j);
      } else if sub.IsSell() {
        NamesKeepBlobs(m, SELL_IN_CURRENCY, LedgerName(Upper(Str(m, SELL_IN_CURRENCY))), j);
      } else {
        NamesKeepBlobs(m, FUND_IN_CURRENCY, LedgerName(Upper(Str(m, FUND_IN_CURRENCY))), j);
      }
    }
  }
}
