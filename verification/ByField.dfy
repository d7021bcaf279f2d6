/** What the user approves, in terms of the credentials' bytes and of the payload's fields by number
    (src/ui/validate_transaction_nbgl.c, src/check_addresses_and_amounts.c, src/proto/protocol.proto). */
module ByField {
  import opened Common
  import opened Commands
  import opened Messages
  import opened Normalize
  import opened Transactions
  import opened Pb
  import opened PbLaws
  import opened Flow
  import opened Apdu
  import opened Device
  import opened Replay
  import opened FlowLaws
  import opened FlowTheorems
  import opened TransactionShape
  import opened Payloads
  import Buf
  import Review
  import Decimal

  // --- the fiat amount of a sell ---

  // Bytes that are the characters of a string, eight bits of each.
  predicate Spells(b: Bytes, s: string) { |b| == |s| && forall k :: 0 <= k < |b| ==> b[k] as int == s[k] as int % 256 }

  lemma AsciiSpells(s: string)
    ensures Spells(Ascii(s), s)
  {
  }

  lemma {:induction false} CStringParts(s: string)
    ensures match Decimal.CString(s)
            case None => true
            case Some(t) => t <= s && |t| < |s| && s[|t|] == Decimal.NUL
  {
    if s != "" && s[0] != Decimal.NUL { CStringParts(s[1..]); }
  }

  lemma DenotesPlain(t: string, c: nat, e: nat)
    requires Decimal.Denotes(t, c, e)
    ensures forall k :: 0 <= k < |t| ==> 0 < t[k] as int < 256
  {
    hide Decimal.ValueOf;
    var dot := |t| - 1 - e;
    assert forall k :: 0 <= k < dot ==> t[k] == t[..dot][k];
    assert forall k :: dot < k < |t| ==> t[k] == t[dot + 1..][k - dot - 1];
  }

  // The currency, a space, and the amount: of its right value when the coefficient is below 2^63, the exponent
  // below 256, and a fraction without integer part fits behind the currency.
  ghost predicate FiatShown(text: Bytes, currency: Bytes, c: nat, e: nat) {
    var n := |currency| + 1;
    && n < 50 && currency + [32] <= text
    && (c < TWO_63 && e < 256 && (|Decimal.Text(c)| <= e ==> e + 2 < 50 - n) ==>
          exists t: string :: Decimal.Denotes(t, c, e) && Spells(text[n..], t))
  }

  /** The fiat text shows field 5, a space, and the decimal of fields 1 and 2 inside field 6. */
  lemma FiatByField(items: seq<Item>, inner: seq<Item>, m: Message, text: Bytes)
    requires SellRead(items, m) && AmountRead(inner, m) && FiatAmount(m) == Some(text)
    ensures FiatShown(text, CText(Latest(items, 5, [])), BigEndian(Latest(inner, 1, [])), LatestNumber(inner, 2, 0))
  {
    hide CText, BigEndian, Latest, LatestNumber, Overlaid, Decimal.FiatText, Decimal.Denotes, Decimal.Text;
    var currency := CText(Str(m, 4));
    var coefficient, e := Latest(inner, 1, []), LatestNumber(inner, 2, 0);
    var c := BigEndian(coefficient);
    var was := Decimal.Repeat(Decimal.NUL, 49 - |currency|);
    var s := Decimal.FiatText(was, coefficient, e).value;
    assert text == CText(currency + [32] + Ascii(s));
    Decimal.FiatTextIsRight(was, coefficient, e);
    BehindCurrency(currency, s, text);
    if c < TWO_63 && e < 256 && (|Decimal.Text(c)| <= e ==> e + 2 < 49 - |currency|) {
      var t := Decimal.CString(s).value;
      CStringParts(s);
      DenotesPlain(t, c, e);
      AmountText(currency, s, t, text);
      assert text[|currency| + 1..] == Ascii(t);
      AsciiSpells(t);
    }
  }

  lemma BehindCurrency(currency: Bytes, s: string, text: Bytes)
    requires text == CText(currency + [32] + Ascii(s)) && 0 !in currency
    ensures currency + [32] <= text
  {
    var b := currency + [32] + Ascii(s);
    hide Ascii;
    assert forall i :: 0 <= i <= |currency| ==> b[i] == (currency + [32])[i] && b[i] != 0;
    assert |text| > |currency|;
    hide CText;
    assert forall i :: 0 <= i <= |currency| ==> text[i] == b[i];
  }

  lemma AmountText(currency: Bytes, s: string, t: string, text: Bytes)
    requires text == CText(currency + [32] + Ascii(s)) && 0 !in currency
    requires t <= s && |t| < |s| && s[|t|] == Decimal.NUL && forall k :: 0 <= k < |t| ==> 0 < t[k] as int < 256
    ensures text == currency + [32] + Ascii(t)
  {
    hide CText, Ascii;
    var u := s[|t|..];
    AsciiJoins(t, u);
    assert t + u == s;
    AsciiPlain(t);
    assert Ascii(u)[0] == 0 by { AsciiSpells(u); }
    assert currency + [32] + (Ascii(t) + Ascii(u)) == (currency + [32] + Ascii(t)) + Ascii(u);
    CTextOf(currency + [32] + Ascii(t), Ascii(u));
  }

  lemma AsciiPlain(t: string)
    requires forall k :: 0 <= k < |t| ==> 0 < t[k] as int < 256
    ensures 0 !in Ascii(t)
  {
  }

  lemma AsciiJoins(a: string, b: string)
    ensures Ascii(a + b) == Ascii(a) + Ascii(b)
  {
  }

  // --- the list of the review ---

  // What a review shows: the kind of flow, the mark of a foreign address, the kind of screen and of rate, and
  // the texts.
  datatype Shown = Shown(sub: Sub, marked: bool, wallet: bool, floating: bool, partner: Bytes, person: Bytes,
                         send: Bytes,
                         received: Bytes, fees: Bytes, address: Bytes)

  predicate IsPair(q: Pair, item: string, value: Bytes) { Spells(q.item, item) && q.value == value }

  predicate IsText(q: Pair, item: string, value: string) { Spells(q.item, item) && Spells(q.value, value) }

  function Warnings(s: Shown): nat { if s.marked && !s.wallet then 2 else 0 }

  function HeadCount(s: Shown): nat {
    Warnings(s) + (if s.sub.IsFund() then 0 else 1) + (if s.sub.IsSwap() then 0 else 1)
  }

  // On a small screen the warning about a foreign address; the partner, in a swap or sell; and the person, in a
  // sell or fund.
  ghost predicate HeadLists(head: seq<Pair>, s: Shown) {
    var a := Warnings(s);
    && |head| == HeadCount(s)
    && (a == 2 ==>
          && IsText(head[0], "Warning", "Receive address does not belong to this Ledger device")
          && IsText(head[1], "Learn more at", "ledger.com/e13"))
    && (!s.sub.IsFund() ==> IsPair(head[a], "Exchange partner", s.partner))
    && (s.sub.IsSell() ==> IsPair(head[a + 1], "Email", s.person))
       && (s.sub.IsFund() ==> IsPair(head[a], "User", s.person))
  }

  /** The review, pair by pair: these; what is sent; what is received, which a fund names by the partner; the
      fees; and a foreign address. */
  ghost predicate Lists(review: seq<Pair>, s: Shown) {
    var c := HeadCount(s);
    && |review| == (if s.marked then c + 4 else c + 3) && HeadLists(review[..c], s)
    && IsPair(review[c], "Send", s.send)
    && (if s.sub.IsFund() then review[c + 1] == Pair(s.partner, s.received)
        else IsPair(review[c + 1], if s.floating then "Receive estimated" else "Receive", s.received))
    && IsPair(review[c + 2], "Fees", s.fees)
    && (s.marked ==> IsPair(review[c + 3], "Receive address", s.address))
  }

  lemma ReviewStrings()
    ensures forall s: string :: Spells(Ascii(s), s)
  {
    forall s: string | true
      ensures Spells(Ascii(s), s)
    {
      AsciiSpells(s);
    }
  }

  // The texts of a context, and those of its message that the review shows.
  function ShownOf(p: Platform, c: Context): Shown {
    var m := MessageIn(c.shared);
    Shown(c.sub, c.otherSeed, p.wallet, c.rate == 1, c.partnerName, CText(Str(m, 0)), c.sendText, c.getText, c.feesText,
          CText(Str(m, 4)))
  }

  lemma HeadListed(p: Platform, c: Context)
    ensures HeadLists(ReviewHead(p, c), ShownOf(p, c))
  {
    hide Ascii, CText, Str, Spells;
    ReviewStrings();
    var w, q, r := ReviewWarning(p, c), ReviewPartner(c), ReviewPerson(c);
    var head := ReviewHead(p, c);
    assert head == w + q + r;
    assert w != [] ==> head[0] == w[0] && head[1] == w[1];
    assert q != [] ==> head[|w|] == q[0];
    assert r != [] ==> head[|w| + |q|] == r[0];
    if c.otherSeed && !p.wallet { WarningListed(p, c); }
  }

  lemma WarningListed(p: Platform, c: Context)
    requires c.otherSeed && !p.wallet
    ensures var w := ReviewWarning(p, c);
            |w| == 2 && IsText(w[0], "Warning", "Receive address does not belong to this Ledger device")
  {
    AsciiSpells("Warning");
    AsciiSpells("Receive address does not belong to this Ledger device");
    hide Ascii, Spells;
  }

  lemma ReviewLists(p: Platform, c: Context)
    ensures Lists(ReviewPairs(p, c), ShownOf(p, c))
  {
    hide Ascii, CText, Str, Spells, ReviewHead, HeadLists, HeadCount;
    ReviewStrings();
    HeadListed(p, c);
    HeadLength(ReviewHead(p, c), ShownOf(p, c));
    var head, mid := ReviewHead(p, c), [Pair(Ascii("Send"), c.sendText), ReviewGet(c), Pair(Ascii("Fees"), c.feesText)];
    var n := |head|;
    var review := ReviewPairs(p, c);
    assert review == head + mid + ReviewTail(c) && review[..n] == head;
    assert review[n] == mid[0] && review[n + 1] == mid[1] && review[n + 2] == mid[2];
  }

  lemma HeadLength(head: seq<Pair>, s: Shown)
    requires HeadLists(head, s)
    ensures |head| == HeadCount(s)
  {
  }

  // --- the message behind the review ---

  // A text after the trusted names of the history: whatever bears a name gets the owner's address, if that fits.
  function RenamedText(p: Platform, log: seq<Event>, text: Bytes): Bytes {
    if log == [] then text
    else
      var was, e := RenamedText(p, log[..|log| - 1], text), log[|log| - 1];
      if !e.Did? || !e.command.ins.TrustedName? then was
      else match p.readDescriptor(e.command.data)
           case BadDescriptor(_) => was
           case Descriptor(_, _, _, name, owner) => if was == name && |owner| <= 150 then CText(owner) else was
  }

  // A field of 151 characters under one trusted name.
  lemma OneRenamed(m: Message, name: Bytes, owner: Bytes)
    requires |m| > 4 && m[4].VString? && |m[4].buf| == 151 && m[2].VString? && |m[2].buf| == 151
    ensures var r := ResolveNames(m, name, owner).0;
            && |r| == |m| && r[4].VString? && |r[4].buf| == 151 && r[2].VString? && |r[2].buf| == 151
            && CText(r[4].buf) == (if CText(m[4].buf) == name && |owner| <= 150 then CText(owner) else CText(m[4].buf))
            && CText(r[2].buf) == (if CText(m[2].buf) == name && |owner| <= 150 then CText(owner) else CText(m[2].buf))
  {
    hide CText, Resolved;
    ResolvedText(m[4].buf, name, owner);
    ResolvedText(m[2].buf, name, owner);
    ResolvedWhen(m[4].buf, name, owner);
    ResolvedWhen(m[2].buf, name, owner);
  }

  lemma ResolvedWhen(b: Bytes, name: Bytes, owner: Bytes)
    ensures Resolved(b, name, owner).Some? <==> CText(b) == name && |owner| < |b|
  {
    hide CText;
  }

  /** The two resolvable texts after the trusted names of a history. */
  lemma {:induction false} ResolvingTexts(p: Platform, m: Message, log: seq<Event>)
    requires |m| > 4 && m[4].VString? && |m[4].buf| == 151 && m[2].VString? && |m[2].buf| == 151
    ensures var r := Resolving(p, m, log);
            && |r| == |m| && r[4].VString? && |r[4].buf| == 151 && r[2].VString? && |r[2].buf| == 151
            && CText(r[4].buf) == RenamedText(p, log, CText(m[4].buf))
            && CText(r[2].buf) == RenamedText(p, log, CText(m[2].buf))
  {
    if log != [] {
      hide CText, ResolveNames;
      var front, e := log[..|log| - 1], log[|log| - 1];
      ResolvingTexts(p, m, front);
      if e.Did? && e.command.ins.TrustedName? {
        match p.readDescriptor(e.command.data)
        case BadDescriptor(_) =>
        case Descriptor(_, _, _, name, owner) => OneRenamed(Resolving(p, m, front), name, owner);
      }
    }
  }

  // The message of the context, by field: the payload's, with the currencies under the exchange's names, the
  // amounts as numbers, and trusted names replaced.
  ghost predicate MessageByField(p: Platform, sub: Sub, log: seq<Event>, items: seq<Item>, n: Message) {
    if sub.IsSwap() then
      && CText(Str(n, 4)) == RenamedText(p, log, CText(Latest(items, 5, [])))
      && CText(Str(n, 2)) == RenamedText(p, log, CText(Latest(items, 3, [])))
      && CText(Str(n, 5)) == CText(Latest(items, 6, [])) && CText(Str(n, 3)) == CText(Latest(items, 4, []))
      && CText(Str(n, 6)) == KnownAs(CText(Latest(items, 7, [])))
         && CText(Str(n, 7)) == KnownAs(CText(Latest(items, 8, [])))
      && BigEndian(Blob(n, 8)) == BigEndian(Latest(items, 9, []))
         && BigEndian(Blob(n, 9)) == BigEndian(Latest(items, 10, []))
    else if sub.IsSell() then
      && CText(Str(n, 0)) == CText(Latest(items, 1, [])) && CText(Str(n, 1)) == KnownAs(CText(Latest(items, 2, [])))
      && BigEndian(Blob(n, 2)) == BigEndian(Latest(items, 3, []))
    else
      && CText(Str(n, 0)) == CText(Latest(items, 1, [])) && CText(Str(n, 1)) == CText(Latest(items, 2, []))
      && CText(Str(n, 2)) == KnownAs(CText(Latest(items, 3, [])))
         && BigEndian(Blob(n, 3)) == BigEndian(Latest(items, 4, []))
  }

  lemma PreparedByField(p: Platform, sub: Sub, log: seq<Event>, items: seq<Item>, m: Message)
    requires FieldsRead(sub, items, m) && Shaped(TableOf(sub), m)
    requires !sub.IsSwap() ==> Resolving(p, Prepared(sub, m), log) == Prepared(sub, m)
    ensures MessageByField(p, sub, log, items, Resolving(p, Prepared(sub, m), log))
  {
    hide Prepared, Resolving, CText, KnownAs, Latest, Overlaid, Shaped, TableOf, BigEndian;
    PreparedTexts(sub, m);
    PreparedMeaning(sub, m, []);
    if sub.IsSwap() {
      SwapPrepared(p, sub, log, items, m);
    } else {
      PreparedKeeps(sub, m, 0);
      PreparedKeeps(sub, m, 1);
    }
  }

  lemma SwapPrepared(p: Platform, sub: Sub, log: seq<Event>, items: seq<Item>, m: Message)
    requires SwapRead(items, m) && Shaped(TableOf(sub), m) && sub.IsSwap()
    ensures MessageByField(p, sub, log, items, Resolving(p, Prepared(sub, m), log))
  {
    hide Prepared, Resolving, CText, KnownAs, Latest, Overlaid, BigEndian, TableOf, Shaped;
    var r := Prepared(sub, m);
    TextAt(sub, m, PAYOUT_ADDRESS);
    TextAt(sub, m, REFUND_ADDRESS);
    SwapSizes(items, m);
    PreparedTexts(sub, m);
    PreparedMeaning(sub, m, []);
    PreparedKeeps(sub, m, 2);
    PreparedKeeps(sub, m, 3);
    PreparedKeeps(sub, m, 4);
    PreparedKeeps(sub, m, 5);
    ResolvingTexts(p, r, log);
    ResolvingTouches(p, r, log, 3);
    ResolvingTouches(p, r, log, 5);
    ResolvingTouches(p, r, log, 6);
    ResolvingTouches(p, r, log, 7);
    ResolvingTouches(p, r, log, 8);
    ResolvingTouches(p, r, log, 9);
  }

  lemma SwapSizes(items: seq<Item>, m: Message)
    requires SwapRead(items, m)
    ensures |Str(m, 4)| == 151 && |Str(m, 2)| == 151
  {
    OverlaidEnds(items, 5, Zeros(151));
    OverlaidEnds(items, 3, Zeros(151));
  }

  // --- the commands behind the review ---

  // The credentials start with the length of a name and the name; a fund shows "To " in front of it.
  ghost predicate PartnerShown(sub: Sub, data: Bytes, partner: Bytes) {
    && |data| >= 1 && |data| >= 1 + data[0] as int
    && partner == (if sub.IsFund() then [84, 111, 32] else []) + CText(data[1..1 + data[0] as int])
  }

  lemma PartnerNamed(p: Platform, c: Context, log: seq<Event>)
    requires PartnerKnown(p, c, log)
    ensures PartnerShown(c.sub, DataAt(log, 1), c.partnerName)
  {
    hide CText;
    var data := DataAt(log, 1);
    Buf.SizedIsPrefixed(1, data);
    var (name, rest) := Buf.Sized(1, data).value;
    assert data == [|name|] + name + rest;
    assert data[1..1 + |name|] == name;
  }

  // A check command's data: a configuration of ticker, application and sub-configuration, each with its length,
  // Ledger's signature on it, and a path; for the currency of this name, and the application and
  // sub-configuration that are called.
  ghost predicate Configures(p: Platform, data: Bytes, currency: Bytes, app: Bytes, config: Bytes, path: Bytes,
                             ticker: Bytes, name: Bytes, der: Bytes) {
    && 1 <= |ticker| <= 9 && 3 <= |name| <= 32 && |config| <= 64 && 67 <= |der| <= 73 && 1 <= |path| < 0x100
    && var conf := [|ticker|] + ticker + [|name|] + name + [|config|] + config;
       && |conf| < 0x100 && data == [|conf|] + conf + der + [|path|] + path
          && p.verify(LedgerKey(p), p.sha256(conf), der)
       && currency == KnownAs(CText(ticker)) && app == CText(AliasedApp(name))
  }

  ghost predicate Configured(p: Platform, data: Bytes, currency: Bytes, app: Bytes, config: Bytes, path: Bytes) {
    exists ticker: Bytes, name: Bytes, der: Bytes :: Configures(p, data, currency, app, config, path, ticker, name, der)
  }

  lemma ReadableMeans(p: Platform, n: Message, cmd: Command, check: Check)
    requires ReadCheck(p, Some(LedgerKey(p)), n, cmd) == Readable(check)
    ensures Configured(p, cmd.data, CText(CurrencyOf(cmd, n)), AppName(check.coin), check.coin.config, check.parameters)
  {
    hide ParseAddressMessage, ParseCoinConfig, CurrencyOf, CText, KnownAs, AliasedApp;
    var a := ParseAddressMessage(cmd.data).value;
    var coin := check.coin;
    AddressMessageExactly(cmd.data, a);
    CoinConfigExactly(a.config, coin);
    var name: Bytes :| 1 <= |coin.ticker| <= 9 && 3 <= |name| <= 32 && |coin.config| <= 64
      && coin.app == AliasedApp(name) && a.config == CurrencyConfig(coin.ticker, name, coin.config);
    assert a.config == [|coin.ticker|] + coin.ticker + [|name|] + name + [|coin.config|] + coin.config;
    assert cmd.data == [|a.config|] + a.config + a.der + [|a.parameters|] + a.parameters;
    assert Configures(p, cmd.data, CText(CurrencyOf(cmd, n)), AppName(coin), coin.config, a.parameters, coin.ticker,
                      name, a.der);
  }

  // The text an application gives for an amount: not empty, and ended within its 50 bytes.
  ghost predicate Gives(p: Platform, app: Bytes, config: Bytes, amount: Bytes, fee: bool, text: Bytes) {
    match p.format(app, config, amount, fee)
    case FormatterMissing => false
    case Formatted(t) => t[0] != 0 && t[49] == 0 && text == CText(t)
  }

  // What the check of the paying side, in this command, has to do with the request and the review.
  ghost predicate PaidSide(p: Platform, sub: Sub, log: seq<Event>, items: seq<Item>, cmd: Command, request: Request,
                           s: Shown,
                           path: Bytes) {
    var currency := CText(Latest(items, if sub.IsSwap() then 7 else if sub.IsSell() then 2 else 3, []));
    && Configured(p, cmd.data, KnownAs(currency), request.app, request.config, path)
    && (s.floating <==> cmd.rate == 1)
    && Gives(p, request.app, request.config, request.amount, false, s.send)
    && Gives(p, request.app, request.config, request.fee, true, s.fees)
    && (sub.IsSwap() ==>
          p.checkAddress(request.app, request.config, path, RenamedText(p, log, CText(Latest(items, 3, []))),
                         CText(Latest(items, 4, []))).Belongs?)
  }

  // And the payout check: the received amount's text, and the verdict on the payout address.
  ghost predicate ReceivedSide(p: Platform, log: seq<Event>, items: seq<Item>, cmd: Command, s: Shown, app: Bytes,
                               config: Bytes,
                               path: Bytes, amount: Bytes) {
    && Configured(p, cmd.data, KnownAs(CText(Latest(items, 8, []))), app, config, path)
    && BigEndian(amount) == BigEndian(Latest(items, 10, [])) && Gives(p, app, config, amount, false, s.received)
    && var verdict := p.checkAddress(app, config, path, RenamedText(p, log, CText(Latest(items, 5, []))),
                                     CText(Latest(items, 6, [])));
       verdict.Belongs? || (verdict.Foreign? && s.marked)
  }

  lemma GivesIs(p: Platform, app: Bytes, config: Bytes, amount: Bytes, fee: bool, text: Bytes)
    requires Shows(p, app, config, amount, fee, text)
    ensures Gives(p, app, config, amount, fee, text)
  {
    hide CText;
  }

  // Which currency a check is about.
  lemma CurrencyByField(p: Platform, sub: Sub, log: seq<Event>, items: seq<Item>, n: Message, cmd: Command)
    requires MessageByField(p, sub, log, items, n) && cmd.sub == sub
    ensures CText(CurrencyOf(cmd, n)) ==
            KnownAs(CText(Latest(items, if sub.IsSwap() then (if cmd.ins.CheckPayout? then 8 else 7)
                                 else if sub.IsSell() then 2 else 3,
                                 [])))
  {
    hide CText, KnownAs, Latest, RenamedText, BigEndian;
  }

  lemma PayoutByField(p: Platform, c: Context, log: seq<Event>, items: seq<Item>, k: nat) returns (app: Bytes,
    config: Bytes,
                      path: Bytes, amount: Bytes)
    requires c.sub.IsSwap() && c.ledgerKey == Some(LedgerKey(p))
             && MessageByField(p, c.sub, log, items, MessageIn(c.shared))
    requires DidAt(log, k, CheckPayout, c.sub) && PayoutHolds(p, c, CommandAt(log, k))
    ensures ReceivedSide(p, log, items, CommandAt(log, k), ShownOf(p, c), app, config, path, amount)
  {
    hide ReadCheck, CText, KnownAs, Latest, RenamedText, BigEndian, Shows, Gives, Configured, CurrencyOf, AppName;
    var n, cmd := MessageIn(c.shared), CommandAt(log, k);
    var check := ReadCheck(p, c.ledgerKey, n, cmd).check;
    ReadableMeans(p, n, cmd, check);
    CurrencyByField(p, c.sub, log, items, n, cmd);
    app, config, path, amount := AppName(check.coin), check.coin.config, check.parameters, Blob(n, 9);
    GivesIs(p, app, config, amount, false, c.getText);
    VerdictByField(p, c.sub, log, items, n, cmd, check);
  }

  lemma VerdictByField(p: Platform, sub: Sub, log: seq<Event>, items: seq<Item>, n: Message, cmd: Command, check: Check)
    requires sub.IsSwap() && MessageByField(p, sub, log, items, n)
    ensures AddressVerdict(p, cmd.ins, n, check) ==
            (if cmd.ins.CheckPayout? then
               p.checkAddress(AppName(check.coin), check.coin.config, check.parameters,
                              RenamedText(p, log, CText(Latest(items, 5, []))), CText(Latest(items, 6, [])))
             else
               p.checkAddress(AppName(check.coin), check.coin.config, check.parameters,
                              RenamedText(p, log, CText(Latest(items, 3, []))), CText(Latest(items, 4, []))))
  {
    hide CText, KnownAs, Latest, RenamedText, BigEndian, AppName;
  }

  lemma PayingByField(p: Platform, c: Context, log: seq<Event>, items: seq<Item>, j: nat,
                      request: Request) returns (path: Bytes)
    requires c.ledgerKey == Some(LedgerKey(p)) && MessageByField(p, c.sub, log, items, MessageIn(c.shared))
    requires PayingAt(log, j, c.sub) && PayingHolds(p, c, CommandAt(log, j)) && request == RequestOf(c, c.sub)
    ensures PaidSide(p, c.sub, log, items, CommandAt(log, j), request, ShownOf(p, c), path)
  {
    hide ReadCheck, CText, KnownAs, Latest, RenamedText, BigEndian, Shows, Gives, Configured, CurrencyOf, AppName,
         InAmount, InAddress, InExtra, FiatAmount, AccountName, MessageByField, AddressVerdict;
    var n, cmd := MessageIn(c.shared), CommandAt(log, j);
    var check := ReadCheck(p, c.ledgerKey, n, cmd).check;
    ReadableMeans(p, n, cmd, check);
    CurrencyByField(p, c.sub, log, items, n, cmd);
    path := check.parameters;
    GivesIs(p, c.payingApp, c.payingConfig, InAmount(c.sub, n), false, c.sendText);
    GivesIs(p, c.payingApp, c.payingConfig, c.fee, true, c.feesText);
    if c.sub.IsSwap() { VerdictByField(p, c.sub, log, items, n, cmd, check); }
  }

  // --- the approved review ---

  // What is received, by kind of flow, and the person or address shown with it.
  ghost predicate Receives(p: Platform, sub: Sub, log: seq<Event>, items: seq<Item>, inner: seq<Item>, s: Shown,
                           k: nat) {
    if sub.IsSwap() then
      && DidAt(log, k, CheckPayout, sub) && s.address == RenamedText(p, log, CText(Latest(items, 5, [])))
      && exists app: Bytes, config: Bytes, path: Bytes, amount: Bytes ::
           ReceivedSide(p, log, items, CommandAt(log, k), s, app, config, path, amount)
    else
      && s.person == CText(Latest(items, 1, []))
      && if sub.IsSell() then
           FiatShown(s.received, CText(Latest(items, 5, [])), BigEndian(Latest(inner, 1, [])),
                     LatestNumber(inner, 2, 0))
         else
           var account := CText(Latest(items, 2, []));
           s.received == account[..Min(|account|, 49)]
  }

  // The review with these texts was approved; they come from the commands and the payload of the flow.
  ghost predicate Approves(p: Platform, sub: Sub, log: seq<Event>, items: seq<Item>, inner: seq<Item>,
                           request: Request, s: Shown,
                           k: nat, path: Bytes) {
    && log != [] && log[|log| - 1].Approved? && Lists(log[|log| - 1].review, s)
    && s.sub == sub && s.wallet == p.wallet && (s.marked <==> exists i :: 0 <= i < |log| && log[i].Strange?)
    && PartnerShown(sub, DataAt(log, 1), s.partner)
    && PayingAt(log, PayingIndex(sub, k), sub)
    && PaidSide(p, sub, log, items, CommandAt(log, PayingIndex(sub, k)), request, s, path)
    && Receives(p, sub, log, items, inner, s, k)
  }

  /** The review by field: in every run, when the signing application is started and the payload sent fourth is
      the encoding of some items, the review that was approved lists the partner of the credentials, the texts
      the applications named in the checks give for the amounts and fees, and the other texts of the payload's
      fields, by number, with trusted names replaced. */
  lemma ReviewByField(p: Platform, boot: Word, inputs: seq<Input>, i: Input, request: Request, items: seq<Item>,
                      inner: seq<Item>)
    requires Launched(request) in Step(p, Run(p, boot, inputs), i).1
    requires var w := Run(p, boot, inputs);
             ProposalOf(w.context.sub, w.log, items) && InnerOf(w.context.sub, items, inner)
    ensures var w := Run(p, boot, inputs);
            exists s: Shown, k: nat, path: Bytes :: Approves(p, w.context.sub, w.log, items, inner, request, s, k, path)
  {
    hide Run, Step, ProposalOf, InnerOf, RequestOf, Accept, CompleteFlow, ChecksHold, FlowLaws.Known, PartnerKnown,
         PartnerVouched, ProposalRead, ProposalSigned, Approves;
    var w := Run(p, boot, inputs);
    LaunchMeans(p, w, i, request);
    AuthenticatedTransaction(p, boot, inputs);
    FlowOrder(p, boot, inputs, i, request);
    AddressesAccepted(p, boot, inputs, i, request);
    SigningContext(p, boot, inputs);
    ShownKnown(p, w.context, w.log);
    FlagSticks(p, boot, inputs);
    ContextApproves(p, w.context, w.log, items, inner, request);
  }

  lemma ContextApproves(p: Platform, c: Context, log: seq<Event>, items: seq<Item>, inner: seq<Item>, request: Request)
    requires PartnerKnown(p, c, log) && ProposalRead(p, c, log) && CompleteFlow(log, c.sub, c.id)
    requires c.ledgerKey == Some(LedgerKey(p)) && request == RequestOf(c, c.sub)
             && exists k: nat :: ChecksHold(p, c, log, k)
    requires log != [] && log[|log| - 1] == Approved(ReviewPairs(p, c))
    requires c.otherSeed <==> exists i :: 0 <= i < |log| && log[i].Strange?
    requires ProposalOf(c.sub, log, items) && InnerOf(c.sub, items, inner)
    ensures exists s: Shown, k: nat, path: Bytes :: Approves(p, c.sub, log, items, inner, request, s, k, path)
  {
    hide PartnerKnown, ProposalRead, CompleteFlow, RequestOf, ReviewPairs, ProposalOf, InnerOf, MessageByField,
         PayoutHolds, PayingHolds, DidAt, PayingAt, PaidSide, ReceivedSide, Lists, PartnerShown, Receives;
    var k: nat :| ChecksHold(p, c, log, k);
    PartnerNamed(p, c, log);
    ReviewLists(p, c);
    MessageOfContext(p, c, log, items, inner);
    var path := PayingByField(p, c, log, items, PayingIndex(c.sub, k), request);
    ReceivesByField(p, c, log, items, inner, k);
    assert Approves(p, c.sub, log, items, inner, request, ShownOf(p, c), k, path);
  }

  // The fiat amount of a sell, as the context's message has it.
  ghost predicate FiatByItems(sub: Sub, items: seq<Item>, inner: seq<Item>, n: Message) {
    sub.IsSell() ==> FiatAmount(n).Some? ==>
      FiatShown(FiatAmount(n).value, CText(Latest(items, 5, [])), BigEndian(Latest(inner, 1, [])),
                LatestNumber(inner, 2, 0))
  }

  lemma MessageOfContext(p: Platform, c: Context, log: seq<Event>, items: seq<Item>, inner: seq<Item>)
    requires ProposalRead(p, c, log) && CompleteFlow(log, c.sub, c.id) && ProposalOf(c.sub, log, items)
    requires InnerOf(c.sub, items, inner)
    ensures MessageByField(p, c.sub, log, items, MessageIn(c.shared))
            && FiatByItems(c.sub, items, inner, MessageIn(c.shared))
  {
    hide ParseTransaction, Deserialize, Prepared, Resolving, CompleteFlow, ProposalOf, MessageByField, ExtraOk,
         IdMatches, FieldsRead, Shaped, TableOf, FiatAmount, FiatShown, Decode;
    var q := ParseTransaction(c.sub, DataAt(log, 3)).value;
    var m := Deserialize(c.sub, q.payload, q.base64).message;
    ProposalReads(c.sub, log, items);
    DeserializedShaped(c.sub, q.payload, q.base64);
    if !c.sub.IsSwap() {
      NoNames(p, log, c.sub, c.id);
      NothingResolved(p, Prepared(c.sub, m), log);
    }
    PreparedByField(p, c.sub, log, items, m);
    if c.sub.IsSell() {
      Review.SameFiat(c.sub, m);
      SellFiat(log, c.sub, items, inner, m);
    }
  }

  lemma SellFiat(log: seq<Event>, sub: Sub, items: seq<Item>, inner: seq<Item>, m: Message)
    requires sub.IsSell() && FieldsRead(sub, items, m) && ProposalOf(sub, log, items) && InnerOf(sub, items, inner)
    requires Decode(TableOf(sub), EncodeItems(items)) == Some(m)
    ensures FiatAmount(m).Some? ==>
              FiatShown(FiatAmount(m).value, CText(Latest(items, 5, [])), BigEndian(Latest(inner, 1, [])),
                        LatestNumber(inner, 2, 0))
  {
    hide Decode, SellRead, AmountRead, FiatAmount, FiatShown, Blocks, Within, DecimalItems, ParseTransaction, Plain,
         CText, Latest, LatestNumber, BigEndian;
    AmountReads(items, m, inner);
    if FiatAmount(m).Some? { FiatByField(items, inner, m, FiatAmount(m).value); }
  }

  lemma ReceivesByField(p: Platform, c: Context, log: seq<Event>, items: seq<Item>, inner: seq<Item>, k: nat)
    requires ChecksHold(p, c, log, k) && c.ledgerKey == Some(LedgerKey(p))
    requires MessageByField(p, c.sub, log, items, MessageIn(c.shared))
             && FiatByItems(c.sub, items, inner, MessageIn(c.shared))
    ensures Receives(p, c.sub, log, items, inner, ShownOf(p, c), k)
  {
    hide DidAt, PayingAt, PayoutHolds, ReceivedSide, CText, KnownAs, Latest, LatestNumber, RenamedText, BigEndian,
         FiatAmount, FiatShown, ReadCheck, AddressVerdict, Shows, InAmount;
    if c.sub.IsSwap() {
      var app, config, path, amount := PayoutByField(p, c, log, items, k);
    }
  }
}
