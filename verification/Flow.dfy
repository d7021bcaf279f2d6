/** The context of a flow and what each command does to it, as functions of values (the handlers of
    src/command_dispatcher.c). */
module Flow {
  import opened Common
  import opened Commands
  import opened Messages
  import opened Normalize
  import opened Transactions
  import opened Pb
  import Decimal

  // --- what the device provides ---

  datatype Key = Key(curve: Curve, point: Bytes)

  type Digest = b: Bytes | |b| == 32 witness Zeros(32)

  // The 50-byte text buffer a coin application fills in.
  type Printed = b: Bytes | |b| == 50 witness Zeros(50)

  // What a coin application called as a library answers; Missing when it is not installed.
  datatype Formatting = Formatted(text: Printed) | FormatterMissing
  datatype Verdict = Belongs | Foreign | CheckerMissing

  // The record of a trusted-name descriptor, or the parser's error code.
  datatype Descriptor =
    | Descriptor(challenge: Option<nat>, contextAddress: bool, dynamicResolver: bool, name: Bytes, owner: Bytes)
    | BadDescriptor(code: Bytes)

  datatype Platform = Platform(
    sha256: Bytes -> Digest,
    verify: (Key, Digest, Bytes) -> bool,
    validKey: Key -> bool,
    ledgerPoint: Bytes,
    format: (Bytes, Bytes, Bytes, bool) -> Formatting,
    checkAddress: (Bytes, Bytes, Bytes, Bytes, Bytes) -> Verdict,
    readDescriptor: Bytes -> Descriptor,
    version: Bytes,
    wallet: bool)

  // --- the context ---

  // The memory shared by the received chunks and the decoded transaction.
  datatype Shared = Untouched | Chunks(data: Bytes) | Decoded(message: Message) | Garbage

  datatype Context = Context(
    state: State,
    sub: Sub,
    rate: byte,
    id: Bytes,
    fee: Bytes,
    partnerName: Bytes,
    partnerKey: Option<Key>,
    ledgerKey: Option<Key>,
    digestDotted: Digest,
    digestPlain: Digest,
    shared: Shared,
    payingApp: Bytes,
    payingConfig: Bytes,
    getText: Bytes,
    sendText: Bytes,
    feesText: Bytes,
    otherSeed: bool)

  const ZERO: Context := Context(
    Initial, Swap, 0, Zeros(32), [], [], None, None, Zeros(32), Zeros(32), Untouched, [], [], [], [], [], false)

  function MessageIn(s: Shared): Message { if s.Decoded? then s.message else [] }

  function LedgerKey(p: Platform): Key { Key(Secp256k1, p.ledgerPoint) }

  predicate Verifies(p: Platform, key: Option<Key>, digest: Digest, signature: Bytes) {
    key.Some? && p.verify(key.value, digest, signature)
  }

  // What the signing application is called with.
  datatype Request = Request(app: Bytes, config: Bytes, amount: Bytes, fee: Bytes, address: Bytes, extra: Bytes)

  // What a handler does: the context holds when the reply is sent; a missing library application
  // leaves the context as it is, without a reply.
  datatype Result =
    | Reply(context: Context, status: nat, data: Bytes)
    | Display(context: Context)
    | Missing(context: Context)
    | Launch(request: Request)

  // --- START_NEW_TRANSACTION ---

  type Random = b: Bytes | |b| == 32 witness Zeros(32)

  // Ten letters in a legacy swap, 32 bytes otherwise, in the 32 bytes of the union.
  function FreshId(sub: Sub, rng: Random): (id: Bytes)
    ensures |id| == 32
  {
    if sub.Swap? then seq(10, i requires 0 <= i < 10 => 65 + rng[i] as int % 26) + Zeros(22) else rng
  }

  function StartNewTransaction(p: Platform, sub: Sub, rng: Random): Result {
    if !p.validKey(LedgerKey(p)) then Reply(ZERO, INTERNAL_ERROR, [])
    else
      var id := FreshId(sub, rng);
      Reply(ZERO.(ledgerKey := Some(LedgerKey(p)), id := id, state := WaitingTransaction, sub := sub),
            SUCCESS, IssuedId(sub, id))
  }

  // --- SET_PARTNER_KEY, CHECK_PARTNER ---

  const FUND_PREFIX: Bytes := [84, 111, 32]

  function ShownName(sub: Sub, name: Bytes): Bytes { (if sub.IsFund() then FUND_PREFIX else []) + CText(name) }

  function SetPartnerKey(p: Platform, c: Context, cmd: Command): Result {
    match ParsePartner(cmd.sub, cmd.data)
    case None => Reply(c, INCORRECT_COMMAND_DATA, [])
    case Some(partner) =>
      var named := c.(partnerName := ShownName(c.sub, partner.name));
      var key := Key(partner.curve, partner.key);
      if !p.validKey(key) then Reply(named, INTERNAL_ERROR, [])
      else Reply(named.(partnerKey := Some(key), digestPlain := p.sha256(cmd.data), state := ProviderSet), SUCCESS, [])
  }

  function CheckPartnerKey(p: Platform, c: Context, cmd: Command): Result {
    if |cmd.data| < 67 || |cmd.data| > 73 then Reply(c, INCORRECT_COMMAND_DATA, [])
    else if !Verifies(p, c.ledgerKey, c.digestPlain, cmd.data) then Reply(c, SIGN_VERIFICATION_FAIL, [])
    else Reply(c.(state := ProviderChecked), SUCCESS, [])
  }

  // --- PROCESS_TRANSACTION_RESPONSE, CHECK_TRANSACTION_SIGNATURE ---

  function Dotted(payload: Bytes): Bytes { [46] + payload }

  function ProcessTransaction(p: Platform, c: Context, cmd: Command): Result {
    match ParseTransaction(cmd.sub, cmd.data)
    case None => Reply(c, INCORRECT_COMMAND_DATA, [])
    case Some(proposal) =>
      var hashed := c.(digestDotted := p.sha256(Dotted(proposal.payload)), digestPlain := p.sha256(proposal.payload));
      match Deserialize(cmd.sub, proposal.payload, proposal.base64)
      case Unreadable => Reply(hashed, DESERIALIZATION_FAILED, [])
      case Broken => Reply(hashed.(shared := Garbage), DESERIALIZATION_FAILED, [])
      case Ready(m) => AcceptTransaction(hashed.(shared := Decoded(m)), cmd.sub, m, proposal.fees)
  }

  function AcceptTransaction(c: Context, sub: Sub, m: Message, fees: Bytes): Result {
    if !ExtraOk(sub, m) then Reply(c, WRONG_EXTRA_ID_OR_EXTRA_DATA, [])
    else if !IdMatches(sub, m, c.id) then Reply(c, WRONG_TRANSACTION_ID, [])
    else Reply(c.(shared := Decoded(Prepared(sub, m)), fee := fees, state := TransactionReceived), SUCCESS, [])
  }

  function CheckTransactionSignature(p: Platform, c: Context, cmd: Command): Result {
    match ParseSignature(cmd.sub, cmd.data)
    case None => Reply(c, INCORRECT_COMMAND_DATA, [])
    case Some((dotted, der)) =>
      if !Verifies(p, c.partnerKey, if dotted then c.digestDotted else c.digestPlain, der)
      then Reply(c, SIGN_VERIFICATION_FAIL, [])
      else Reply(c.(state := SignatureChecked), SUCCESS, [])
  }

  // --- GET_CHALLENGE, SEND_TRUSTED_NAME_DESCRIPTOR ---

  type Word = x: int | 0 <= x < TWO_32

  function GetChallengeReply(c: Context, challenge: Word): Result {
    Reply(c, SUCCESS, [challenge / 0x100_0000, challenge / 0x1_0000 % 256, challenge / 0x100 % 256, challenge % 256])
  }

  // The owner's address in place of its name; None when the buffer holds something else.
  function Resolved(address: Bytes, name: Bytes, owner: Bytes): Option<Bytes> {
    if CText(address) == name && |owner| < |address| then Some(owner + Zeros(|address| - |owner|)) else None
  }

  function ResolveAt(m: Message, i: nat, name: Bytes, owner: Bytes): (Message, bool) {
    match Resolved(Str(m, i), name, owner)
    case None => (m, false)
    case Some(address) => (SetStr(m, i, address), true)
  }

  function ResolveNames(m: Message, name: Bytes, owner: Bytes): (Message, bool) {
    var (m1, payout) := ResolveAt(m, PAYOUT_ADDRESS, name, owner);
    var (m2, refund) := ResolveAt(m1, REFUND_ADDRESS, name, owner);
    (m2, payout || refund)
  }

  function ApplyDescriptor(p: Platform, c: Context, cmd: Command, challenge: Word): Result {
    if !c.sub.IsSwap() then Reply(c, INTERNAL_ERROR, [])
    else match p.readDescriptor(cmd.data)
         case BadDescriptor(code) => Reply(c, WRONG_TRUSTED_NAME_TLV, code)
         case Descriptor(carried, contextAddress, dynamicResolver, name, owner) =>
           if carried == None then Reply(c, MISSING_TLV_CONTENT, [])
           else if carried.value != challenge then Reply(c, WRONG_TLV_CHALLENGE, [])
           else if !contextAddress || !dynamicResolver then Reply(c, WRONG_TLV_CONTENT, [])
           else
             var (m, applied) := ResolveNames(MessageIn(c.shared), name, owner);
             if !applied then Reply(c, DESCRIPTOR_NOT_USED, []) else Reply(c.(shared := Decoded(m)), SUCCESS, [])
  }

  // --- CHECK_PAYOUT_ADDRESS, CHECK_ASSET_IN, CHECK_REFUND_ADDRESS ---

  // What a check command tells: the coin, and the parameters of the address.
  datatype Check = Check(coin: Coin, parameters: Bytes)

  // The application name as it is passed on: a C string.
  function AppName(coin: Coin): Bytes { CText(coin.app) }

  // The currency a command is about.
  function CurrencyOf(cmd: Command, m: Message): Bytes {
    if cmd.sub.IsSwap() && cmd.ins.CheckPayout? then Str(m, CURRENCY_TO) else InCurrency(cmd.sub, m)
  }

  // The signed configuration, or the error it is refused with.
  datatype Reading = Readable(check: Check) | Refused(status: nat)

  function ReadCheck(p: Platform, ledgerKey: Option<Key>, m: Message, cmd: Command): Reading {
    match ParseAddressMessage(cmd.data)
    case None => Refused(INCORRECT_COMMAND_DATA)
    case Some(a) =>
      if !Verifies(p, ledgerKey, p.sha256(a.config), a.der) then Refused(SIGN_VERIFICATION_FAIL)
      else match ParseCoinConfig(a.config)
           case None => Refused(INCORRECT_COMMAND_DATA)
           case Some(coin) =>
             if CText(CurrencyOf(cmd, m)) != KnownAs(CText(coin.ticker)) then Refused(INCORRECT_COMMAND_DATA)
             else Readable(Check(coin, a.parameters))
  }

  // A text from a coin application; None when it wrote none or did not end it.
  function ShownText(text: Printed): Option<Bytes> {
    if text[0] == 0 || text[49] != 0 then None else Some(CText(text))
  }

  function CheckAddressesAndAmounts(p: Platform, c: Context, cmd: Command): Result {
    match ReadCheck(p, c.ledgerKey, MessageIn(c.shared), cmd)
    case Refused(status) => Reply(c, status, [])
    case Readable(check) => AddressStep(p, c, cmd, check)
  }

  // The address a swap command is about, and its extra id.
  function AddressOf(ins: Ins, m: Message): Bytes {
    Str(m, if ins.CheckPayout? then PAYOUT_ADDRESS else REFUND_ADDRESS)
  }

  function ExtraIdOf(ins: Ins, m: Message): Bytes {
    Str(m, if ins.CheckPayout? then PAYOUT_EXTRA_ID else REFUND_EXTRA_ID)
  }

  function AddressVerdict(p: Platform, ins: Ins, m: Message, check: Check): Verdict {
    p.checkAddress(AppName(check.coin), check.coin.config, check.parameters, CText(AddressOf(ins, m)),
                   CText(ExtraIdOf(ins, m)))
  }

  function AddressStep(p: Platform, c: Context, cmd: Command, check: Check): Result {
    var m := MessageIn(c.shared);
    if !c.sub.IsSwap() then AmountStep(p, c, cmd, check)
    else if !Terminated(AddressOf(cmd.ins, m)) then Reply(c, INCORRECT_COMMAND_DATA, [])
    else match AddressVerdict(p, cmd.ins, m, check)
         case Belongs => AmountStep(p, c, cmd, check)
         case CheckerMissing => Missing(c)
         case Foreign =>
           if cmd.ins.CheckPayout? then AmountStep(p, c.(otherSeed := true), cmd, check)
           else Reply(c, INVALID_ADDRESS, [])
  }

  function AmountOf(sub: Sub, ins: Ins, m: Message): Bytes {
    if sub.IsSwap() && ins.CheckPayout? then Blob(m, AMOUNT_TO_WALLET) else InAmount(sub, m)
  }

  function AmountStep(p: Platform, c: Context, cmd: Command, check: Check): Result {
    var amount := AmountOf(c.sub, cmd.ins, MessageIn(c.shared));
    match p.format(AppName(check.coin), check.coin.config, amount, false)
    case FormatterMissing => Missing(c)
    case Formatted(text) =>
      match ShownText(text)
      case None => Reply(c, AMOUNT_FORMATTING_FAILED, [])
      case Some(t) =>
        if c.sub.IsSwap() && cmd.ins.CheckPayout? then FeesStep(p, c.(getText := t), cmd, check)
        else FeesStep(p, c.(sendText := t), cmd, check)
  }

  function FeesStep(p: Platform, c: Context, cmd: Command, check: Check): Result {
    if cmd.ins.CheckPayout? then ExtrasStep(c, cmd, check)
    else match p.format(AppName(check.coin), check.coin.config, c.fee, true)
         case FormatterMissing => Missing(c)
         case Formatted(text) =>
           match ShownText(text)
           case None => Reply(c, AMOUNT_FORMATTING_FAILED, [])
           case Some(t) => ExtrasStep(c.(feesText := t), cmd, check)
  }

  // The fiat amount of a sell flow. Its destination holds nothing but NULs behind the currency and the
  // space, whatever attempts have failed before; Exchange.App keeps the buffer and shows it.
  function FiatAmount(m: Message): Option<Bytes> {
    var currency := CText(Str(m, OUT_CURRENCY));
    if |currency| + 1 >= 50 then None
    else
      var amount := if OUT_AMOUNT < |m| && m[OUT_AMOUNT].VMsg? then m[OUT_AMOUNT].fields else [];
      var exponent := if 1 < |amount| && amount[1].VUint? then amount[1].n else 0;
      match Decimal.FiatText(Decimal.Repeat(Decimal.NUL, 49 - |currency|), Blob(amount, 0), exponent)
      case None => None
      case Some(s) => Some(CText(currency + [32] + Ascii(s)))
  }

  function FiatPrefix(m: Message): Bytes { CText(Str(m, OUT_CURRENCY)) + [32] }

  function AccountName(m: Message): Bytes {
    var name := CText(Str(m, ACCOUNT_NAME));
    name[..Min(|name|, 49)]
  }

  function ExtrasStep(c: Context, cmd: Command, check: Check): Result {
    var m := MessageIn(c.shared);
    if c.sub.IsSell() then
      match FiatAmount(m)
      case None => Reply(c.(getText := if |FiatPrefix(m)| >= 50 then c.getText else FiatPrefix(m)), INTERNAL_ERROR, [])
      case Some(t) => SaveStep(c.(getText := t), cmd, check)
    else if c.sub.IsFund() then SaveStep(c.(getText := AccountName(m)), cmd, check)
    else SaveStep(c, cmd, check)
  }

  function SaveStep(c: Context, cmd: Command, check: Check): Result {
    var saved := if cmd.ins.CheckPayout? then c
                 else c.(payingApp := AppName(check.coin), payingConfig := check.coin.config, rate := cmd.rate);
    if cmd.ins.AssetInDisplay? || cmd.ins.RefundDisplay? then Display(saved.(state := WaitingUser))
    else Reply(saved.(state := if cmd.ins.CheckPayout? then PayoutChecked else AllChecked), SUCCESS, [])
  }

  // --- PROMPT_UI_DISPLAY, START_SIGNING_TRANSACTION ---

  function RequestOf(c: Context, sub: Sub): Request {
    var m := MessageIn(c.shared);
    Request(c.payingApp, c.payingConfig, InAmount(sub, m), c.fee, InAddress(sub, m), InExtra(sub, m))
  }

  // --- the dispatcher ---

  function Handle(p: Platform, c: Context, cmd: Command, rng: Random, challenge: Word): Result {
    match cmd.ins
    case GetVersion => Reply(c, SUCCESS, p.version)
    case StartNew => StartNewTransaction(p, cmd.sub, rng)
    case SetPartner => SetPartnerKey(p, c, cmd)
    case CheckPartner => CheckPartnerKey(p, c, cmd)
    case Process => ProcessTransaction(p, c, cmd)
    case CheckSignature => CheckTransactionSignature(p, c, cmd)
    case GetChallenge => GetChallengeReply(c, challenge)
    case TrustedName => ApplyDescriptor(p, c, cmd, challenge)
    case Prompt => Display(c.(state := WaitingUser))
    case StartSigning => Launch(RequestOf(c, cmd.sub))
    case _ => CheckAddressesAndAmounts(p, c, cmd)
  }

  // --- the review ---

  datatype Pair = Pair(item: Bytes, value: Bytes)

  // On a small screen a foreign payout address is warned about in front of the rest.
  function ReviewHead(p: Platform, c: Context): seq<Pair> { ReviewWarning(p, c) + ReviewPartner(c) + ReviewPerson(c) }

  function ReviewWarning(p: Platform, c: Context): seq<Pair> {
    if !p.wallet && c.otherSeed then
      [Pair(Ascii("Warning"), Ascii("Receive address does not belong to this Ledger device")),
       Pair(Ascii("Learn more at"), Ascii("ledger.com/e13"))]
    else []
  }

  function ReviewPartner(c: Context): seq<Pair> {
    if !c.sub.IsFund() then [Pair(Ascii("Exchange partner"), c.partnerName)] else []
  }

  function ReviewPerson(c: Context): seq<Pair> {
    var m := MessageIn(c.shared);
    if c.sub.IsSell() then [Pair(Ascii("Email"), CText(Str(m, TRADER_EMAIL)))]
    else if c.sub.IsFund() then [Pair(Ascii("User"), CText(Str(m, USER_ID)))]
    else []
  }

  // What is received, or funded.
  function ReviewGet(c: Context): Pair {
    if c.sub.IsFund() then Pair(c.partnerName, c.getText)
    else Pair(if c.rate == 1 then Ascii("Receive estimated") else Ascii("Receive"), c.getText)
  }

  function ReviewTail(c: Context): seq<Pair> {
    if c.otherSeed then [Pair(Ascii("Receive address"), CText(Str(MessageIn(c.shared), PAYOUT_ADDRESS)))] else []
  }

  function ReviewPairs(p: Platform, c: Context): seq<Pair> {
    ReviewHead(p, c) + [Pair(Ascii("Send"), c.sendText), ReviewGet(c), Pair(Ascii("Fees"), c.feesText)] + ReviewTail(c)
  }
}
