/** The device as an object: the globals G_swap_ctx, G_received_apdu and the challenge, and the methods
    that update them in place (the handlers, src/apdu_parser.c, src/main.c). Every method is shown to do
    what the functions of Flow, Apdu and Device say. */
module Exchange {
  import opened Common
  import opened Commands
  import opened Messages
  import opened Normalize
  import opened Transactions
  import opened Pb
  import opened Flow
  import opened Apdu
  import opened Device
  import opened Replay
  import opened FlowTheorems
  import Decimal

  // A handler answered as the result says, and left the context accordingly.
  ghost predicate Answered(r: Result, sent: bool, ret: int, out: seq<Output>, c: Context) {
    && r.Reply? && ret == (if sent then 0 else -1) && out == (if sent then [Replied(r.status, r.data)] else [])
    && (sent ==> c == r.context)
  }

  method SendResponse(data: Bytes, status: nat, sent: bool) returns (ret: int, out: seq<Output>)
    ensures ret == (if sent then 0 else -1) && out == if sent then [Replied(status, data)] else []
  {
    if sent {
      return 0, [Replied(status, data)];
    }
    return -1, [];
  }

  method ReplyError(status: nat, sent: bool) returns (ret: int, out: seq<Output>)
    ensures ret == (if sent then 0 else -1) && out == if sent then [Replied(status, [])] else []
  {
    ret, out := SendResponse([], status, sent);
  }

  // --- a 50-character buffer ---

  function TextIn(s: string): Bytes { CText(Ascii(s)) }

  ghost predicate Blank(s: string) { |s| == 50 && forall i :: 0 <= i < 50 ==> s[i] == Decimal.NUL }

  // Nothing but NULs behind the text.
  ghost predicate Clean(s: string, text: Bytes) {
    |s| == 50 && TextIn(s) == text && forall i :: |text| <= i < 50 ==> s[i] == Decimal.NUL
  }

  // A sell flow whose fiat amount is still to be formatted.
  predicate Unformatted(c: Context) { c.sub.IsSell() && 1 <= Rank(c.state) <= 5 }

  // What a fiat amount has left in the buffer by then: nothing, or what a failed attempt writes.
  ghost predicate Attempted(s: string, c: Context) {
    Clean(s, c.getText)
    && (c.getText == [] || (c.state.SignatureChecked? && c.getText == FiatPrefix(MessageIn(c.shared))))
  }

  // Where the address and amount checks are welcome.
  predicate Checkable(c: Context) { Rank(c.state) >= 5 && (c.sub.IsSell() ==> c.state.SignatureChecked?) }

  // The text of what is received stands in the buffer.
  ghost predicate TextStands(s: string, c: Context) {
    |s| == 50 && TextIn(s) == c.getText && (Unformatted(c) ==> Attempted(s, c))
  }

  lemma BlankText(s: string)
    requires Blank(s)
    ensures Clean(s, []) && TextStands(s, ZERO)
  {
    assert Ascii(s)[0] == 0;
  }

  lemma TextPut(s: string, t: Bytes)
    requires |s| == 50 && |t| < 50 && 0 !in t && s[|t|] == Decimal.NUL
             && forall i :: 0 <= i < |t| ==> s[i] == t[i] as char
    ensures TextIn(s) == t && Ascii(s[..|t|]) == t
  {
    var b := Ascii(s);
    assert b[..|t|] == t && b == t + b[|t|..];
    CTextOf(t, b[|t|..]);
  }

  lemma ChecksAreCheckable(i: Ins, sub: Sub, state: State, flow: Sub)
    requires Welcome(i, sub, state, flow) && IsCheck(i)
    ensures Rank(state) >= 5 && (flow.IsSell() ==> state.SignatureChecked?)
  {
  }

  // The other commands leave the text and the buffer as they are.
  lemma TextKept(p: Platform, s: string, c: Context, cmd: Command, rng: Random, challenge: Word)
    requires TextStands(s, c) && Welcome(cmd.ins, cmd.sub, c.state, c.sub)
    requires !cmd.ins.StartNew? && !IsCheck(cmd.ins) && !cmd.ins.StartSigning?
    ensures match Handle(p, c, cmd, rng, challenge)
            case Reply(t, _, _) => TextStands(s, t)
            case Display(t) => TextStands(s, t)
            case Missing(t) => TextStands(s, t)
            case Launch(_) => true
  {
    hide TextIn, Clean, ParsePartner, ParseTransaction, ParseSignature, Deserialize, ExtraOk, IdMatches, Prepared,
         ResolveNames, ShownName, FiatPrefix, CheckAddressesAndAmounts;
  }

  // What a context that was left by a result tells of the text.
  lemma TextLeft(r: Result, s: string, sent: bool, ret: int, out: seq<Output>, displayed: bool, missing: bool,
                 c: Context)
    requires App.Finished(r, sent, ret, out, displayed, missing, c) && (ret >= 0 || missing)
    requires match r
             case Reply(t, _, _) => TextStands(s, t)
             case Display(t) => TextStands(s, t)
             case Missing(t) => TextStands(s, t)
             case Launch(_) => true
    ensures TextStands(s, c)
  {
    hide TextStands;
  }

  class App {
    const p: Platform
    // G_swap_ctx. Its union is a tagged value here; received chunks are also in the buffer `raw`.
    var ctx: Context
    const raw: array<byte>
    // printable_get_amount, in which the text ctx.getText stands
    const get: array<char>
    // G_received_apdu
    var rx: Rx
    var challenge: Word
    var ui: Ui
    ghost var log: seq<Event>
    ghost var accepted: seq<Chunk>

    // The buffer holds the chunks of an unfinished command, which no screen can interrupt.
    ghost predicate Valid()
      reads this, raw, get
    {
      && TextStands(get[..], ctx) && raw.Length == RAW_TRANSACTION_SIZE && !ctx.state.SignFinished?
      && (!ui.Idle? ==> ctx.state.WaitingUser?)
      && (rx.expecting ==> ui.Idle? && rx.length <= raw.Length)
      && (rx.expecting ==> ctx.state.Initial? || (ctx.state.ProviderChecked? && ctx.shared == Chunks(raw[..rx.length])))
    }

    ghost function Now(): World
      reads this
    {
      World(ctx, rx, ui, challenge, log, accepted)
    }

    constructor (p: Platform, challenge: Word)
      ensures Valid() && fresh(raw) && fresh(get) && this.p == p && Now() == Boot(challenge)
    {
      this.p, this.challenge, ctx, rx, ui, log, accepted := p, challenge, ZERO, NO_RX, Idle, [], [];
      raw := new byte[RAW_TRANSACTION_SIZE];
      get := new char[50](_ => Decimal.NUL);
      new;
      BlankText(get[..]);
    }

    // --- the text of what is received ---

    // explicit_bzero on the context
    method Clear()
      requires get.Length == 50
      modifies this`ctx, get
      ensures ctx == ZERO && Blank(get[..]) && TextStands(get[..], ctx)
    {
      for i := 0 to 50
        invariant forall j :: 0 <= j < i ==> get[j] == Decimal.NUL
      {
        get[i] := Decimal.NUL;
      }
      ctx := ZERO;
      BlankText(get[..]);
    }

    // strlcpy of a text that fits.
    method PutText(t: Bytes)
      requires get.Length == 50 && |t| < 50 && 0 !in t
      modifies get
      ensures TextIn(get[..]) == t && get[|t|] == Decimal.NUL && forall i :: |t| < i < 50 ==> get[i] == old(get[i])
      ensures Ascii(get[..|t|]) == t
    {
      for i := 0 to |t|
        invariant forall j :: 0 <= j < i ==> get[j] == t[j] as char
        invariant forall j :: i <= j < 50 ==> get[j] == old(get[j])
      {
        get[i] := t[i] as char;
      }
      get[|t|] := Decimal.NUL;
      TextPut(get[..], t);
    }

    // --- handlers ---

    method StartNewTransaction(cmd: Command, rng: Random, sent: bool) returns (ret: int, out: seq<Output>)
      requires get.Length == 50
      modifies this`ctx, get
      ensures Answered(Flow.StartNewTransaction(p, cmd.sub, rng), sent, ret, out, ctx)
      ensures ret >= 0 ==> TextStands(get[..], ctx)
    {
      hide TextIn;
      Clear();
      if !p.validKey(LedgerKey(p)) {
        ret, out := ReplyError(INTERNAL_ERROR, sent);
        return;
      }
      ctx := ctx.(ledgerKey := Some(LedgerKey(p)));
      var output;
      if cmd.sub.Swap? {
        output := RandomLetters(rng);
        ctx := ctx.(id := output + Zeros(22));
      } else {
        output := rng;
        ctx := ctx.(id := rng);
      }
      assert output == IssuedId(cmd.sub, ctx.id);
      ret, out := SendResponse(output, SUCCESS, sent);
      if ret < 0 {
        return;
      }
      ctx := ctx.(state := WaitingTransaction, sub := cmd.sub);
    }

    method RandomLetters(rng: Random) returns (letters: Bytes)
      ensures |letters| == 10 && letters + Zeros(22) == FreshId(Swap, rng)
    {
      letters := [];
      for i := 0 to 10
        invariant |letters| == i && forall j :: 0 <= j < i ==> letters[j] == 65 + rng[j] as int % 26
      {
        letters := letters + [65 + rng[i] as int % 26];
      }
      assert letters == FreshId(Swap, rng)[..10];
    }

    method SetPartnerKey(cmd: Command, sent: bool) returns (ret: int, out: seq<Output>)
      modifies this`ctx
      ensures Answered(Flow.SetPartnerKey(p, old(ctx), cmd), sent, ret, out, ctx)
    {
      hide ParsePartner;
      var ok, partner := ParseSetPartnerKeyCommand(cmd.sub, cmd.data);
      if !ok {
        ret, out := ReplyError(INCORRECT_COMMAND_DATA, sent);
        return;
      }
      if ctx.sub.Fund? || ctx.sub.FundNg? {
        ctx := ctx.(partnerName := FUND_PREFIX + CText(partner.name));
      } else {
        ctx := ctx.(partnerName := CText(partner.name));
      }
      assert ctx.partnerName == ShownName(ctx.sub, partner.name);
      var key := Key(partner.curve, partner.key);
      if !p.validKey(key) {
        ret, out := ReplyError(INTERNAL_ERROR, sent);
        return;
      }
      ctx := ctx.(partnerKey := Some(key));
      ctx := ctx.(digestPlain := p.sha256(cmd.data));
      ret, out := ReplyError(SUCCESS, sent);
      if ret < 0 {
        return;
      }
      ctx := ctx.(state := ProviderSet);
    }

    method CheckPartner(cmd: Command, sent: bool) returns (ret: int, out: seq<Output>)
      modifies this`ctx
      ensures Answered(CheckPartnerKey(p, old(ctx), cmd), sent, ret, out, ctx)
    {
      if |cmd.data| < 67 || |cmd.data| > 73 {
        ret, out := ReplyError(INCORRECT_COMMAND_DATA, sent);
        return;
      }
      if !Verifies(p, ctx.ledgerKey, ctx.digestPlain, cmd.data) {
        ret, out := ReplyError(SIGN_VERIFICATION_FAIL, sent);
        return;
      }
      ret, out := ReplyError(SUCCESS, sent);
      if ret < 0 {
        return;
      }
      ctx := ctx.(state := ProviderChecked);
    }

    method ProcessTransaction(cmd: Command, sent: bool) returns (ret: int, out: seq<Output>)
      modifies this`ctx
      ensures Answered(Flow.ProcessTransaction(p, old(ctx), cmd), sent, ret, out, ctx)
    {
      hide ParseTransaction, Deserialize, Flow.AcceptTransaction;
      var ok, payload, fees, base64 := ParseTransactionCommand(cmd.data, cmd.sub);
      if !ok {
        ret, out := ReplyError(INCORRECT_COMMAND_DATA, sent);
        return;
      }
      ctx := ctx.(digestDotted := p.sha256(Dotted(payload)), digestPlain := p.sha256(payload));
      var decoded := DeserializeProtobufPayload(payload, cmd.sub, base64);
      match decoded
      case Unreadable =>
        ret, out := ReplyError(DESERIALIZATION_FAILED, sent);
      case Broken =>
        ctx := ctx.(shared := Garbage);
        ret, out := ReplyError(DESERIALIZATION_FAILED, sent);
      case Ready(m) =>
        ctx := ctx.(shared := Decoded(m));
        ret, out := AcceptTransaction(cmd.sub, m, fees, sent);
    }

    // What follows a successful decoding.
    method AcceptTransaction(flow: Sub, m: Message, fees: Bytes, sent: bool) returns (ret: int, out: seq<Output>)
      requires ctx.shared == Decoded(m)
      modifies this`ctx
      ensures Answered(Flow.AcceptTransaction(old(ctx), flow, m, fees), sent, ret, out, ctx)
    {
      hide ExtraOk, IdMatches, Normalised, WithTrimmedAmounts;
      var ok := CheckExtraIdExtraData(flow, m);
      if !ok {
        ret, out := ReplyError(WRONG_EXTRA_ID_OR_EXTRA_DATA, sent);
        return;
      }
      ok := CheckTransactionId(flow, m, ctx.id);
      if !ok {
        ret, out := ReplyError(WRONG_TRANSACTION_ID, sent);
        return;
      }
      var prepared := NormalizeCurrencies(flow, m);
      prepared := TrimAmounts(flow, prepared);
      ctx := ctx.(shared := Decoded(prepared));
      ctx := ctx.(fee := fees);
      ret, out := ReplyError(SUCCESS, sent);
      if ret < 0 {
        return;
      }
      ctx := ctx.(state := TransactionReceived);
    }

    method CheckTxSignature(cmd: Command, sent: bool) returns (ret: int, out: seq<Output>)
      modifies this`ctx
      ensures Answered(CheckTransactionSignature(p, old(ctx), cmd), sent, ret, out, ctx)
    {
      hide ParseSignature;
      var status, dotted, signature := ReadSignature(cmd.sub, cmd.data);
      if status != 0 {
        ret, out := ReplyError(status, sent);
        return;
      }
      var digest := if dotted then ctx.digestDotted else ctx.digestPlain;
      if !Verifies(p, ctx.partnerKey, digest, signature) {
        ret, out := ReplyError(SIGN_VERIFICATION_FAIL, sent);
        return;
      }
      ret, out := ReplyError(SUCCESS, sent);
      if ret < 0 {
        return;
      }
      ctx := ctx.(state := SignatureChecked);
    }

    method GetChallengeHandler(sent: bool) returns (ret: int, out: seq<Output>)
      ensures Answered(GetChallengeReply(ctx, challenge), sent, ret, out, ctx)
      ensures sent ==> |out[0].data| == 4 && BigEndian(out[0].data) == challenge
    {
      ChallengeBytes(challenge);
      var buffer: Bytes := [challenge / 0x100_0000, challenge / 0x1_0000 % 256, challenge / 0x100 % 256,
                            challenge % 256];
      ret, out := SendResponse(buffer, SUCCESS, sent);
    }

    // --- SEND_TRUSTED_NAME_DESCRIPTOR ---

    // One address buffer of the transaction.
    method ApplyTrustedName(m: Message, i: nat, name: Bytes, owner: Bytes) returns (r: Message, applied: bool)
      ensures (r, applied) == ResolveAt(m, i, name, owner)
    {
      var address := Str(m, i);
      var current := CText(address);
      if |name| == |current| {
        if name == current {
          if |owner| < |address| {
            return SetStr(m, i, owner + Zeros(|address| - |owner|)), true;
          }
        }
      }
      return m, false;
    }

    method TrustedNameInternal(cmd: Command, sent: bool) returns (ret: int, out: seq<Output>)
      modifies this`ctx
      ensures Answered(ApplyDescriptor(p, old(ctx), cmd, challenge), sent, ret, out, ctx)
    {
      hide ResolveAt;
      if !ctx.sub.IsSwap() {
        ret, out := ReplyError(INTERNAL_ERROR, sent);
        return;
      }
      var d := p.readDescriptor(cmd.data);
      if d.BadDescriptor? {
        ret, out := SendResponse(d.code, WRONG_TRUSTED_NAME_TLV, sent);
        return;
      }
      if d.challenge == None {
        ret, out := ReplyError(MISSING_TLV_CONTENT, sent);
        return;
      }
      if d.challenge.value != challenge {
        ret, out := ReplyError(WRONG_TLV_CHALLENGE, sent);
        return;
      }
      if !d.contextAddress {
        ret, out := ReplyError(WRONG_TLV_CONTENT, sent);
        return;
      }
      if !d.dynamicResolver {
        ret, out := ReplyError(WRONG_TLV_CONTENT, sent);
        return;
      }
      var applied, again;
      var m := MessageIn(ctx.shared);
      m, applied := ApplyTrustedName(m, PAYOUT_ADDRESS, d.name, d.owner);
      m, again := ApplyTrustedName(m, REFUND_ADDRESS, d.name, d.owner);
      if !applied && !again {
        ret, out := ReplyError(DESCRIPTOR_NOT_USED, sent);
        return;
      }
      ctx := ctx.(shared := Decoded(m));
      ret, out := ReplyError(SUCCESS, sent);
    }

    // The challenge is drawn anew whatever became of the descriptor.
    method TrustedNameHandler(cmd: Command, sent: bool, roll: Word) returns (ret: int, out: seq<Output>)
      modifies this`ctx, this`challenge
      ensures Answered(ApplyDescriptor(p, old(ctx), cmd, old(challenge)), sent, ret, out, ctx) && challenge == roll
    {
      ret, out := TrustedNameInternal(cmd, sent);
      challenge := roll;
    }

    // --- CHECK_PAYOUT_ADDRESS, CHECK_ASSET_IN, CHECK_REFUND_ADDRESS ---

    // The configuration in a check command, its signature and its currency.
    method ReadConfiguration(cmd: Command) returns (status: nat, coin: Coin, parameters: Bytes)
      ensures match ReadCheck(p, ctx.ledgerKey, MessageIn(ctx.shared), cmd)
              case Refused(s) => status == s && status != 0
              case Readable(check) => status == 0 && check == Check(coin, parameters)
    {
      hide ParseAddressMessage, ParseCoinConfig, KnownAs, CText;
      coin := Coin([], [], []);
      var ok, config, der;
      ok, config, der, parameters := ParseCheckAddressMessage(cmd.data);
      if !ok {
        return INCORRECT_COMMAND_DATA, coin, parameters;
      }
      if !Verifies(p, ctx.ledgerKey, p.sha256(config), der) {
        return SIGN_VERIFICATION_FAIL, coin, parameters;
      }
      ok, coin := ParseCoinConfiguration(config);
      if !ok {
        return INCORRECT_COMMAND_DATA, coin, parameters;
      }
      TickerFits(config);
      var was := Zeros(10);
      ok := CheckMatchingTicker(coin.ticker, CurrencyOf(cmd, MessageIn(ctx.shared)), was);
      if !ok {
        return INCORRECT_COMMAND_DATA, coin, parameters;
      }
      return 0, coin, parameters;
    }

    lemma TickerFits(config: Bytes)
      ensures match ParseCoinConfig(config) case None => true case Some(coin) => 1 <= |coin.ticker| <= 9
    {
    }

    // check_payout_or_refund_address: 0, an error, or a missing application.
    method CheckPayoutOrRefundAddress(ins: Ins, check: Check) returns (status: nat, missing: bool)
      ensures if !Terminated(AddressOf(ins, MessageIn(ctx.shared))) then status == INCORRECT_COMMAND_DATA && !missing
              else match AddressVerdict(p, ins, MessageIn(ctx.shared), check)
                   case Belongs => status == 0 && !missing
                   case Foreign => status == INVALID_ADDRESS && !missing
                   case CheckerMissing => missing
    {
      hide CText, Str, AppName;
      var address, extra;
      var m := MessageIn(ctx.shared);
      if ins == CheckPayout {
        address, extra := Str(m, PAYOUT_ADDRESS), Str(m, PAYOUT_EXTRA_ID);
      } else {
        address, extra := Str(m, REFUND_ADDRESS), Str(m, REFUND_EXTRA_ID);
      }
      if !Terminated(address) {
        return INCORRECT_COMMAND_DATA, false;
      }
      var verdict := p.checkAddress(AppName(check.coin), check.coin.config, check.parameters, CText(address),
                                    CText(extra));
      match verdict
      case Belongs => return 0, false;
      case Foreign => return INVALID_ADDRESS, false;
      case CheckerMissing => return 0, true;
    }

    // get_printable_amount
    method GetPrintableAmount(check: Check, amount: Bytes, fee: bool) returns (status: nat, missing: bool, text: Bytes)
      ensures match p.format(AppName(check.coin), check.coin.config, amount, fee)
              case FormatterMissing => missing
              case Formatted(t) =>
                !missing && match ShownText(t)
                            case None => status == AMOUNT_FORMATTING_FAILED
                            case Some(shown) => status == 0 && text == shown
    {
      hide CText;
      match p.format(AppName(check.coin), check.coin.config, amount, fee)
      case FormatterMissing => return 0, true, [];
      case Formatted(t) =>
        if t[0] == 0 {
          return AMOUNT_FORMATTING_FAILED, false, [];
        }
        if t[49] != 0 {
          return AMOUNT_FORMATTING_FAILED, false, [];
        }
        return 0, false, CText(t);
    }

    // A result of the address and amount checks: a reply, the display of the review, or a missing
    // application.
    static ghost predicate Finished(r: Result, sent: bool, ret: int, out: seq<Output>, displayed: bool, missing: bool,
                             c: Context) {
      match r
      case Reply(_, _, _) => !missing && !displayed && Answered(r, sent, ret, out, c)
      case Display(c') => !missing && displayed && ret == 0 && out == [] && c == c'
      case Missing(c') => missing && c == c'
      case Launch(_) => false
    }

    method CheckAddressesAndAmounts(cmd: Command, sent: bool)
      returns (ret: int, out: seq<Output>, displayed: bool, missing: bool)
      requires TextStands(get[..], ctx) && Checkable(ctx)
      modifies this`ctx, get
      ensures ret >= 0 || missing ==> TextStands(get[..], ctx)
      ensures Finished(Flow.CheckAddressesAndAmounts(p, old(ctx), cmd), sent, ret, out, displayed, missing, ctx)
    {
      hide ReadCheck, AmountStep, AddressVerdict, AddressOf, Terminated;
      displayed, missing := false, false;
      var status, coin, parameters := ReadConfiguration(cmd);
      if status != 0 {
        ret, out := ReplyError(status, sent);
        return;
      }
      var check := Check(coin, parameters);
      if ctx.sub == Swap || ctx.sub == SwapNg {
        status, missing := CheckPayoutOrRefundAddress(cmd.ins, check);
        if missing {
          return 0, [], false, true;
        }
        if status != 0 {
          if status == INVALID_ADDRESS && cmd.ins == CheckPayout {
            ctx := ctx.(otherSeed := true);
          } else {
            ret, out := ReplyError(status, sent);
            return;
          }
        }
      }
      ret, out, displayed, missing := CheckAmounts(cmd, check, sent);
    }

    // format_relevant_amount and format_fees, and the rest.
    method CheckAmounts(cmd: Command, check: Check, sent: bool)
      returns (ret: int, out: seq<Output>, displayed: bool, missing: bool)
      requires TextStands(get[..], ctx) && Checkable(ctx)
      modifies this`ctx, get
      ensures ret >= 0 || missing ==> TextStands(get[..], ctx)
      ensures Finished(AmountStep(p, old(ctx), cmd, check), sent, ret, out, displayed, missing, ctx)
    {
      hide ExtrasStep, ShownText, Blob, InAmount, AppName;
      displayed, missing := false, false;
      var status, text;
      var m := MessageIn(ctx.shared);
      if ctx.sub.IsSwap() && cmd.ins == CheckPayout {
        status, missing, text := GetPrintableAmount(check, Blob(m, AMOUNT_TO_WALLET), false);
      } else {
        status, missing, text := GetPrintableAmount(check, InAmount(ctx.sub, m), false);
      }
      if missing {
        return 0, [], false, true;
      }
      if status != 0 {
        ret, out := ReplyError(status, sent);
        return;
      }
      if ctx.sub.IsSwap() && cmd.ins == CheckPayout {
        ShownFits(p, check, Blob(m, AMOUNT_TO_WALLET), text);
        PutText(text);
        ctx := ctx.(getText := text);
      } else {
        ctx := ctx.(sendText := text);
      }
      ret, out, displayed, missing := CheckFees(cmd, check, sent);
    }

    method CheckFees(cmd: Command, check: Check, sent: bool)
      returns (ret: int, out: seq<Output>, displayed: bool, missing: bool)
      requires TextStands(get[..], ctx) && Checkable(ctx)
      modifies this`ctx, get
      ensures ret >= 0 || missing ==> TextStands(get[..], ctx)
      ensures Finished(FeesStep(p, old(ctx), cmd, check), sent, ret, out, displayed, missing, ctx)
    {
      hide ExtrasStep, ShownText, AppName;
      displayed, missing := false, false;
      if cmd.ins != CheckPayout {
        var status, text;
        status, missing, text := GetPrintableAmount(check, ctx.fee, true);
        if missing {
          return 0, [], false, true;
        }
        if status != 0 {
          ret, out := ReplyError(status, sent);
          return;
        }
        ctx := ctx.(feesText := text);
      }
      ret, out, displayed := FinishCheck(cmd, check, sent);
    }

    // format_fiat_amount: the currency and a space, and the amount behind them, in place.
    method FormatFiatAmount() returns (ok: bool)
      requires Attempted(get[..], ctx) && ctx.state.SignatureChecked?
      modifies this`ctx, get
      ensures var m := MessageIn(old(ctx).shared);
              match FiatAmount(m)
              case None =>
                !ok && ctx == old(ctx).(getText := if |FiatPrefix(m)| >= 50 then old(ctx).getText else FiatPrefix(m))
              case Some(t) => ok && ctx == old(ctx).(getText := t)
      ensures |get[..]| == 50 && TextIn(get[..]) == ctx.getText && (!ok ==> Attempted(get[..], ctx))
    {
      hide CText, Str, Blob, Ascii, Decimal.FiatText, Decimal.Repeat;
      var m := MessageIn(ctx.shared);
      var currency := CText(Str(m, OUT_CURRENCY));
      var len := |currency|;
      if len + 1 >= 50 {
        return false;
      }
      ghost var was := get[..];
      PutText(currency);
      get[len] := ' ';
      get[len + 1] := Decimal.NUL;
      ctx := ctx.(getText := currency + [32]);
      PrefixPut(was, get[..], currency, old(ctx).getText);
      ghost var empty := Decimal.Repeat(Decimal.NUL, 49 - len);
      ghost var front := get[..len + 1];
      assert get[len + 1..len + 1 + (49 - len)] == empty;
      var amount := if OUT_AMOUNT < |m| && m[OUT_AMOUNT].VMsg? then m[OUT_AMOUNT].fields else [];
      var exponent := if 1 < |amount| && amount[1].VUint? then amount[1].n else 0;
      ok := Decimal.GetFiatPrintableAmount(Blob(amount, 0), exponent, get, len + 1, 49 - len);
      if !ok {
        return false;
      }
      ghost var s := Decimal.FiatText(empty, Blob(amount, 0), exponent).value;
      FiatSize(empty, Blob(amount, 0), exponent);
      assert get[..] == front + s;
      AsciiJoins(front, s);
      ctx := ctx.(getText := TextIn(get[..]));
    }

    lemma FiatSize(was: string, coefficient: Bytes, exponent: nat)
      ensures match Decimal.FiatText(was, coefficient, exponent) case None => true case Some(s) => |s| == |was|
    {
    }

    lemma AsciiJoins(a: string, b: string)
      ensures Ascii(a + b) == Ascii(a) + Ascii(b)
    {
    }

    // The currency and the space, in a buffer that was clean behind nothing, or behind the same.
    lemma PrefixPut(was: string, s: string, currency: Bytes, text: Bytes)
      requires Clean(was, text) && (text == [] || text == currency + [32]) && |s| == 50 && |currency| + 1 < 50
               && 0 !in currency
      requires Ascii(s[..|currency|]) == currency && s[|currency|] == ' ' && s[|currency| + 1] == Decimal.NUL
      requires forall i :: |currency| + 1 < i < 50 ==> s[i] == was[i]
      ensures Clean(s, currency + [32]) && Ascii(s[..|currency| + 1]) == currency + [32]
      ensures s[|currency| + 1..50] == Decimal.Repeat(Decimal.NUL, 49 - |currency|)
    {
      hide TextIn, CText, Ascii;
      var n := |currency| + 1;
      PrefixText(s, currency, n);
      assert forall i :: n <= i < 50 ==> s[i] == Decimal.NUL;
      assert s[n..50] == Decimal.Repeat(Decimal.NUL, 50 - n);
    }

    lemma PrefixText(s: string, currency: Bytes, n: nat)
      requires |s| == 50 && n == |currency| + 1 < 50 && 0 !in currency
      requires Ascii(s[..n - 1]) == currency && s[n - 1] == ' ' && s[n] == Decimal.NUL
      ensures TextIn(s) == currency + [32] && Ascii(s[..n]) == currency + [32]
    {
      var t, front, rest := currency + [32], s[..n], s[n..];
      assert front == s[..n - 1] + [' '] && s == front + rest;
      AsciiJoins(s[..n - 1], [' ']);
      AsciiJoins(front, rest);
      assert Ascii([' ']) == [32] && Ascii(rest)[0] == 0;
      hide CText, Ascii;
      CTextOf(t, Ascii(rest));
    }

    // What an application shows fits the buffer.
    lemma ShownFits(p: Platform, check: Check, amount: Bytes, text: Bytes)
      requires match p.format(AppName(check.coin), check.coin.config, amount, false)
               case FormatterMissing => false
               case Formatted(t) => ShownText(t) == Some(text)
      ensures |text| < 50 && 0 !in text
    {
    }

    // The texts that need no application, what is saved for the signing, and the answer.
    method FinishCheck(cmd: Command, check: Check, sent: bool) returns (ret: int, out: seq<Output>, displayed: bool)
      requires TextStands(get[..], ctx) && Checkable(ctx)
      modifies this`ctx, get
      ensures ret >= 0 ==> TextStands(get[..], ctx)
      ensures Finished(ExtrasStep(old(ctx), cmd, check), sent, ret, out, displayed, false, ctx)
    {
      hide FiatAmount, FiatPrefix, AccountName, AppName;
      displayed := false;
      if ctx.sub == Sell || ctx.sub == SellNg {
        var ok := FormatFiatAmount();
        if !ok {
          ret, out := ReplyError(INTERNAL_ERROR, sent);
          return;
        }
      }
      if ctx.sub == Fund || ctx.sub == FundNg {
        AccountFits(MessageIn(ctx.shared));
        PutText(AccountName(MessageIn(ctx.shared)));
        ctx := ctx.(getText := AccountName(MessageIn(ctx.shared)));
      }
      ret, out, displayed := SaveCheck(cmd, check, sent);
    }

    lemma AccountFits(m: Message)
      ensures |AccountName(m)| < 50 && 0 !in AccountName(m)
    {
    }

    method SaveCheck(cmd: Command, check: Check, sent: bool) returns (ret: int, out: seq<Output>, displayed: bool)
      modifies this`ctx
      ensures Finished(SaveStep(old(ctx), cmd, check), sent, ret, out, displayed, false, ctx)
    {
      hide AppName;
      displayed := false;
      if cmd.ins != CheckPayout {
        ctx := ctx.(payingApp := AppName(check.coin));
        ctx := ctx.(payingConfig := check.coin.config);
        ctx := ctx.(rate := cmd.rate);
      }
      if cmd.ins == AssetInDisplay || cmd.ins == RefundDisplay {
        ctx := ctx.(state := WaitingUser);
        return 0, [], true;
      }
      ret, out := ReplyError(SUCCESS, sent);
      if ret < 0 {
        return;
      }
      if cmd.ins == CheckPayout {
        ctx := ctx.(state := PayoutChecked);
      } else {
        ctx := ctx.(state := AllChecked);
      }
    }

    // --- PROMPT_UI_DISPLAY, START_SIGNING_TRANSACTION ---

    // One more entry: its item, its value, and the index.
    method AddPair(pairs: array<Pair>, index: nat, item: Bytes, value: Bytes) returns (next: nat)
      requires index < pairs.Length
      modifies pairs
      ensures next == index + 1 && pairs[..next] == old(pairs[..index]) + [Pair(item, value)]
    {
      pairs[index] := Pair(item, value);
      next := index + 1;
    }

    // prepare_pairs_list: the pairs fit the eight entries there are.
    method PreparePairsList() returns (list: seq<Pair>)
      ensures list == ReviewPairs(p, ctx)
    {
      hide Ascii, CText, Str, ReviewHead;
      var m := MessageIn(ctx.shared);
      var pairs := new Pair[8](_ => Pair([], []));
      var index := PrepareHead(pairs);
      index := AddPair(pairs, index, Ascii("Send"), ctx.sendText);
      if ctx.sub == Fund || ctx.sub == FundNg {
        index := AddPair(pairs, index, ctx.partnerName, ctx.getText);
      } else if ctx.rate == 1 {
        index := AddPair(pairs, index, Ascii("Receive estimated"), ctx.getText);
      } else {
        index := AddPair(pairs, index, Ascii("Receive"), ctx.getText);
      }
      index := AddPair(pairs, index, Ascii("Fees"), ctx.feesText);
      if ctx.otherSeed {
        index := AddPair(pairs, index, Ascii("Receive address"), CText(Str(m, PAYOUT_ADDRESS)));
      }
      list := pairs[..index];
      InOrder(ReviewHead(p, ctx), Pair(Ascii("Send"), ctx.sendText), ReviewGet(ctx), Pair(Ascii("Fees"), ctx.feesText));
    }

    lemma InOrder(head: seq<Pair>, a: Pair, b: Pair, c: Pair)
      ensures head + [a] + [b] + [c] == head + [a, b, c] && head + [a, b, c] + [] == head + [a, b, c]
    {
    }

    method PrepareHead(pairs: array<Pair>) returns (index: nat)
      requires pairs.Length == 8
      modifies pairs
      ensures index <= 4 && pairs[..index] == ReviewHead(p, ctx)
    {
      hide Ascii, CText, Str;
      var m := MessageIn(ctx.shared);
      index := 0;
      if !p.wallet && ctx.otherSeed {
        index := AddPair(pairs, index, Ascii("Warning"),
                         Ascii("Receive address does not belong to this Ledger device"));
        index := AddPair(pairs, index, Ascii("Learn more at"), Ascii("ledger.com/e13"));
      }
      assert pairs[..index] == ReviewWarning(p, ctx);
      hide ReviewWarning;
      if ctx.sub != Fund && ctx.sub != FundNg {
        index := AddPair(pairs, index, Ascii("Exchange partner"), ctx.partnerName);
      }
      assert pairs[..index] == ReviewWarning(p, ctx) + ReviewPartner(ctx);
      hide ReviewPartner;
      if ctx.sub == Sell || ctx.sub == SellNg {
        index := AddPair(pairs, index, Ascii("Email"), CText(Str(m, TRADER_EMAIL)));
      } else if ctx.sub == Fund || ctx.sub == FundNg {
        index := AddPair(pairs, index, Ascii("User"), CText(Str(m, USER_ID)));
      }
    }

    // ui_validate_amounts
    method ValidateAmounts()
      modifies this`ui
      ensures ui == Prompted(p, ctx)
    {
      hide ReviewPairs;
      var pairs := PreparePairsList();
      if ctx.otherSeed {
        if p.wallet {
          ui := WarningShown(pairs);
        } else {
          ui := ReviewShown(pairs);
        }
      } else {
        ui := ReviewShown(pairs);
      }
    }

    method StartSigningTransaction(cmd: Command, sent: bool) returns (ret: int, out: seq<Output>)
      modifies this`ctx
      ensures if !sent then ret == -1 && out == [] && ctx == old(ctx)
              else ret == 0 && out == [Replied(SUCCESS, []), Launched(RequestOf(old(ctx), cmd.sub))]
                   && ctx == old(ctx).(state := SignFinished)
    {
      ret, out := ReplyError(SUCCESS, sent);
      if ret < 0 {
        return;
      }
      var amount, address, extra;
      var m := MessageIn(ctx.shared);
      hide CText;
      if cmd.sub == Swap || cmd.sub == SwapNg {
        amount, address := Blob(m, AMOUNT_TO_PROVIDER), CText(Str(m, PAYIN_ADDRESS));
        if |Blob(m, PAYIN_EXTRA_DATA)| == 33 {
          extra := Blob(m, PAYIN_EXTRA_DATA);
        } else {
          extra := CText(Str(m, PAYIN_EXTRA_ID));
        }
      } else if cmd.sub == Sell || cmd.sub == SellNg {
        amount, address, extra := Blob(m, SELL_IN_AMOUNT), CText(Str(m, SELL_IN_ADDRESS)),
          CText(Str(m, SELL_IN_EXTRA_ID));
      } else {
        amount, address, extra := Blob(m, FUND_IN_AMOUNT), CText(Str(m, FUND_IN_ADDRESS)),
          CText(Str(m, FUND_IN_EXTRA_ID));
      }
      out := out + [Launched(Request(ctx.payingApp, ctx.payingConfig, amount, ctx.fee, address, extra))];
      ctx := ctx.(state := SignFinished);
    }

    // --- the dispatcher ---

    // What the dispatcher leaves, of any result.
    static ghost predicate Dispatched(r: Result, before: Context, sent: bool, ret: int, out: seq<Output>,
                                      displayed: bool, missing: bool, c: Context) {
      match r
      case Launch(request) =>
        !displayed && !missing
        && (if !sent then ret == -1 && out == []
            else ret == 0 && out == [Replied(SUCCESS, []), Launched(request)] && c.state == SignFinished)
      case _ => Finished(r, sent, ret, out, displayed, missing, c)
    }

    method DispatchCommand(cmd: Command, rng: Random, sent: bool, roll: Word)
      returns (ret: int, out: seq<Output>, displayed: bool, missing: bool)
      requires TextStands(get[..], ctx) && Welcome(cmd.ins, cmd.sub, ctx.state, ctx.sub)
      modifies this`ctx, this`challenge, get
      ensures ret >= 0 || missing ==> TextStands(get[..], ctx)
      ensures Dispatched(Handle(p, old(ctx), cmd, rng, old(challenge)), old(ctx), sent, ret, out, displayed, missing,
                         ctx)
      ensures challenge == if cmd.ins.TrustedName? then roll else old(challenge)
    {
      hide Answered, Flow.StartNewTransaction, Flow.SetPartnerKey, CheckPartnerKey, Flow.ProcessTransaction,
           CheckTransactionSignature, ApplyDescriptor, Flow.CheckAddressesAndAmounts, RequestOf, GetChallengeReply;
      AnswersReply(p, ctx, cmd, rng, challenge);
      if IsCheck(cmd.ins) { ChecksAreCheckable(cmd.ins, cmd.sub, ctx.state, ctx.sub); }
      hide Welcome, TextIn, Attempted;
      if !cmd.ins.StartNew? && !IsCheck(cmd.ins) && !cmd.ins.StartSigning? {
        TextKept(p, get[..], ctx, cmd, rng, challenge);
      }
      displayed, missing := false, false;
      match cmd.ins {
        case GetVersion => ret, out := GetVersionHandler(sent);
        case StartNew => ret, out := StartNewTransaction(cmd, rng, sent);
        case SetPartner => ret, out := SetPartnerKey(cmd, sent);
        case CheckPartner => ret, out := CheckPartner(cmd, sent);
        case Process => ret, out := ProcessTransaction(cmd, sent);
        case CheckSignature => ret, out := CheckTxSignature(cmd, sent);
        case GetChallenge => ret, out := GetChallengeHandler(sent);
        case TrustedName => ret, out := TrustedNameHandler(cmd, sent, roll);
        case Prompt =>
          ctx := ctx.(state := WaitingUser);
          ret, out, displayed := 0, [], true;
        case StartSigning => ret, out := StartSigningTransaction(cmd, sent);
        case _ => ret, out, displayed, missing := CheckAddressesAndAmounts(cmd, sent);
      }
      if (ret >= 0 || missing) && !cmd.ins.StartNew? && !IsCheck(cmd.ins) && !cmd.ins.StartSigning? {
        TextLeft(Handle(p, old(ctx), cmd, rng, old(challenge)), get[..], sent, ret, out, displayed, missing, ctx);
      }
    }

    // All but the checks, the prompt and the signing answer with a reply.
    lemma AnswersReply(p: Platform, c: Context, cmd: Command, rng: Random, challenge: Word)
      ensures Flow.StartNewTransaction(p, cmd.sub, rng).Reply? && Flow.SetPartnerKey(p, c, cmd).Reply?
      ensures CheckPartnerKey(p, c, cmd).Reply? && Flow.ProcessTransaction(p, c, cmd).Reply?
      ensures CheckTransactionSignature(p, c, cmd).Reply? && ApplyDescriptor(p, c, cmd, challenge).Reply?
    {
      hide ParsePartner, ParseTransaction, Deserialize, ExtraOk, IdMatches, Prepared, ParseSignature, ResolveNames,
           ShownName;
    }

    method GetVersionHandler(sent: bool) returns (ret: int, out: seq<Output>)
      ensures Answered(Reply(ctx, SUCCESS, p.version), sent, ret, out, ctx)
    {
      ret, out := SendResponse(p.version, SUCCESS, sent);
    }

    // --- reception ---

    // The checks in front of the chunks: 0 and the header, or the status to answer.
    method CheckHeader(apdu: Bytes) returns (status: nat, h: Header)
      ensures match ReadHeader(apdu, ctx.state, ctx.sub)
              case BadHeader(s) => status == s && status != 0
              case GoodHeader(header) => status == 0 && h == header
    {
      hide InstructionStatus, InsOf, SubOf;
      h := Header(GetVersion, 0, Swap, true, true);
      if |apdu| < 5 {
        return MALFORMED_APDU, h;
      }
      if apdu[4] != |apdu| - 5 {
        return MALFORMED_APDU, h;
      }
      if apdu[0] != CLA {
        return CLASS_NOT_SUPPORTED, h;
      }
      var rate := apdu[2];
      if rate != 0 && rate != 1 {
        return WRONG_P1, h;
      }
      var known := SubOf(apdu[3] % 16);
      if known.None? {
        return WRONG_P2_SUBCOMMAND, h;
      }
      var sub := known.value;
      var code := apdu[1];
      if code == 0x08 && (sub == Sell || sub == Fund) {
        code := 0x0B;
      }
      status := CheckInstruction(code, sub, ctx.state, ctx.sub);
      if status != 0 {
        return;
      }
      status, h := CheckExtension(code, rate, sub, apdu[3] / 16);
    }

    method CheckExtension(code: byte, rate: byte, sub: Sub, extension: nat) returns (status: nat, h: Header)
      requires InstructionStatus(code, sub, ctx.state, ctx.sub) == 0
      ensures match ReadExtension(code, rate, sub, extension)
              case BadHeader(s) => status == s && status != 0
              case GoodHeader(header) => status == 0 && h == header
    {
      hide OfOtherFlow, RequiredState;
      h := Header(GetVersion, 0, Swap, true, true);
      if extension > 3 {
        return WRONG_P2_EXTENSION, h;
      }
      var first, last := extension % 2 == 0, extension / 2 % 2 == 0;
      var whole := first && last;
      if !sub.IsNg() && !whole {
        return WRONG_P2_EXTENSION, h;
      }
      if code != 0x06 && !whole {
        return WRONG_P2_EXTENSION, h;
      }
      return 0, Header(InsOf(code).value, rate, sub, first, last);
    }

    // memcpy into the shared buffer.
    method CopyRaw(at: nat, data: Bytes)
      requires at + |data| <= raw.Length
      modifies raw
      ensures raw[..at] == old(raw[..at]) && raw[at..at + |data|] == data
    {
      for i := 0 to |data|
        invariant raw[..at] == old(raw[..at]) && raw[at..at + i] == data[..i]
      {
        raw[at + i] := data[i];
        assert raw[at..at + i + 1] == raw[at..at + i] + [data[i]];
      }
    }

    // What a reception left in place of the state before.
    ghost predicate Took(r: Reception, before: World, status: nat, cmd: Command)
      reads this
    {
      match r
      case Rejected(s) => status == s != 0 && Now() == before
      case More(rx', shared, chunk) =>
        status == SUCCESS
        && Now() == before.(rx := rx', context := before.context.(shared := shared),
                            accepted := before.accepted + [chunk])
      case Complete(rx', shared, chunk, command) =>
        status == 0 && cmd == command
        && Now() == before.(rx := rx', context := before.context.(shared := shared),
                            accepted := before.accepted + [chunk])
    }

    /** check_apdu_validity */
    method CheckApduValidity(apdu: Bytes) returns (status: nat, cmd: Command)
      requires Valid()
      modifies this`ctx, this`rx, this`accepted, raw
      ensures Valid()
              && Took(Accept(old(rx), old(ctx.shared), old(ctx.state), old(ctx.sub), apdu), old(Now()), status, cmd)
      ensures status == 0 ==> !rx.expecting && ui.Idle? && Welcome(cmd.ins, cmd.sub, ctx.state, ctx.sub)
    {
      hide ReadHeader, Receive, Welcome;
      cmd := Command(GetVersion, 0, Swap, []);
      var h;
      status, h := CheckHeader(apdu);
      HeaderStatus(apdu, ctx.state, ctx.sub);
      if status != 0 {
        return;
      }
      GoodData(apdu, ctx.state, ctx.sub);
      HeaderWelcome(apdu, ctx.state, ctx.sub);
      WelcomeState(h.ins, h.sub, ctx.state, ctx.sub);
      status, cmd := TakeChunk(Chunk(h, apdu[5..]));
    }

    lemma GoodData(apdu: Bytes, state: State, flow: Sub)
      requires ReadHeader(apdu, state, flow).GoodHeader?
      ensures |apdu| >= 5 && |apdu[5..]| <= 255
    {
      hide InstructionStatus, ReadExtension, Modern, SubOf;
    }

    // The second half: chunks.
    method TakeChunk(chunk: Chunk) returns (status: nat, cmd: Command)
      requires Valid() && ui.Idle? && |chunk.data| <= 255
      requires (chunk.header.first && chunk.header.last) || ctx.state.ProviderChecked?
      modifies this`ctx, this`rx, this`accepted, raw
      ensures Valid() && Took(Receive(old(rx), old(ctx.shared), chunk), old(Now()), status, cmd)
      ensures status == 0 ==> !rx.expecting && ctx == old(ctx).(shared := ctx.shared) && SameHeader(cmd, chunk.header)
    {
      var h, data := chunk.header, chunk.data;
      cmd := Command(h.ins, h.rate, h.sub, data);
      if h.first {
        rx := Rx(rx.expecting, InsCode(h.ins), h.rate, SubCode(h.sub), |data|);
        if !h.last {
          CopyRaw(0, data);
          ctx := ctx.(shared := Chunks(raw[..|data|]));
          rx := rx.(expecting := true);
        }
      } else {
        if !rx.expecting {
          return INVALID_P2_EXTENSION, cmd;
        }
        if rx.instruction != InsCode(h.ins) || rx.rate != h.rate || rx.subcommand != SubCode(h.sub) {
          return INVALID_P2_EXTENSION, cmd;
        }
        if rx.length + |data| > raw.Length {
          return INVALID_P2_EXTENSION, cmd;
        }
        ghost var was := raw[..rx.length];
        CopyRaw(rx.length, data);
        rx := rx.(length := rx.length + |data|);
        assert raw[..rx.length] == was + data;
        ctx := ctx.(shared := Chunks(raw[..rx.length]));
      }
      accepted := accepted + [chunk];
      if !h.last {
        return SUCCESS, cmd;
      }
      rx := rx.(expecting := false);
      if !h.first {
        cmd := cmd.(data := raw[..rx.length]);
      }
      status := 0;
    }

    predicate SameHeader(cmd: Command, h: Header) { cmd.ins == h.ins && cmd.rate == h.rate && cmd.sub == h.sub }

    // --- the main loop ---

    // What the state after a handler can be.
    lemma ResultStates(p: Platform, c: Context, cmd: Command, rng: Random, challenge: Word)
      requires Welcome(cmd.ins, cmd.sub, c.state, c.sub) && !c.state.SignFinished?
      ensures match Handle(p, c, cmd, rng, challenge)
              case Reply(c', _, _) => !c'.state.SignFinished?
              case Display(c') => c'.state.WaitingUser?
              case Missing(c') => c'.state == c.state
              case Launch(_) => true
    {
      hide OfOtherFlow, Flow.SetPartnerKey, CheckPartnerKey, Flow.ProcessTransaction, CheckTransactionSignature,
           ApplyDescriptor, RequestOf, Flow.CheckAddressesAndAmounts;
      if cmd.ins.StartNew? || cmd.ins.GetVersion? {
      } else {
        HandleOnward(p, c, cmd, rng, challenge);
      }
    }

    // The screens gone, a new challenge.
    method Restart(roll: Word)
      modifies this`ui, this`challenge
      ensures ui.Idle? && challenge == roll
    {
      ui, challenge := Idle, roll;
    }

    // A complete command, from dispatch to what the loop makes of the outcome.
    method RunCommand(cmd: Command, rng: Random, sent: bool, roll: Word) returns (out: seq<Output>)
      requires Valid() && !rx.expecting && ui.Idle? && Welcome(cmd.ins, cmd.sub, ctx.state, ctx.sub)
      modifies this`ctx, this`rx, this`challenge, this`ui, this`log, get
      ensures Valid() && Now() == Device.Dispatch(p, old(Now()), cmd, rng, sent, roll).0
              && out == Device.Dispatch(p, old(Now()), cmd, rng, sent, roll).1
    {
      hide Handle, Welcome, Logged, Noted, Prompted;
      ResultStates(p, ctx, cmd, rng, challenge);
      ghost var before, history := ctx, log;
      var ret, displayed, missing;
      ret, out, displayed, missing := DispatchCommand(cmd, rng, sent, roll);
      if missing {
        // os_lib_call has thrown: the context stays as it is.
        Restart(roll);
        log := Noted(p, before, cmd, history);
        out := [Replied(APPLICATION_NOT_INSTALLED, [])];
      } else if ret < 0 {
        Clear();
        Restart(roll);
        log := [];
      } else if displayed {
        ValidateAmounts();
        log := Noted(p, before, cmd, history) + [Did(cmd)];
      } else if ctx.state == SignFinished {
        // Back from the signing application: all globals are zeroed.
        Clear();
        Restart(roll);
        rx := NO_RX;
        log := [];
      } else {
        log := Logged(p, before, cmd, ctx, out[0].status, history);
      }
    }

    /** One round of app_main on a received APDU. */
    method Round(apdu: Bytes, rng: Random, sent: bool, roll: Word) returns (out: seq<Output>)
      requires Valid()
      modifies this, raw, get
      ensures Valid() && Now() == Step(p, old(Now()), Apdu(apdu, rng, sent, roll)).0
              && out == Step(p, old(Now()), Apdu(apdu, rng, sent, roll)).1
    {
      hide Accept, Device.Dispatch, Welcome;
      var ret;
      var status, cmd := CheckApduValidity(apdu);
      if status != 0 {
        ret, out := ReplyError(status, sent);
        return;
      }
      out := RunCommand(cmd, rng, sent, roll);
    }

    method ReceptionError(roll: Word)
      requires Valid()
      modifies this`ctx, this`ui, this`challenge, this`log, get
      ensures Valid() && Now() == Step(p, old(Now()), ReceptionFailed(roll)).0
    {
      Clear();
      Restart(roll);
      log := [];
    }

    method Reset(roll: Word)
      requires Valid()
      modifies this`ctx, this`ui, this`challenge
      ensures Valid() && Now() == Step(p, old(Now()), IoReset(roll)).0
    {
      Restart(roll);
    }

    // --- the user's answers ---

    method HandleRefusal(status: nat) returns (out: seq<Output>)
      requires Valid() && !rx.expecting
      modifies this`ctx, this`ui, this`log
      ensures Valid() && Now() == Refusal(old(Now()), status).0 && out == Refusal(old(Now()), status).1
    {
      var ret;
      ret, out := ReplyError(status, true);
      ui := Idle;
      ctx := ctx.(state := Initial);
      log := [];
    }

    method OnWarningChoice(confirm: bool) returns (out: seq<Output>)
      requires Valid() && ui.WarningShown?
      modifies this`ctx, this`ui, this`log
      ensures Valid() && Now() == Step(p, old(Now()), WarningChoice(confirm)).0
              && out == Step(p, old(Now()), WarningChoice(confirm)).1
    {
      if confirm {
        ui := ReviewShown(ui.pairs);
        return [];
      }
      out := HandleRefusal(USER_REFUSED_CROSS_SEED);
    }

    method OnReviewChoice(confirm: bool) returns (out: seq<Output>)
      requires Valid() && ui.ReviewShown?
      modifies this`ctx, this`ui, this`log
      ensures Valid() && Now() == Step(p, old(Now()), ReviewChoice(confirm)).0
              && out == Step(p, old(Now()), ReviewChoice(confirm)).1
    {
      var ret;
      if confirm {
        log := log + [Approved(ui.pairs)];
        ui := Idle;
        ret, out := ReplyError(SUCCESS, true);
        ctx := ctx.(state := WaitingSigning);
      } else {
        var status := USER_REFUSED_TRANSACTION;
        if !p.wallet {
          if ctx.otherSeed {
            status := USER_REFUSED_CROSS_SEED;
          }
        }
        out := HandleRefusal(status);
      }
    }
  }

  /** The device on any inputs is the run of the model. */
  method Serve(p: Platform, boot: Word, inputs: seq<Input>) returns (app: App)
    ensures fresh(app) && app.Valid() && app.p == p && app.Now() == Run(p, boot, inputs)
  {
    hide Step;
    app := new App(p, boot);
    for i := 0 to |inputs|
      invariant fresh(app) && fresh(app.raw) && fresh(app.get) && app.Valid() && app.p == p
                && app.Now() == Run(p, boot, inputs[..i])
    {
      assert inputs[..i + 1][..i] == inputs[..i];
      ServeOne(app, inputs[i]);
    }
    assert inputs[..|inputs|] == inputs;
  }

  // An answer to a screen that is not there does not happen.
  method ServeOne(app: App, input: Input)
    requires app.Valid()
    modifies app, app.raw, app.get
    ensures app.Valid() && app.Now() == Step(app.p, old(app.Now()), input).0
  {
    hide Accept, Device.Dispatch, Refusal;
    var out;
    match input
    case Apdu(bytes, rng, sent, roll) => out := app.Round(bytes, rng, sent, roll);
    case ReceptionFailed(roll) => app.ReceptionError(roll);
    case WarningChoice(confirm) => if app.ui.WarningShown? { out := app.OnWarningChoice(confirm); }
    case ReviewChoice(confirm) => if app.ui.ReviewShown? { out := app.OnReviewChoice(confirm); }
    case IoReset(roll) => app.Reset(roll);
  }
}
