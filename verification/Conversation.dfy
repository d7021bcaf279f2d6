/** The whole exchange of the client's test runner (client/src/ledger_app_clients/exchange/test_runner.py),
    from START_NEW_TRANSACTION to the signing. */
module Conversation {
  import opened Common
  import opened Commands
  import opened Messages
  import opened Normalize
  import opened Transactions
  import opened Pb
  import opened Flow
  import opened Apdu
  import opened Device
  import opened Replay
  import opened FlowLaws
  import opened FlowTheorems
  import opened Splitting
  import opened TransactionShape

  // --- who takes part ---

  // A currency of the configuration authority, with the path of the address in question.
  datatype Currency = Currency(ticker: Bytes, app: Bytes, config: Bytes, der: Bytes, path: Bytes)

  predicate Legal(k: Currency) {
    && 1 <= |k.ticker| <= 9 && 3 <= |k.app| <= 32 && |k.config| <= 64
    && 67 <= |k.der| <= 73 && k.der[1] as int + 2 == |k.der| && 1 <= |k.path| < 0x100
    && |SignedConfig(CurrencyConfig(k.ticker, k.app, k.config), k.der, k.path)| <= 255
  }

  function CheckOf(k: Currency): Check { Check(Coin(k.ticker, AliasedApp(k.app), k.config), k.path) }

  function SignedPart(k: Currency): Bytes
    requires Legal(k)
  {
    CurrencyConfig(k.ticker, k.app, k.config)
  }

  // get_conf_for_ticker
  function Configuration(k: Currency): (b: Bytes)
    requires Legal(k)
    ensures |b| <= 255
  {
    SignedConfig(SignedPart(k), k.der, k.path)
  }

  // The flow and the random bytes of its id, the partner and Ledger's signature on its credentials, the
  // partner's proposal and signature, the currencies paid and received, and a payout check that comes first
  // and fails, if any.
  datatype Deal = Deal(
    sub: Sub, rate: byte, rng: Random, roll: Word,
    partner: Partner, vouching: Bytes,
    payload: Bytes, base64: bool, fees: nat,
    dotted: bool, plain: bool, signature: Bytes,
    paid: Currency, received: Currency, stray: Option<Currency>)

  // encode_transaction_signature
  function EncodedSignature(d: Deal): Bytes {
    (if d.sub.IsNg() then [if d.dotted then 1 else 0, if d.plain then 1 else 0] else []) + d.signature
  }

  function PartnerKey(d: Deal): Key { Key(d.partner.curve, d.partner.key) }

  function SignedPayload(d: Deal): Bytes { if d.dotted then Dotted(d.payload) else d.payload }

  // --- when everyone does their part ---

  // The formats of the flow are kept, and the client's builders do not raise.
  ghost predicate WellBuilt(d: Deal) {
    && d.rate <= 1 && 3 <= |d.partner.name| <= 15 && |d.partner.key| == 65 && 67 <= |d.vouching| <= 73
    && (d.sub.Swap? ==> d.partner.curve.Secp256k1? && !d.base64 && !d.dotted && !d.plain)
    && (d.sub.Sell? ==> d.partner.curve.Secp256r1? && d.base64 && d.dotted && d.plain)
    && (d.sub.Fund? ==> d.partner.curve.Secp256r1? && d.base64 && d.dotted && !d.plain)
    && CraftTransaction(d.sub, d.payload, d.fees, d.base64).Some? && d.fees < Pow(256, 16)
    && |CraftTransaction(d.sub, d.payload, d.fees, d.base64).value|
       <= (if d.sub.IsNg() then RAW_TRANSACTION_SIZE else 255)
    && SignatureAsDer(d.plain, d.signature).Some? && |d.signature| <= 73
    && Legal(d.paid) && Legal(d.received) && (d.stray.Some? ==> Legal(d.stray.value))
  }

  // Ledger and the partner have signed, and the payload carries the id issued for it.
  ghost predicate WellSigned(p: Platform, d: Deal, m: Message)
    requires WellBuilt(d)
  {
    && p.validKey(LedgerKey(p)) && p.validKey(PartnerKey(d))
    && p.verify(LedgerKey(p), p.sha256(Credentials(d.sub, d.partner)), d.vouching)
    && p.verify(PartnerKey(d), p.sha256(SignedPayload(d)), SignatureAsDer(d.plain, d.signature).value)
    && Deserialize(d.sub, d.payload, d.base64) == Ready(m)
    && ExtraOk(d.sub, m) && IdMatches(d.sub, m, FreshId(d.sub, d.rng))
  }

  // A currency's configuration is signed, and of the name a field of the transaction has.
  predicate Names(p: Platform, k: Currency, name: Bytes)
    requires Legal(k)
  {
    p.verify(LedgerKey(p), p.sha256(SignedPart(k)), k.der) && KnownAs(CText(k.ticker)) == KnownAs(CText(name))
  }

  // The text a currency's application shows for an amount.
  function TextFor(p: Platform, k: Currency, amount: Bytes, fee: bool): Option<Bytes> {
    match p.format(AppName(CheckOf(k).coin), k.config, amount, fee)
    case FormatterMissing => None
    case Formatted(text) => ShownText(text)
  }

  // What a currency's application says of an address of the transaction.
  function VerdictOf(p: Platform, ins: Ins, n: Message, k: Currency): Verdict { AddressVerdict(p, ins, n, CheckOf(k)) }

  // The applications know their addresses and show the amounts; the one of a check that fails has no text,
  // or is not there for it.
  ghost predicate WellServed(p: Platform, d: Deal, m: Message)
    requires WellBuilt(d)
  {
    var n := Prepared(d.sub, m);
    && Names(p, d.paid, InCurrency(d.sub, m)) && TextFor(p, d.paid, InAmount(d.sub, n), false).Some?
    && TextFor(p, d.paid, MinimalBytes(d.fees), true).Some?
    && (d.sub.IsSell() ==> FiatAmount(n).Some?)
    && (d.sub.IsSwap() ==>
          && VerdictOf(p, RefundNoDisplay, n, d.paid).Belongs?
          && PayoutServed(p, m, n, d.received) && TextFor(p, d.received, Blob(n, AMOUNT_TO_WALLET), false).Some?
          && (d.stray.Some? ==>
                PayoutServed(p, m, n, d.stray.value)
                  && TextFor(p, d.stray.value, Blob(n, AMOUNT_TO_WALLET), false).None?))
  }

  ghost predicate PayoutServed(p: Platform, m: Message, n: Message, k: Currency)
    requires Legal(k)
  {
    Names(p, k, Str(m, CURRENCY_TO)) && !VerdictOf(p, CheckPayout, n, k).CheckerMissing?
  }

  ghost predicate Fair(p: Platform, d: Deal, m: Message) { WellBuilt(d) && WellSigned(p, d, m) && WellServed(p, d, m) }

  // --- what is said ---

  // _exchange
  function Say(d: Deal, ins: Ins, data: Bytes): Input
    requires |data| <= 255
  {
    Apdu(SplitApdu(ins, d.rate, d.sub, 0, 1, data), d.rng, true, d.roll)
  }

  function SayAll(d: Deal, apdus: seq<Bytes>): (r: seq<Input>)
    ensures |r| == |apdus|
  {
    if apdus == [] then [] else [Apdu(apdus[0], d.rng, true, d.roll)] + SayAll(d, apdus[1..])
  }

  // What the client crafts of the payload and the fees.
  ghost function Crafted(d: Deal): (data: Bytes)
    requires WellBuilt(d)
    ensures 1 <= |data| <= if d.sub.IsNg() then RAW_TRANSACTION_SIZE else 255
  {
    CraftTransaction(d.sub, d.payload, d.fees, d.base64).value
  }

  // process_transaction
  ghost function Propose(d: Deal): seq<Input>
    requires WellBuilt(d)
  {
    if d.sub.IsNg() then SayAll(d, SplitApdus(Process, d.rate, d.sub, Crafted(d))) else [Say(d, Process, Crafted(d))]
  }

  function Attempt(d: Deal, k: Option<Currency>): seq<Input>
    requires k.Some? ==> Legal(k.value)
  {
    if k.Some? then [Say(d, CheckPayout, Configuration(k.value))] else []
  }

  ghost function CheckAll(d: Deal): seq<Input>
    requires WellBuilt(d)
  {
    if d.sub.IsSwap() then
      Attempt(d, d.stray) + [Say(d, CheckPayout, Configuration(d.received)),
                             Say(d, RefundNoDisplay, Configuration(d.paid))]
    else [Say(d, AssetInNoDisplay, Configuration(d.paid))]
  }

  // _perform_valid_exchange up to the signing; the user agrees to whatever is asked.
  ghost function Talk(d: Deal): seq<Input>
    requires WellBuilt(d)
  {
    Preface(d) + CheckAll(d) + [Say(d, Prompt, []), WarningChoice(true), ReviewChoice(true)]
  }

  // Up to the signature.
  ghost function Preface(d: Deal): seq<Input>
    requires WellBuilt(d)
  {
    [Say(d, StartNew, []), Say(d, SetPartner, Credentials(d.sub, d.partner)), Say(d, CheckPartner, d.vouching)]
    + Propose(d) + [Say(d, CheckSignature, EncodedSignature(d))]
  }

  // --- running on ---

  // The device after further inputs.
  function From(p: Platform, w: World, inputs: seq<Input>): World
    decreases |inputs|
  {
    if inputs == [] then w else From(p, Step(p, w, inputs[0]).0, inputs[1..])
  }

  lemma {:induction false} FromMore(p: Platform, w: World, a: seq<Input>, b: seq<Input>)
    ensures From(p, w, a + b) == From(p, From(p, w, a), b)
    decreases |a|
  {
    hide Step;
    if a == [] {
      assert a + b == b;
    } else {
      FromMore(p, Step(p, w, a[0]).0, a[1..], b);
      assert (a + b)[1..] == a[1..] + b;
    }
  }

  lemma FromOne(p: Platform, w: World, i: Input)
    ensures From(p, w, [i]) == Step(p, w, i).0
  {
    hide Step;
  }

  /** Running on from where a run has ended is a longer run. */
  lemma {:induction false} RunOn(p: Platform, boot: Word, inputs: seq<Input>, more: seq<Input>)
    ensures From(p, Run(p, boot, inputs), more) == Run(p, boot, inputs + more)
    decreases |more|
  {
    hide Step;
    if more == [] {
      assert inputs + more == inputs;
    } else {
      var longer := inputs + [more[0]];
      assert longer[..|longer| - 1] == inputs;
      RunOn(p, boot, longer, more[1..]);
      assert longer + more[1..] == inputs + more;
    }
  }

  // --- one command ---

  // A command as its only APDU brings it.
  function CommandOf(d: Deal, ins: Ins, data: Bytes): Command { Command(ins, d.rate, d.sub, data) }

  lemma HeadingOf(d: Deal, ins: Ins, data: Bytes, state: State, flow: Sub)
    requires d.rate <= 1 && |data| <= 255 && Welcome(ins, d.sub, state, flow)
    requires ins.CheckPayout? ==> d.sub.IsSwap()
    ensures var apdu := SplitApdu(ins, d.rate, d.sub, 0, 1, data);
            ReadHeader(apdu, state, flow) == GoodHeader(Header(ins, d.rate, d.sub, true, true)) && apdu[5..] == data
  {
    var apdu := SplitApdu(ins, d.rate, d.sub, 0, 1, data);
    var code, p2 := InsCode(ins), SubCode(d.sub);
    Codes(ins, d.sub);
    hide InstructionStatus, InsOf, SubOf, Welcome, InsCode, SubCode;
    InstructionWelcome(ins, code, d.sub, state, flow);
    assert apdu == [0xE0, code, d.rate, p2, |data|] + data;
    assert apdu[5..] == data && p2 % 16 == p2 && p2 / 16 == 0;
  }

  lemma Codes(ins: Ins, sub: Sub)
    ensures InsOf(InsCode(ins)) == Some(ins) && SubOf(SubCode(sub)) == Some(sub) && SubCode(sub) < 16
    ensures InsCode(ins) == 8 <==> ins.CheckPayout?
  {
  }

  // What is said in one APDU is heard as its command.
  lemma Heard(d: Deal, rx: Rx, shared: Shared, ins: Ins, data: Bytes, state: State, flow: Sub)
    requires d.rate <= 1 && |data| <= 255 && Welcome(ins, d.sub, state, flow)
    requires ins.CheckPayout? ==> d.sub.IsSwap()
    ensures var r := Accept(rx, shared, state, flow, Say(d, ins, data).bytes);
            r.Complete? && r.shared == shared && r.command == CommandOf(d, ins, data)
  {
    HeadingOf(d, ins, data, state, flow);
    hide ReadHeader, Welcome, SplitApdu, InsCode, SubCode;
  }

  // The handler's answer to what is said.
  function Answer(p: Platform, w: World, d: Deal, ins: Ins, data: Bytes): Result {
    Handle(p, w.context, CommandOf(d, ins, data), d.rng, w.challenge)
  }

  // A command that is answered leaves the handler's context; one whose application is missing too.
  lemma Said(p: Platform, w: World, d: Deal, ins: Ins, data: Bytes)
    requires d.rate <= 1 && |data| <= 255 && Welcome(ins, d.sub, w.context.state, w.context.sub)
    requires ins.CheckPayout? ==> d.sub.IsSwap()
    ensures var (v, out) := Step(p, w, Say(d, ins, data));
            match Answer(p, w, d, ins, data)
            case Reply(c, status, reply) => v.context == c && out == [Replied(status, reply)]
            case Missing(c) => v.context == c && out == [Replied(APPLICATION_NOT_INSTALLED, [])]
            case Display(c) => v.context == c && v.ui == Prompted(p, c) && out == []
            case Launch(request) => out == [Replied(SUCCESS, []), Launched(request)]
  {
    hide Accept, Handle, Welcome, Logged, Noted, Prompted, SplitApdu, OfOtherFlow, InsCode, SubCode;
    var c := w.context;
    Heard(d, w.rx, c.shared, ins, data, c.state, c.sub);
    assert c.(shared := c.shared) == c;
  }

  // And the history.
  lemma SaidLog(p: Platform, w: World, d: Deal, ins: Ins, data: Bytes)
    requires d.rate <= 1 && |data| <= 255 && Welcome(ins, d.sub, w.context.state, w.context.sub)
    requires ins.CheckPayout? ==> d.sub.IsSwap()
    ensures var v, cmd := Step(p, w, Say(d, ins, data)).0, CommandOf(d, ins, data);
            match Answer(p, w, d, ins, data)
            case Reply(c, status, _) => v.log == Logged(p, w.context, cmd, c, status, w.log)
            case Missing(_) => v.log == Noted(p, w.context, cmd, w.log)
            case Display(_) => v.log == Noted(p, w.context, cmd, w.log) + [Did(cmd)]
            case Launch(_) => true
  {
    hide Accept, Handle, Welcome, Logged, Noted, Prompted, SplitApdu, OfOtherFlow, InsCode, SubCode;
    var c := w.context;
    Heard(d, w.rx, c.shared, ins, data, c.state, c.sub);
    assert c.(shared := c.shared) == c;
  }

  // A command of the flow, in the state it asks for, that the handler answers with a success.
  lemma Obeyed(p: Platform, w: World, d: Deal, ins: Ins, data: Bytes, t: Context)
    requires d.rate <= 1 && |data| <= 255 && w.context.sub == d.sub && !OfOtherFlow(ins, d.sub)
    requires RequiredState(ins) == Some(w.context.state)
    requires Answer(p, w, d, ins, data) == Reply(t, SUCCESS, [])
    ensures Step(p, w, Say(d, ins, data)).0.context == t
    ensures !IsCheck(ins) && Advances(ins)
            ==> Step(p, w, Say(d, ins, data)).0.log == w.log + [Did(CommandOf(d, ins, data))]
  {
    hide Step, Handle, Say;
    Said(p, w, d, ins, data);
    SaidLog(p, w, d, ins, data);
    hide ReadCheck;
  }

  // The history grows with every command but START_NEW_TRANSACTION.
  lemma LogGrows(p: Platform, w: World, d: Deal, ins: Ins, data: Bytes)
    requires d.rate <= 1 && |data| <= 255 && Welcome(ins, d.sub, w.context.state, w.context.sub) && !ins.StartNew?
    requires (ins.CheckPayout? ==> d.sub.IsSwap()) && !Answer(p, w, d, ins, data).Launch?
    ensures w.log <= Step(p, w, Say(d, ins, data)).0.log
  {
    hide Step, Handle, Say, Welcome, SeesForeign;
    SaidLog(p, w, d, ins, data);
  }

  // --- opening, credentials ---

  function Opened(p: Platform, d: Deal): Context { Opening(p, d.sub, FreshId(d.sub, d.rng)) }

  function Introduced(p: Platform, d: Deal): Context
    requires |d.partner.name| <= 15
  {
    Opened(p, d).(partnerName := ShownName(d.sub, d.partner.name), partnerKey := Some(PartnerKey(d)),
                  digestPlain := p.sha256(Credentials(d.sub, d.partner)), state := ProviderSet)
  }

  function Vouched(p: Platform, d: Deal): Context
    requires |d.partner.name| <= 15
  {
    Introduced(p, d).(state := ProviderChecked)
  }

  lemma OpeningSaid(p: Platform, w: World, d: Deal)
    requires d.rate <= 1 && p.validKey(LedgerKey(p)) && !w.context.state.WaitingUser?
    ensures var v := Step(p, w, Say(d, StartNew, [])).0;
            v.context == Opened(p, d) && v.log == [Started(d.sub, FreshId(d.sub, d.rng))]
  {
    hide Step, FreshId, IssuedId, Say;
    Said(p, w, d, StartNew, []);
    SaidLog(p, w, d, StartNew, []);
  }

  lemma PartnerSaid(p: Platform, w: World, d: Deal, m: Message)
    requires WellBuilt(d) && WellSigned(p, d, m) && w.context == Opened(p, d)
    ensures |Credentials(d.sub, d.partner)| <= 255
    ensures var v := Step(p, w, Say(d, SetPartner, Credentials(d.sub, d.partner))).0;
            && v.context == Introduced(p, d)
            && v.log == w.log + [Did(CommandOf(d, SetPartner, Credentials(d.sub, d.partner)))]
  {
    hide Step, ParsePartner, FreshId, ShownName, Credentials, Say, WellBuilt, WellSigned, StartNewTransaction,
         CheckPartnerKey, ProcessTransaction, CheckTransactionSignature, ApplyDescriptor, CheckAddressesAndAmounts,
         RequestOf;
    Basics(d);
    PartnerParses(p, d, m);
    Obeyed(p, w, d, SetPartner, Credentials(d.sub, d.partner), Introduced(p, d));
  }

  lemma PartnerParses(p: Platform, d: Deal, m: Message)
    requires WellBuilt(d) && WellSigned(p, d, m)
    ensures |d.partner.name| <= 15 && |Credentials(d.sub, d.partner)| <= 255 && p.validKey(PartnerKey(d))
    ensures ParsePartner(d.sub, Credentials(d.sub, d.partner)) == Some(d.partner)
  {
    hide ParsePartner, CraftTransaction, SignatureAsDer, Deserialize, IdMatches;
    PartnerExactly(d.sub, Credentials(d.sub, d.partner), d.partner);
  }

  lemma VouchingSaid(p: Platform, w: World, d: Deal, m: Message)
    requires WellBuilt(d) && WellSigned(p, d, m) && w.context == Introduced(p, d)
    ensures var v := Step(p, w, Say(d, CheckPartner, d.vouching)).0;
            v.context == Vouched(p, d) && v.log == w.log + [Did(CommandOf(d, CheckPartner, d.vouching))]
  {
    hide Step, FreshId, ShownName, Deserialize, SignatureAsDer, CraftTransaction, Credentials, IdMatches, Say;
    Obeyed(p, w, d, CheckPartner, d.vouching, Vouched(p, d));
  }

  // --- proposal, signature ---

  ghost function ProposedTo(p: Platform, d: Deal, m: Message): Context
    requires |d.partner.name| <= 15
  {
    WithProposal(p, Vouched(p, d), Proposal(d.payload, MinimalBytes(d.fees), d.base64), m)
  }

  ghost function SignedTo(p: Platform, d: Deal, m: Message): Context
    requires |d.partner.name| <= 15
  {
    ProposedTo(p, d, m).(state := SignatureChecked)
  }

  // Where the stages stand.
  lemma Stages(p: Platform, d: Deal, m: Message)
    requires |d.partner.name| <= 15
    ensures Vouched(p, d).sub == d.sub && Vouched(p, d).state.ProviderChecked?
    ensures ProposedTo(p, d, m).sub == d.sub && ProposedTo(p, d, m).state.TransactionReceived?
    ensures SignedTo(p, d, m).sub == d.sub && SignedTo(p, d, m).state.SignatureChecked?
  {
    hide FreshId, ShownName, Credentials, MinimalBytes, Prepared;
  }

  lemma Basics(d: Deal)
    requires WellBuilt(d)
    ensures d.rate <= 1 && |d.partner.name| <= 15
  {
  }

  lemma ProposalParses(d: Deal)
    requires WellBuilt(d)
    ensures ParseTransaction(d.sub, Crafted(d)) == Some(Proposal(d.payload, MinimalBytes(d.fees), d.base64))
  {
    CraftedTransactionParses(d.sub, d.payload, d.fees, d.base64);
  }

  // The proposal's handling overwrites what the chunks have left in the shared buffer.
  lemma ProposalHandled(p: Platform, d: Deal, m: Message, shared: Shared, challenge: Word)
    requires WellBuilt(d) && WellSigned(p, d, m)
    ensures Handle(p, Vouched(p, d).(shared := shared), CommandOf(d, Process, Crafted(d)), d.rng, challenge)
            == Reply(ProposedTo(p, d, m), SUCCESS, [])
  {
    hide ParseTransaction, Deserialize, Crafted, ExtraOk, IdMatches, Prepared, FreshId, ShownName, Credentials,
         MinimalBytes, WellBuilt, WellSigned, StartNewTransaction, SetPartnerKey, CheckPartnerKey,
         CheckTransactionSignature, ApplyDescriptor, CheckAddressesAndAmounts, RequestOf;
    Basics(d);
    ProposalParses(d);
    PayloadReady(p, d, m);
  }

  lemma PayloadReady(p: Platform, d: Deal, m: Message)
    requires WellBuilt(d) && WellSigned(p, d, m)
    ensures Deserialize(d.sub, d.payload, d.base64) == Ready(m) && ExtraOk(d.sub, m)
    ensures IdMatches(d.sub, m, FreshId(d.sub, d.rng))
  {
    hide Deserialize, ExtraOk, IdMatches, FreshId, WellBuilt, Credentials, SignatureAsDer;
  }

  // The chunks arrive as they were cut, and the last one has the command handled.
  lemma {:induction false} ChunksSaid(p: Platform, w: World, d: Deal, apdus: seq<Bytes>, cmd: Command)
    returns (v: World)
    requires apdus != [] && w.context.state.ProviderChecked?
    requires var r := Fed(w.rx, w.context.shared, w.context.sub, apdus);
             && (forall i :: 0 <= i < |r| - 1 ==> r[i].More?) && r[|r| - 1].Complete? && r[|r| - 1].command == cmd
    ensures v.context == w.context.(shared := v.context.shared)
    ensures From(p, w, SayAll(d, apdus)) == Dispatch(p, v, cmd, d.rng, true, d.roll).0 && v.log == w.log
    decreases |apdus|
  {
    hide Accept, Dispatch;
    var i := Apdu(apdus[0], d.rng, true, d.roll);
    var r := Accept(w.rx, w.context.shared, ProviderChecked, w.context.sub, apdus[0]);
    var all := Fed(w.rx, w.context.shared, w.context.sub, apdus);
    assert all[0] == r;
    if |apdus| == 1 {
      v := w.(rx := r.rx, context := w.context.(shared := r.shared), accepted := w.accepted + [r.chunk]);
      assert SayAll(d, apdus) == [i];
      FromOne(p, w, i);
    } else {
      var next := Step(p, w, i).0;
      assert next == w.(rx := r.rx, context := w.context.(shared := r.shared), accepted := w.accepted + [r.chunk]);
      FedTwo(w.rx, w.context.shared, w.context.sub, apdus);
      var rest := Fed(r.rx, r.shared, w.context.sub, apdus[1..]);
      assert all[1..] == rest;
      assert forall j :: 0 <= j < |rest| ==> rest[j] == all[j + 1];
      v := ChunksSaid(p, next, d, apdus[1..], cmd);
      assert SayAll(d, apdus)[1..] == SayAll(d, apdus[1..]);
    }
  }

  lemma ProposalSaid(p: Platform, w: World, d: Deal, m: Message)
    requires WellBuilt(d) && WellSigned(p, d, m) && w.context == Vouched(p, d)
    ensures From(p, w, Propose(d)).context == ProposedTo(p, d, m)
    ensures From(p, w, Propose(d)).log == w.log + [Did(CommandOf(d, Process, Crafted(d)))]
  {
    hide From, WellBuilt, WellSigned, ProposedTo, Vouched, SplitApdus, SayAll, Crafted, Say;
    Basics(d);
    if d.sub.IsNg() { ChunkedSaid(p, w, d, m); } else { WholeSaid(p, w, d, m); }
  }

  lemma ChunkedSaid(p: Platform, w: World, d: Deal, m: Message)
    requires WellBuilt(d) && WellSigned(p, d, m) && w.context == Vouched(p, d) && d.sub.IsNg()
    ensures From(p, w, SayAll(d, SplitApdus(Process, d.rate, d.sub, Crafted(d)))).context == ProposedTo(p, d, m)
    ensures From(p, w, SayAll(d, SplitApdus(Process, d.rate, d.sub, Crafted(d)))).log
            == w.log + [Did(CommandOf(d, Process, Crafted(d)))]
  {
    hide Fed, Handle, WellBuilt, WellSigned, Crafted, ProposedTo, Vouched, SplitApdus, From, SayAll, ReadCheck;
    Basics(d);
    Stages(p, d, m);
    SplitReassembles(w.rx, w.context.shared, d.rate, d.sub, Crafted(d));
    var v := ChunksSaid(p, w, d, SplitApdus(Process, d.rate, d.sub, Crafted(d)), CommandOf(d, Process, Crafted(d)));
    ProposalHandled(p, d, m, v.context.shared, v.challenge);
  }

  lemma WholeSaid(p: Platform, w: World, d: Deal, m: Message)
    requires WellBuilt(d) && WellSigned(p, d, m) && w.context == Vouched(p, d) && !d.sub.IsNg()
    ensures From(p, w, [Say(d, Process, Crafted(d))]).context == ProposedTo(p, d, m)
    ensures From(p, w, [Say(d, Process, Crafted(d))]).log == w.log + [Did(CommandOf(d, Process, Crafted(d)))]
  {
    hide Handle, WellBuilt, WellSigned, Crafted, ProposedTo, Vouched, From, Step, Say;
    Basics(d);
    Stages(p, d, m);
    ProposalHandled(p, d, m, w.context.shared, w.challenge);
    assert w.context.(shared := w.context.shared) == w.context;
    Obeyed(p, w, d, Process, Crafted(d), ProposedTo(p, d, m));
    FromOne(p, w, Say(d, Process, Crafted(d)));
  }

  lemma SignatureSaid(p: Platform, w: World, d: Deal, m: Message)
    requires WellBuilt(d) && WellSigned(p, d, m) && w.context == ProposedTo(p, d, m)
    ensures |EncodedSignature(d)| <= 255
    ensures var v := Step(p, w, Say(d, CheckSignature, EncodedSignature(d))).0;
            v.context == SignedTo(p, d, m) && v.log == w.log + [Did(CommandOf(d, CheckSignature, EncodedSignature(d)))]
  {
    hide Step, WellSigned, WellBuilt, EncodedSignature, ProposedTo, SignedTo, Handle, Say;
    Basics(d);
    Stages(p, d, m);
    SignatureParses(d);
    SignatureHandled(p, d, m, w.challenge);
    Obeyed(p, w, d, CheckSignature, EncodedSignature(d), SignedTo(p, d, m));
  }

  lemma SignatureHandled(p: Platform, d: Deal, m: Message, challenge: Word)
    requires WellBuilt(d) && WellSigned(p, d, m)
    ensures Handle(p, ProposedTo(p, d, m), CommandOf(d, CheckSignature, EncodedSignature(d)), d.rng, challenge)
            == Reply(SignedTo(p, d, m), SUCCESS, [])
  {
    hide SignatureAsDer, ParseSignature, EncodedSignature, WellBuilt, WellSigned, ProposedTo, Verifies,
         StartNewTransaction, SetPartnerKey, CheckPartnerKey, ProcessTransaction, ApplyDescriptor,
         CheckAddressesAndAmounts, RequestOf;
    Basics(d);
    SignatureParses(d);
    SignatureVerifies(p, d, m);
  }

  lemma SignatureVerifies(p: Platform, d: Deal, m: Message)
    requires WellBuilt(d) && WellSigned(p, d, m)
    ensures var c := ProposedTo(p, d, m);
            SignatureAsDer(d.plain, d.signature).Some?
            && Verifies(p, c.partnerKey, if d.dotted then c.digestDotted else c.digestPlain,
                        SignatureAsDer(d.plain, d.signature).value)
  {
    hide FreshId, ShownName, Deserialize, SignatureAsDer, CraftTransaction, Credentials, IdMatches, Prepared,
         MinimalBytes, Dotted;
  }

  lemma SignatureParses(d: Deal)
    requires WellBuilt(d)
    ensures |EncodedSignature(d)| <= 255
    ensures ParseSignature(d.sub, EncodedSignature(d)) == Some((d.dotted, SignatureAsDer(d.plain, d.signature).value))
  {
    hide SignatureAsDer, CraftTransaction;
    if d.sub.IsNg() {
      assert EncodedSignature(d)[2..] == d.signature;
    } else {
      assert EncodedSignature(d) == d.signature;
    }
  }

  // --- checks ---

  lemma ConfigurationReads(p: Platform, n: Message, cmd: Command, k: Currency)
    requires Legal(k) && cmd.data == Configuration(k) && p.verify(LedgerKey(p), p.sha256(SignedPart(k)), k.der)
    requires CText(CurrencyOf(cmd, n)) == KnownAs(CText(k.ticker))
    ensures ReadCheck(p, Some(LedgerKey(p)), n, cmd) == Readable(CheckOf(k))
  {
    hide ParseAddressMessage, ParseCoinConfig, SignedConfig, CurrencyConfig, CurrencyOf, CText, KnownAs;
    ConfigurationParses(k);
  }

  lemma ConfigurationParses(k: Currency)
    requires Legal(k)
    ensures ParseAddressMessage(Configuration(k)) == Some(AddressCheck(SignedPart(k), k.der, k.path))
    ensures ParseCoinConfig(SignedPart(k)) == Some(CheckOf(k).coin)
  {
    hide ParseAddressMessage, ParseCoinConfig, SignedConfig, AliasedApp;
    CoinConfigExactly(SignedPart(k), CheckOf(k).coin);
    AddressMessageExactly(Configuration(k), AddressCheck(SignedPart(k), k.der, k.path));
  }

  // The context of a flow that has its transaction.
  predicate Holds(p: Platform, d: Deal, c: Context, n: Message) {
    c.sub == d.sub && c.shared == Decoded(n) && c.ledgerKey == Some(LedgerKey(p)) && c.fee == MinimalBytes(d.fees)
  }

  // A payout check with a readable configuration: the mark is set for a foreign address, whether or not
  // there is a text for the amount.
  lemma PayoutAnswered(p: Platform, c: Context, cmd: Command, n: Message, k: Currency)
    requires cmd.ins.CheckPayout? && c.sub.IsSwap() && c.shared == Decoded(n) && Terminated(AddressOf(cmd.ins, n))
    requires ReadCheck(p, c.ledgerKey, n, cmd) == Readable(CheckOf(k)) && !VerdictOf(p, cmd.ins, n, k).CheckerMissing?
    ensures var u := c.(otherSeed := c.otherSeed || VerdictOf(p, cmd.ins, n, k).Foreign?);
            CheckAddressesAndAmounts(p, c, cmd) ==
            match TextFor(p, k, Blob(n, AMOUNT_TO_WALLET), false)
            case Some(t) => Reply(u.(getText := t, state := PayoutChecked), SUCCESS, [])
            case None =>
              if p.format(AppName(CheckOf(k).coin), k.config, Blob(n, AMOUNT_TO_WALLET), false).FormatterMissing?
                then Missing(u)
              else Reply(u, AMOUNT_FORMATTING_FAILED, [])
  {
    hide ReadCheck, ShownText, AddressVerdict, AppName, FiatAmount;
  }

  // What the check of the paying side leaves.
  function Paid(p: Platform, d: Deal, c: Context, n: Message): Context
    requires TextFor(p, d.paid, InAmount(d.sub, n), false).Some? && TextFor(p, d.paid, c.fee, true).Some?
    requires d.sub.IsSell() ==> FiatAmount(n).Some?
  {
    c.(sendText := TextFor(p, d.paid, InAmount(d.sub, n), false).value,
       feesText := TextFor(p, d.paid, c.fee, true).value,
       getText := if d.sub.IsSell() then FiatAmount(n).value else if d.sub.IsFund() then AccountName(n) else c.getText,
       payingApp := AppName(CheckOf(d.paid).coin), payingConfig := d.paid.config, rate := d.rate, state := AllChecked)
  }

  lemma PayingAnswered(p: Platform, d: Deal, c: Context, cmd: Command, n: Message)
    requires (if d.sub.IsSwap() then cmd.ins.RefundNoDisplay? else cmd.ins.AssetInNoDisplay?) && cmd.rate == d.rate
    requires c.sub == d.sub && c.shared == Decoded(n) && ReadCheck(p, c.ledgerKey, n, cmd) == Readable(CheckOf(d.paid))
    requires d.sub.IsSwap() ==> Terminated(AddressOf(cmd.ins, n)) && VerdictOf(p, cmd.ins, n, d.paid).Belongs?
    requires TextFor(p, d.paid, InAmount(d.sub, n), false).Some? && TextFor(p, d.paid, c.fee, true).Some?
    requires d.sub.IsSell() ==> FiatAmount(n).Some?
    ensures CheckAddressesAndAmounts(p, c, cmd) == Reply(Paid(p, d, c, n), SUCCESS, [])
  {
    hide ReadCheck, ShownText, AddressVerdict, AppName, FiatAmount, AccountName, InAmount;
  }

  lemma NamesRead(p: Platform, d: Deal, m: Message, cmd: Command, k: Currency)
    requires Shaped(TableOf(d.sub), m) && Legal(k) && cmd.sub == d.sub && cmd.data == Configuration(k)
    requires Names(p, k, if d.sub.IsSwap() && cmd.ins.CheckPayout? then Str(m, CURRENCY_TO) else InCurrency(d.sub, m))
    ensures ReadCheck(p, Some(LedgerKey(p)), Prepared(d.sub, m), cmd) == Readable(CheckOf(k))
  {
    hide ReadCheck, Shaped, TableOf, Str, InCurrency, Prepared, CText, KnownAs, Legal, Configuration;
    PreparedTexts(d.sub, m);
    ConfigurationReads(p, Prepared(d.sub, m), cmd, k);
  }

  // The transaction of a fair deal ends its texts.
  lemma FairShaped(p: Platform, d: Deal, m: Message)
    requires Fair(p, d, m)
    ensures Shaped(TableOf(d.sub), m)
    ensures d.sub.IsSwap() ==> Terminated(AddressOf(CheckPayout, Prepared(d.sub, m)))
                               && Terminated(AddressOf(RefundNoDisplay, Prepared(d.sub, m)))
  {
    hide WellBuilt, WellServed, Shaped, TableOf, Deserialize, Prepared, Terminated, ExtraOk, IdMatches, Credentials,
         SignatureAsDer, Str;
    DeserializedShaped(d.sub, d.payload, d.base64);
    PreparedShaped(d.sub, m);
    if d.sub.IsSwap() { AddressesEnd(d.sub, Prepared(d.sub, m)); }
  }

  // The verdict on the payout address a currency's application gives.
  predicate ForeignTo(p: Platform, d: Deal, m: Message, k: Currency) {
    VerdictOf(p, CheckPayout, Prepared(d.sub, m), k).Foreign?
  }

  // The mark of a foreign address at the end of the conversation.
  predicate Marked(p: Platform, d: Deal, m: Message) {
    d.sub.IsSwap() && ((d.stray.Some? && ForeignTo(p, d, m, d.stray.value)) || ForeignTo(p, d, m, d.received))
  }

  // How a payout check without a text for the amount fails.
  function FailureOf(p: Platform, d: Deal, m: Message, k: Currency): nat {
    var amount := Blob(Prepared(d.sub, m), AMOUNT_TO_WALLET);
    if p.format(AppName(CheckOf(k).coin), k.config, amount, false).FormatterMissing? then APPLICATION_NOT_INSTALLED
    else AMOUNT_FORMATTING_FAILED
  }

  // A payout check, of which the application shows the amount or not.
  lemma PayoutSaid(p: Platform, w: World, d: Deal, m: Message, k: Currency)
    requires Fair(p, d, m) && d.sub.IsSwap() && Legal(k) && PayoutServed(p, m, Prepared(d.sub, m), k)
    requires Holds(p, d, w.context, Prepared(d.sub, m)) && w.context.state.SignatureChecked?
    ensures var u := w.context.(otherSeed := w.context.otherSeed || ForeignTo(p, d, m, k));
            var (v, out) := Step(p, w, Say(d, CheckPayout, Configuration(k)));
            match TextFor(p, k, Blob(Prepared(d.sub, m), AMOUNT_TO_WALLET), false)
            case Some(t) => v.context == u.(getText := t, state := PayoutChecked) && out == [Replied(SUCCESS, [])]
            case None => v.context == u && out == [Replied(FailureOf(p, d, m, k), [])]
    ensures w.log <= Step(p, w, Say(d, CheckPayout, Configuration(k))).0.log
  {
    hide Step, Say, Fair, Prepared, ReadCheck, Legal, Configuration, TableOf, Shaped, Terminated, AddressOf,
         VerdictOf, TextFor, CheckAddressesAndAmounts, Blob, MinimalBytes;
    FairRate(p, d, m);
    FairShaped(p, d, m);
    var cmd := CommandOf(d, CheckPayout, Configuration(k));
    NamesRead(p, d, m, cmd, k);
    PayoutAnswered(p, w.context, cmd, Prepared(d.sub, m), k);
    ChecksHandled(p, w.context, cmd, d.rng, w.challenge);
    hide Handle;
    Said(p, w, d, CheckPayout, Configuration(k));
    LogGrows(p, w, d, CheckPayout, Configuration(k));
  }

  lemma FairRate(p: Platform, d: Deal, m: Message)
    requires Fair(p, d, m)
    ensures d.rate <= 1 && |d.partner.name| <= 15
  {
  }

  // What a fair deal says of the paying side.
  lemma FairPaying(p: Platform, d: Deal, m: Message)
    requires Fair(p, d, m)
    ensures Legal(d.paid) && Names(p, d.paid, InCurrency(d.sub, m))
    ensures TextFor(p, d.paid, InAmount(d.sub, Prepared(d.sub, m)), false).Some?
    ensures TextFor(p, d.paid, MinimalBytes(d.fees), true).Some?
    ensures d.sub.IsSell() ==> FiatAmount(Prepared(d.sub, m)).Some?
    ensures d.sub.IsSwap() ==> VerdictOf(p, RefundNoDisplay, Prepared(d.sub, m), d.paid).Belongs?
  {
    hide Legal, Names, InCurrency, TextFor, InAmount, Prepared, FiatAmount, VerdictOf, WellSigned, PayoutServed, Blob;
  }

  lemma PayingSaid(p: Platform, w: World, d: Deal, m: Message)
    requires Fair(p, d, m) && Holds(p, d, w.context, Prepared(d.sub, m))
    requires if d.sub.IsSwap() then w.context.state.PayoutChecked? else w.context.state.SignatureChecked?
    ensures Legal(d.paid) && TextFor(p, d.paid, InAmount(d.sub, Prepared(d.sub, m)), false).Some?
    ensures TextFor(p, d.paid, w.context.fee, true).Some? && (d.sub.IsSell() ==> FiatAmount(Prepared(d.sub, m)).Some?)
    ensures var ins := if d.sub.IsSwap() then RefundNoDisplay else AssetInNoDisplay;
            var v := Step(p, w, Say(d, ins, Configuration(d.paid))).0;
            v.context == Paid(p, d, w.context, Prepared(d.sub, m)) && w.log <= v.log
  {
    hide Step, Say, Fair, Prepared, ReadCheck, Legal, Configuration, TableOf, Shaped, Terminated, AddressOf,
         VerdictOf, TextFor, CheckAddressesAndAmounts, FiatAmount, InAmount, InCurrency, MinimalBytes, AccountName,
         AppName;
    FairRate(p, d, m);
    FairShaped(p, d, m);
    FairPaying(p, d, m);
    var ins := if d.sub.IsSwap() then RefundNoDisplay else AssetInNoDisplay;
    var cmd := CommandOf(d, ins, Configuration(d.paid));
    NamesRead(p, d, m, cmd, d.paid);
    PayingAnswered(p, d, w.context, cmd, Prepared(d.sub, m));
    ChecksHandled(p, w.context, cmd, d.rng, w.challenge);
    hide Handle;
    Said(p, w, d, ins, Configuration(d.paid));
    LogGrows(p, w, d, ins, Configuration(d.paid));
  }

  // --- prompt, review, signing ---

  function RequestFor(d: Deal, n: Message): Request {
    Request(AppName(CheckOf(d.paid).coin), d.paid.config, InAmount(d.sub, n), MinimalBytes(d.fees), InAddress(d.sub, n),
            InExtra(d.sub, n))
  }

  // The user agrees to what is asked.
  lemma Agreed(p: Platform, w: World, d: Deal)
    requires d.rate <= 1 && w.context.state.AllChecked? && w.context.sub == d.sub
    ensures var v := From(p, w, [Say(d, Prompt, []), WarningChoice(true), ReviewChoice(true)]);
            v.context == w.context.(state := WaitingSigning) && w.log <= v.log
  {
    hide Handle, Say, Accept, Dispatch, ReviewPairs;
    var said := Say(d, Prompt, []);
    PromptHandled(p, w, d);
    Said(p, w, d, Prompt, []);
    LogGrows(p, w, d, Prompt, []);
    var asked := Step(p, w, said).0;
    var warned := Step(p, asked, WarningChoice(true)).0;
    assert warned.context == asked.context && warned.ui.ReviewShown?;
    var rest := [WarningChoice(true), ReviewChoice(true)];
    assert [said, WarningChoice(true), ReviewChoice(true)][1..] == rest && rest[1..] == [ReviewChoice(true)];
    FromOne(p, warned, ReviewChoice(true));
  }

  lemma PromptHandled(p: Platform, w: World, d: Deal)
    ensures Answer(p, w, d, Prompt, []) == Display(w.context.(state := WaitingUser))
  {
  }

  lemma Launches(p: Platform, w: World, d: Deal)
    requires d.rate <= 1 && w.context.state.WaitingSigning? && w.context.sub == d.sub
    ensures Step(p, w, Say(d, StartSigning, [])).1 == [Replied(SUCCESS, []), Launched(RequestOf(w.context, d.sub))]
  {
    hide Step, Say, RequestOf;
    Said(p, w, d, StartSigning, []);
  }

  // --- the whole conversation ---

  lemma FairStart(p: Platform, d: Deal, m: Message)
    requires Fair(p, d, m)
    ensures WellBuilt(d) && WellSigned(p, d, m) && p.validKey(LedgerKey(p))
  {
    hide WellBuilt, WellServed, Deserialize, ExtraOk, IdMatches, Credentials, SignatureAsDer;
  }

  lemma FairSwap(p: Platform, d: Deal, m: Message)
    requires Fair(p, d, m) && d.sub.IsSwap()
    ensures Legal(d.received) && PayoutServed(p, m, Prepared(d.sub, m), d.received)
    ensures TextFor(p, d.received, Blob(Prepared(d.sub, m), AMOUNT_TO_WALLET), false).Some?
    ensures d.stray.Some? ==>
              && Legal(d.stray.value) && PayoutServed(p, m, Prepared(d.sub, m), d.stray.value)
              && TextFor(p, d.stray.value, Blob(Prepared(d.sub, m), AMOUNT_TO_WALLET), false).None?
  {
    hide Legal, TextFor, InAmount, Prepared, FiatAmount, VerdictOf, WellSigned, PayoutServed, Blob, Names, InCurrency;
  }

  lemma SignedHolds(p: Platform, d: Deal, m: Message)
    requires |d.partner.name| <= 15
    ensures var c := SignedTo(p, d, m);
            Holds(p, d, c, Prepared(d.sub, m)) && c.state.SignatureChecked? && !c.otherSeed
  {
    hide Prepared, FreshId, ShownName, Credentials, MinimalBytes;
  }

  lemma PrefaceSaid(p: Platform, w: World, d: Deal, m: Message)
    requires Fair(p, d, m) && !w.context.state.WaitingUser?
    ensures WellBuilt(d) && From(p, w, Preface(d)).context == SignedTo(p, d, m)
    ensures var log := From(p, w, Preface(d)).log; |log| == 5 && log[3] == Did(CommandOf(d, Process, Crafted(d)))
  {
    hide Fair, WellBuilt, WellSigned, Step, Say, Propose, From, Opened, Introduced, Vouched, ProposedTo, SignedTo,
         Credentials, EncodedSignature;
    FairStart(p, d, m);
    Basics(d);
    PartnerParses(p, d, m);
    VouchingFits(d);
    SignatureParses(d);
    var start, partner := Say(d, StartNew, []), Say(d, SetPartner, Credentials(d.sub, d.partner));
    var vouch, sign := Say(d, CheckPartner, d.vouching), Say(d, CheckSignature, EncodedSignature(d));
    OpeningSaid(p, w, d);
    var w1 := Step(p, w, start).0;
    PartnerSaid(p, w1, d, m);
    var w2 := Step(p, w1, partner).0;
    VouchingSaid(p, w2, d, m);
    var w3 := Step(p, w2, vouch).0;
    ProposalSaid(p, w3, d, m);
    var w4 := From(p, w3, Propose(d));
    SignatureSaid(p, w4, d, m);
    ThreeSteps(p, w, start, partner, vouch);
    FromMore(p, w, [start, partner, vouch], Propose(d));
    FromMore(p, w, [start, partner, vouch] + Propose(d), [sign]);
    FromOne(p, w4, sign);
  }

  lemma VouchingFits(d: Deal)
    requires WellBuilt(d)
    ensures |d.vouching| <= 255
  {
  }

  lemma ThreeSteps(p: Platform, w: World, a: Input, b: Input, c: Input)
    ensures From(p, w, [a, b, c]) == Step(p, Step(p, Step(p, w, a).0, b).0, c).0
  {
    hide Step;
    assert [a, b, c][1..] == [b, c] && [b, c][1..] == [c];
    FromOne(p, Step(p, Step(p, w, a).0, b).0, c);
  }

  // What the checks leave.
  ghost function CheckedFor(p: Platform, d: Deal, m: Message): Context
    requires Fair(p, d, m)
  {
    var n := Prepared(d.sub, m);
    var c := SignedTo(p, d, m).(otherSeed := Marked(p, d, m));
    if d.sub.IsSwap() then Paid(p, d, c.(getText := TextFor(p, d.received, Blob(n, AMOUNT_TO_WALLET), false).value), n)
    else Paid(p, d, c, n)
  }

  // A swap's payout checks: one that fails, if any, and the one that counts.
  lemma PayoutsSaid(p: Platform, w: World, d: Deal, m: Message)
    requires Fair(p, d, m) && d.sub.IsSwap() && w.context == SignedTo(p, d, m)
    ensures Legal(d.received) && (d.stray.Some? ==> Legal(d.stray.value))
    ensures TextFor(p, d.received, Blob(Prepared(d.sub, m), AMOUNT_TO_WALLET), false).Some?
    ensures From(p, w, Attempt(d, d.stray) + [Say(d, CheckPayout, Configuration(d.received))]).context ==
            w.context.(otherSeed := Marked(p, d, m), state := PayoutChecked,
                       getText := TextFor(p, d.received, Blob(Prepared(d.sub, m), AMOUNT_TO_WALLET), false).value)
    ensures w.log <= From(p, w, Attempt(d, d.stray) + [Say(d, CheckPayout, Configuration(d.received))]).log
  {
    hide Fair, Step, Say, From, SignedTo, Legal, TextFor, Blob, Prepared, Configuration, ForeignTo, MinimalBytes,
         PayoutServed;
    FairRate(p, d, m);
    FairSwap(p, d, m);
    SignedHolds(p, d, m);
    var said := Say(d, CheckPayout, Configuration(d.received));
    var v := w;
    if d.stray.Some? {
      var first := Say(d, CheckPayout, Configuration(d.stray.value));
      PayoutSaid(p, w, d, m, d.stray.value);
      FromOne(p, w, first);
      v := Step(p, w, first).0;
    } else {
      NothingSaid(p, w);
    }
    PayoutSaid(p, v, d, m, d.received);
    FromMore(p, w, Attempt(d, d.stray), [said]);
    FromOne(p, v, said);
  }

  lemma NothingSaid(p: Platform, w: World)
    ensures From(p, w, []) == w
  {
  }

  lemma SwapChecksSaid(p: Platform, w: World, d: Deal, m: Message)
    requires Fair(p, d, m) && w.context == SignedTo(p, d, m) && d.sub.IsSwap()
    ensures WellBuilt(d) && From(p, w, CheckAll(d)).context == CheckedFor(p, d, m)
            && w.log <= From(p, w, CheckAll(d)).log
  {
    hide Fair, WellBuilt, WellSigned, Step, Say, From, SignedTo, Legal, TextFor, Blob, Prepared, Configuration,
         ForeignTo, MinimalBytes, Attempt, AccountName, FiatAmount, InAmount, AppName, Marked;
    FairRate(p, d, m);
    FairStart(p, d, m);
    FairPaying(p, d, m);
    SignedHolds(p, d, m);
    PayoutsSaid(p, w, d, m);
    var first := Attempt(d, d.stray) + [Say(d, CheckPayout, Configuration(d.received))];
    var last := Say(d, RefundNoDisplay, Configuration(d.paid));
    var v := From(p, w, first);
    PayingSaid(p, v, d, m);
    FromMore(p, w, first, [last]);
    FromOne(p, v, last);
    assert CheckAll(d) == first + [last];
  }

  lemma ChecksSaid(p: Platform, w: World, d: Deal, m: Message)
    requires Fair(p, d, m) && w.context == SignedTo(p, d, m)
    ensures WellBuilt(d) && From(p, w, CheckAll(d)).context == CheckedFor(p, d, m)
            && w.log <= From(p, w, CheckAll(d)).log
  {
    hide Fair, WellBuilt, WellSigned, Step, Say, From, SignedTo, Legal, TextFor, Blob, Prepared, Configuration,
         ForeignTo, MinimalBytes, Attempt, AccountName, FiatAmount, InAmount, AppName;
    FairRate(p, d, m);
    FairStart(p, d, m);
    FairPaying(p, d, m);
    SignedHolds(p, d, m);
    if d.sub.IsSwap() {
      SwapChecksSaid(p, w, d, m);
    } else {
      var last := Say(d, AssetInNoDisplay, Configuration(d.paid));
      PayingSaid(p, w, d, m);
      FromOne(p, w, last);
      assert w.context.(otherSeed := false) == w.context;
    }
  }

  lemma CheckedMeans(p: Platform, d: Deal, m: Message)
    requires Fair(p, d, m)
    ensures var c := CheckedFor(p, d, m);
            && c.sub == d.sub && c.state.AllChecked? && c.otherSeed == Marked(p, d, m)
            && RequestOf(c, d.sub) == RequestFor(d, Prepared(d.sub, m))
  {
    hide Fair, SignedTo, TextFor, Blob, Prepared, ForeignTo, MinimalBytes, Marked, AccountName, FiatAmount, InAmount,
         InAddress, InExtra, AppName;
    FairRate(p, d, m);
    FairPaying(p, d, m);
    if d.sub.IsSwap() { FairSwap(p, d, m); }
    SignedHolds(p, d, m);
  }

  /** A check that fails, because of the text or because its application is missing, leaves the flow where it
      is, with the mark set if its address was foreign. */
  lemma FailedCheckMarks(p: Platform, boot: Word, inputs: seq<Input>, d: Deal, m: Message)
    requires Fair(p, d, m) && d.sub.IsSwap() && d.stray.Some? && !Run(p, boot, inputs).context.state.WaitingUser?
    ensures var w := Run(p, boot, inputs + Preface(d));
            var (v, out) := Step(p, w, Say(d, CheckPayout, Configuration(d.stray.value)));
            && w.context == SignedTo(p, d, m) && out == [Replied(FailureOf(p, d, m, d.stray.value), [])]
            && v.context == w.context.(otherSeed := ForeignTo(p, d, m, d.stray.value))
  {
    hide Run, Step, From, Fair, Say, Preface, SignedTo, WellBuilt, WellSigned, ForeignTo, FailureOf, Prepared, Blob,
         TextFor, Legal, PayoutServed, Configuration;
    FairRate(p, d, m);
    FairStart(p, d, m);
    FairSwap(p, d, m);
    PrefaceSaid(p, Run(p, boot, inputs), d, m);
    RunOn(p, boot, inputs, Preface(d));
    SignedHolds(p, d, m);
    PayoutSaid(p, Run(p, boot, inputs + Preface(d)), d, m, d.stray.value);
  }

  /** A valid exchange signs: from every run that does not end in a review, the conversation of a fair deal
      of any kind leads to the signing of what the partner proposed, with the application and configuration of
      the currency paid, even if a payout check fails on the way; and the mark of a foreign address is up
      exactly if that check's or the counting one's address was foreign. */
  lemma ValidExchangeSigns(p: Platform, boot: Word, inputs: seq<Input>, d: Deal, m: Message)
    requires Fair(p, d, m) && !Run(p, boot, inputs).context.state.WaitingUser?
    ensures var w := Run(p, boot, inputs + Talk(d));
            && w.context.sub == d.sub && w.context.otherSeed == Marked(p, d, m)
            && DidAt(w.log, 3, Process, d.sub) && DataAt(w.log, 3) == Crafted(d)
            && Step(p, w, Say(d, StartSigning, [])).1
               == [Replied(SUCCESS, []), Launched(RequestFor(d, Prepared(d.sub, m)))]
  {
    hide Run, Step, From, Fair, Say, Preface, CheckAll, CheckedFor, Marked, RequestFor, RequestOf, SignedTo, WellBuilt;
    var w := Run(p, boot, inputs);
    var end := [Say(d, Prompt, []), WarningChoice(true), ReviewChoice(true)];
    FairRate(p, d, m);
    FairStart(p, d, m);
    PrefaceSaid(p, w, d, m);
    var w1 := From(p, w, Preface(d));
    ChecksSaid(p, w1, d, m);
    var w2 := From(p, w1, CheckAll(d));
    CheckedMeans(p, d, m);
    Agreed(p, w2, d);
    FromMore(p, w, Preface(d), CheckAll(d));
    FromMore(p, w, Preface(d) + CheckAll(d), end);
    RunOn(p, boot, inputs, Talk(d));
    SameRequest(w2.context, d.sub);
    Launches(p, Run(p, boot, inputs + Talk(d)), d);
  }

  lemma SameRequest(c: Context, sub: Sub)
    ensures RequestOf(c.(state := WaitingSigning), sub) == RequestOf(c, sub)
  {
  }
}
