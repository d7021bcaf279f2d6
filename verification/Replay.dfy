/** Failed attempts leave no trace: in every run the context is, as far as its state makes use of it,
    the one that the successful commands since START_NEW_TRANSACTION give on their own. */
module Replay {
  import opened Common
  import opened Commands
  import opened Messages
  import opened Transactions
  import opened Flow
  import opened Apdu
  import opened Device

  // --- welcome commands ---

  predicate Welcome(i: Ins, sub: Sub, state: State, flow: Sub) {
    && !OfOtherFlow(i, sub) && !state.WaitingUser? && (state.WaitingSigning? ==> i.StartNew? || i.StartSigning?)
    && (i.GetVersion? || i.StartNew? || (sub == flow && RequiredState(i) == Some(state)))
  }

  lemma InstructionWelcome(i: Ins, code: byte, sub: Sub, state: State, flow: Sub)
    requires InsOf(code) == Some(i)
    ensures InstructionStatus(code, sub, state, flow) == 0 <==> Welcome(i, sub, state, flow)
  {
    hide InsOf, OfOtherFlow;
    assert RequiredState(i).None? <==> i.GetVersion? || i.StartNew?;
  }

  /** An accepted APDU carries a welcome command; the shared buffer is written only on the way to a
      transaction proposal. */
  lemma AcceptedIsWelcome(rx: Rx, shared: Shared, state: State, flow: Sub, apdu: Bytes)
    ensures match Accept(rx, shared, state, flow, apdu)
            case Rejected(status) => status != 0 && status != SUCCESS
            case More(_, _, chunk) => state == ProviderChecked && chunk.header.sub == flow && flow.IsNg()
              && chunk.header.ins.Process?
            case Complete(_, shared', chunk, cmd) =>
              && Welcome(cmd.ins, cmd.sub, state, flow)
                 && (shared' != shared ==> state == ProviderChecked && cmd.ins.Process?)
              && cmd.ins == chunk.header.ins && cmd.sub == chunk.header.sub && cmd.rate == chunk.header.rate
  {
    hide InsOf, InstructionStatus, Welcome;
    match ReadHeader(apdu, state, flow) {
      case BadHeader(status) =>
        HeaderStatus(apdu, state, flow);
      case GoodHeader(h) =>
        HeaderWelcome(apdu, state, flow);
        WelcomeProcess(h.ins, h.sub, state, flow);
    }
  }

  lemma WelcomeProcess(i: Ins, sub: Sub, state: State, flow: Sub)
    requires Welcome(i, sub, state, flow)
    ensures i.Process? ==> state == ProviderChecked && sub == flow
  {
  }

  lemma HeaderStatus(apdu: Bytes, state: State, flow: Sub)
    ensures match ReadHeader(apdu, state, flow)
            case BadHeader(status) => status != 0 && status != SUCCESS && status != INVALID_P2_EXTENSION
            case GoodHeader(_) => true
  {
    hide InsOf, OfOtherFlow, RequiredState, Modern;
  }

  lemma HeaderWelcome(apdu: Bytes, state: State, flow: Sub)
    requires ReadHeader(apdu, state, flow).GoodHeader?
    ensures var h := ReadHeader(apdu, state, flow).header;
            Welcome(h.ins, h.sub, state, flow) && (!(h.first && h.last) ==> h.ins.Process? && h.sub.IsNg())
  {
    hide InsOf, InstructionStatus, Welcome;
    var sub := SubOf(apdu[3] % 16).value;
    var code := Modern(apdu[1], sub);
    if InsOf(code).Some? { InstructionWelcome(InsOf(code).value, code, sub, state, flow); }
  }

  // --- replaying the successful commands ---

  // What one event of the history does to a context; None when it could not have happened there.
  function After(p: Platform, s: Context, e: Event): Option<Context> {
    match e
    case Started(_, _) => None
    case Did(cmd) =>
      if Welcome(cmd.ins, cmd.sub, s.state, s.sub) && (SeesForeign(p, s, cmd) ==> s.otherSeed) then
        Performed(p, s, cmd)
      else None
    case Strange(cmd) =>
      if Welcome(cmd.ins, cmd.sub, s.state, s.sub) && SeesForeign(p, s, cmd) then Some(s.(otherSeed := true)) else None
    case Approved(review) =>
      if s.state.WaitingUser? && review == ReviewPairs(p, s) then Some(s.(state := WaitingSigning)) else None
  }

  // A successful command. A descriptor is given the challenge it carries.
  function Performed(p: Platform, s: Context, cmd: Command): Option<Context> {
    if cmd.ins.StartNew? || cmd.ins.GetVersion? || cmd.ins.GetChallenge? then None
    else
      var d := p.readDescriptor(cmd.data);
      var challenge :=
        if d.Descriptor? && d.challenge.Some? && d.challenge.value < TWO_32 then d.challenge.value else 0;
      match Handle(p, s, cmd, Zeros(32), challenge)
      case Reply(s', status, _) => if status == SUCCESS then Some(s') else None
      case Display(s') => Some(s')
      case Missing(_) => None
      case Launch(_) => None
  }

  function Opening(p: Platform, sub: Sub, id: Bytes): Context {
    ZERO.(ledgerKey := Some(LedgerKey(p)), id := id, state := WaitingTransaction, sub := sub)
  }

  function Replayed(p: Platform, log: seq<Event>): Option<Context> {
    if log == [] then None
    else if |log| == 1 then
      (if log[0].Started? && |log[0].id| == 32 then Some(Opening(p, log[0].sub, log[0].id)) else None)
    else match Replayed(p, log[..|log| - 1])
         case None => None
         case Some(s) => After(p, s, log[|log| - 1])
  }

  lemma ReplayedMore(p: Platform, log: seq<Event>, e: Event)
    requires log != []
    ensures Replayed(p, log + [e]) == match Replayed(p, log) case None => None case Some(s) => After(p, s, e)
  {
    assert (log + [e])[..|log|] == log;
    hide After;
  }

  // --- what a state makes use of ---

  function Rank(s: State): nat {
    match s
    case Initial => 0
    case WaitingTransaction => 1
    case ProviderSet => 2
    case ProviderChecked => 3
    case TransactionReceived => 4
    case SignatureChecked => 5
    case PayoutChecked => 6
    case AllChecked => 7
    case WaitingUser => 8
    case WaitingSigning => 9
    case SignFinished => 10
  }

  predicate SamePartner(c: Context, s: Context) { c.partnerName == s.partnerName && c.partnerKey == s.partnerKey }

  predicate SameTransaction(c: Context, s: Context) {
    c.shared == s.shared && c.fee == s.fee && c.digestDotted == s.digestDotted && c.digestPlain == s.digestPlain
  }

  predicate SamePayment(c: Context, s: Context) {
    && c.rate == s.rate && c.payingApp == s.payingApp && c.payingConfig == s.payingConfig
    && c.sendText == s.sendText && c.feesText == s.feesText && c.getText == s.getText
  }

  /** The contexts agree on everything that a later command may use before writing it again. */
  predicate Agrees(c: Context, s: Context) {
    && c.state == s.state && c.sub == s.sub && c.id == s.id && c.ledgerKey == s.ledgerKey && c.otherSeed == s.otherSeed
    && (Rank(s.state) >= 2 ==> SamePartner(c, s))
    && (s.state.ProviderSet? ==> c.digestPlain == s.digestPlain)
    && (Rank(s.state) >= 4 ==> SameTransaction(c, s))
    && (Rank(s.state) >= 6 && s.sub.IsSwap() ==> c.getText == s.getText)
    && (Rank(s.state) >= 7 ==> SamePayment(c, s))
  }

  // The replayed context after a command has been heard: it remembers a foreign payout address.
  function Heard(p: Platform, c: Context, s: Context, cmd: Command): Context {
    if SeesForeign(p, c, cmd) then s.(otherSeed := true) else s
  }

  // A command leaves the contexts in agreement, the replayed one moving only when it succeeds.
  ghost predicate Settles(p: Platform, c: Context, s: Context, cmd: Command, r: Result) {
    match r
    case Reply(c', status, _) =>
      if status == SUCCESS then Performed(p, s, cmd).Some? && Agrees(c', Performed(p, s, cmd).value) else Agrees(c', s)
    case Display(c') => Performed(p, s, cmd).Some? && Agrees(c', Performed(p, s, cmd).value)
    case Missing(c') => Agrees(c', s)
    case Launch(_) => true
  }

  lemma SetPartnerSettles(p: Platform, c: Context, s: Context, cmd: Command)
    requires Agrees(c, s) && s.state.WaitingTransaction? && cmd.ins.SetPartner?
    ensures Settles(p, c, s, cmd, SetPartnerKey(p, c, cmd))
  {
    hide ParsePartner, ShownName;
  }

  lemma CheckPartnerSettles(p: Platform, c: Context, s: Context, cmd: Command)
    requires Agrees(c, s) && s.state.ProviderSet? && cmd.ins.CheckPartner?
    ensures Settles(p, c, s, cmd, CheckPartnerKey(p, c, cmd))
  {
  }

  lemma ProcessSettles(p: Platform, c: Context, s: Context, cmd: Command)
    requires Agrees(c, s) && s.state.ProviderChecked? && cmd.ins.Process?
    ensures Settles(p, c, s, cmd, ProcessTransaction(p, c, cmd))
  {
    hide ParseTransaction, Deserialize, ExtraOk, IdMatches, Prepared;
  }

  lemma SignatureSettles(p: Platform, c: Context, s: Context, cmd: Command)
    requires Agrees(c, s) && s.state.TransactionReceived? && cmd.ins.CheckSignature?
    ensures Settles(p, c, s, cmd, CheckTransactionSignature(p, c, cmd))
  {
    hide ParseSignature;
  }

  lemma DescriptorSettles(p: Platform, c: Context, s: Context, cmd: Command, challenge: Word)
    requires Agrees(c, s) && s.state.SignatureChecked? && cmd.ins.TrustedName?
    ensures Settles(p, c, s, cmd, ApplyDescriptor(p, c, cmd, challenge))
  {
    hide ResolveNames;
  }

  // --- the address and amount checks, step by step ---

  predicate IsCheck(i: Ins) {
    i.CheckPayout? || i.AssetInDisplay? || i.AssetInNoDisplay? || i.RefundDisplay? || i.RefundNoDisplay?
  }

  // The contexts agree, also on the texts this command has written so far.
  predicate Alongside(c: Context, s: Context, cmd: Command) {
    && Agrees(c, s) && IsCheck(cmd.ins) && Welcome(cmd.ins, cmd.sub, s.state, s.sub)
    && (s.state.SignatureChecked? || s.state.PayoutChecked?)
  }

  // Both runs of a step go the same way; one that fails has not spoiled the agreement with s0.
  predicate Together(r: Result, q: Result, s0: Context) {
    match r
    case Reply(c', status, _) =>
      if status == SUCCESS then q.Reply? && q.status == SUCCESS && Agrees(c', q.context) else Agrees(c', s0)
    case Display(c') => q.Display? && Agrees(c', q.context)
    case Missing(c') => Agrees(c', s0)
    case Launch(_) => false
  }

  lemma SaveTogether(c: Context, s: Context, s0: Context, cmd: Command, check: Check)
    requires Alongside(c, s, cmd) && c.getText == s.getText
    requires !cmd.ins.CheckPayout? ==> c.sendText == s.sendText && c.feesText == s.feesText
    ensures Together(SaveStep(c, cmd, check), SaveStep(s, cmd, check), s0)
  {
  }

  lemma ExtrasTogether(c: Context, s: Context, s0: Context, cmd: Command, check: Check)
    requires Alongside(c, s, cmd) && Agrees(c, s0)
    requires cmd.ins.CheckPayout? ==> c.getText == s.getText
    requires !cmd.ins.CheckPayout? ==> c.sendText == s.sendText && c.feesText == s.feesText
    ensures Together(ExtrasStep(c, cmd, check), ExtrasStep(s, cmd, check), s0)
  {
    hide SaveStep, FiatAmount, FiatPrefix, AccountName;
    var m := MessageIn(c.shared);
    if c.sub.IsSell() {
      match FiatAmount(m)
      case None =>
      case Some(t) => SaveTogether(c.(getText := t), s.(getText := t), s0, cmd, check);
    } else if c.sub.IsFund() {
      SaveTogether(c.(getText := AccountName(m)), s.(getText := AccountName(m)), s0, cmd, check);
    } else {
      SaveTogether(c, s, s0, cmd, check);
    }
  }

  lemma FeesTogether(p: Platform, c: Context, s: Context, s0: Context, cmd: Command, check: Check)
    requires Alongside(c, s, cmd) && Agrees(c, s0)
    requires if cmd.ins.CheckPayout? then c.getText == s.getText else c.sendText == s.sendText
    ensures Together(FeesStep(p, c, cmd, check), FeesStep(p, s, cmd, check), s0)
  {
    hide ExtrasStep, ShownText;
    if cmd.ins.CheckPayout? {
      ExtrasTogether(c, s, s0, cmd, check);
    } else {
      match p.format(AppName(check.coin), check.coin.config, c.fee, true)
      case FormatterMissing =>
      case Formatted(text) =>
        match ShownText(text)
        case None =>
        case Some(t) => ExtrasTogether(c.(feesText := t), s.(feesText := t), s0, cmd, check);
    }
  }

  lemma AmountTogether(p: Platform, c: Context, s: Context, s0: Context, cmd: Command, check: Check)
    requires Alongside(c, s, cmd) && Agrees(c, s0)
    ensures Together(AmountStep(p, c, cmd, check), AmountStep(p, s, cmd, check), s0)
  {
    hide FeesStep, ShownText, AmountOf;
    match p.format(AppName(check.coin), check.coin.config, AmountOf(c.sub, cmd.ins, MessageIn(c.shared)), false)
    case FormatterMissing =>
    case Formatted(text) =>
      match ShownText(text)
      case None =>
      case Some(t) =>
        if c.sub.IsSwap() && cmd.ins.CheckPayout? {
          FeesTogether(p, c.(getText := t), s.(getText := t), s0, cmd, check);
        } else {
          FeesTogether(p, c.(sendText := t), s.(sendText := t), s0, cmd, check);
        }
  }

  // s is the replayed context after the command has been heard.
  lemma AddressTogether(p: Platform, c: Context, s: Context, cmd: Command, check: Check)
    requires Alongside(c, s.(otherSeed := c.otherSeed), cmd)
    requires ReadCheck(p, c.ledgerKey, MessageIn(c.shared), cmd) == Readable(check)
    requires s.otherSeed == (c.otherSeed || SeesForeign(p, c, cmd))
    ensures Together(AddressStep(p, c, cmd, check), AddressStep(p, s, cmd, check), s)
  {
    hide AmountStep, AddressVerdict, AddressOf, ReadCheck;
    var m := MessageIn(c.shared);
    if !c.sub.IsSwap() {
      AmountTogether(p, c, s, s, cmd, check);
    } else if Terminated(AddressOf(cmd.ins, m)) {
      match AddressVerdict(p, cmd.ins, m, check)
      case Belongs => AmountTogether(p, c, s, s, cmd, check);
      case CheckerMissing =>
      case Foreign =>
        if cmd.ins.CheckPayout? { AmountTogether(p, c.(otherSeed := true), s, s, cmd, check); }
    }
  }

  lemma RefusedStatus(p: Platform, key: Option<Key>, m: Pb.Message, cmd: Command)
    ensures ReadCheck(p, key, m, cmd).Refused? ==> ReadCheck(p, key, m, cmd).status != SUCCESS
  {
    hide ParseAddressMessage, ParseCoinConfig;
  }

  lemma CheckSettles(p: Platform, c: Context, s: Context, cmd: Command)
    requires Alongside(c, s, cmd)
    ensures Settles(p, c, Heard(p, c, s, cmd), cmd, CheckAddressesAndAmounts(p, c, cmd))
  {
    var s1 := Heard(p, c, s, cmd);
    RefusedStatus(p, c.ledgerKey, MessageIn(c.shared), cmd);
    hide ReadCheck, AddressStep;
    match ReadCheck(p, c.ledgerKey, MessageIn(c.shared), cmd)
    case Refused(status) =>
    case Readable(check) => AddressTogether(p, c, s1, cmd, check);
  }

  // --- every command ---

  predicate Advances(i: Ins) { !i.StartNew? && !i.GetVersion? && !i.GetChallenge? && !i.StartSigning? }

  lemma CommandSettles(p: Platform, c: Context, s: Context, cmd: Command, rng: Random, challenge: Word)
    requires Agrees(c, s) && Welcome(cmd.ins, cmd.sub, s.state, s.sub) && Advances(cmd.ins)
    ensures Settles(p, c, Heard(p, c, s, cmd), cmd, Handle(p, c, cmd, rng, challenge))
    ensures SeesForeign(p, c, cmd) ==> After(p, s, Strange(cmd)) == Some(Heard(p, c, s, cmd))
  {
    HeardSettles(p, c, s, cmd);
    if IsCheck(cmd.ins) {
      CheckSettles(p, c, s, cmd);
      ChecksHandled(p, c, cmd, rng, challenge);
    } else {
      OthersSettle(p, c, s, cmd, rng, challenge);
    }
  }

  lemma ChecksHandled(p: Platform, c: Context, cmd: Command, rng: Random, challenge: Word)
    requires IsCheck(cmd.ins)
    ensures Handle(p, c, cmd, rng, challenge) == CheckAddressesAndAmounts(p, c, cmd)
  {
    hide CheckAddressesAndAmounts;
  }

  lemma HeardSettles(p: Platform, c: Context, s: Context, cmd: Command)
    requires Agrees(c, s) && Welcome(cmd.ins, cmd.sub, s.state, s.sub)
    ensures SeesForeign(p, c, cmd) ==> After(p, s, Strange(cmd)) == Some(Heard(p, c, s, cmd))
    ensures !IsCheck(cmd.ins) ==> Heard(p, c, s, cmd) == s
    ensures IsCheck(cmd.ins) ==> Alongside(c, s, cmd)
  {
    hide ReadCheck, AddressVerdict;
  }

  lemma OthersSettle(p: Platform, c: Context, s: Context, cmd: Command, rng: Random, challenge: Word)
    requires Agrees(c, s) && Welcome(cmd.ins, cmd.sub, s.state, s.sub) && Advances(cmd.ins) && !IsCheck(cmd.ins)
    ensures Settles(p, c, s, cmd, Handle(p, c, cmd, rng, challenge))
  {
    WelcomeState(cmd.ins, cmd.sub, s.state, s.sub);
    hide Agrees, Welcome, SetPartnerKey, CheckPartnerKey, ProcessTransaction, CheckTransactionSignature,
         ApplyDescriptor;
    match cmd.ins
    case SetPartner => SetPartnerSettles(p, c, s, cmd);
    case CheckPartner => CheckPartnerSettles(p, c, s, cmd);
    case Process => ProcessSettles(p, c, s, cmd);
    case CheckSignature => SignatureSettles(p, c, s, cmd);
    case TrustedName => DescriptorSettles(p, c, s, cmd, challenge);
    case Prompt => PromptSettles(p, c, s, cmd);
  }

  lemma WelcomeState(i: Ins, sub: Sub, state: State, flow: Sub)
    requires Welcome(i, sub, state, flow)
    ensures !i.GetVersion? && !i.StartNew? ==> sub == flow && RequiredState(i) == Some(state)
    ensures !state.WaitingUser? && !OfOtherFlow(i, sub)
  {
  }

  lemma PromptSettles(p: Platform, c: Context, s: Context, cmd: Command)
    requires Agrees(c, s) && s.state.AllChecked? && cmd.ins.Prompt?
    ensures Settles(p, c, s, cmd, Display(c.(state := WaitingUser)))
  {
  }

  // --- every step ---

  ghost predicate Traced(p: Platform, c: Context, log: seq<Event>) {
    if c.state.Initial? then log == []
    else log != [] && Replayed(p, log).Some? && Agrees(c, Replayed(p, log).value)
  }

  ghost predicate Prompting(p: Platform, c: Context, ui: Ui) {
    !ui.Idle? ==>
      c.state.WaitingUser? && ui.pairs == ReviewPairs(p, c) && (ui.WarningShown? ==> c.otherSeed && p.wallet)
  }

  ghost predicate Sound(p: Platform, w: World) { Traced(p, w.context, w.log) && Prompting(p, w.context, w.ui) }

  lemma TracedMore(p: Platform, c: Context, log: seq<Event>, cmd: Command, c': Context)
    requires log != [] && Replayed(p, log).Some?
    requires var s := Replayed(p, log).value;
             && Welcome(cmd.ins, cmd.sub, s.state, s.sub) && (SeesForeign(p, s, cmd) ==> s.otherSeed)
             && Performed(p, s, cmd).Some? && Agrees(c', Performed(p, s, cmd).value)
    requires !c'.state.Initial?
    ensures Traced(p, c', log + [Did(cmd)])
  {
    hide Performed, Welcome, Agrees, SeesForeign;
    ReplayedMore(p, log, Did(cmd));
  }

  lemma NotedTraced(p: Platform, c: Context, log: seq<Event>, cmd: Command)
    requires Traced(p, c, log) && !c.state.Initial? && Welcome(cmd.ins, cmd.sub, c.state, c.sub)
    ensures var noted := Noted(p, c, cmd, log);
            noted != [] && Replayed(p, noted) == Some(Heard(p, c, Replayed(p, log).value, cmd))
  {
    var s := Replayed(p, log).value;
    AgreesBase(c, s);
    hide SeesForeign, After, Welcome, Agrees;
    if SeesForeign(p, c, cmd) {
      HeardSettles(p, c, s, cmd);
      ReplayedMore(p, log, Strange(cmd));
    }
  }

  lemma AgreesBase(c: Context, s: Context)
    requires Agrees(c, s)
    ensures c.state == s.state && c.sub == s.sub && c.otherSeed == s.otherSeed
  {
  }

  // Success never leads back to the initial state, and only a display waits for the user.
  predicate Onward(c: Context, r: Result) {
    match r
    case Reply(c', _, _) => Underway(c')
    case Display(c') => c'.state.WaitingUser?
    case Missing(c') => c'.state == c.state
    case Launch(_) => true
  }

  predicate Underway(c: Context) { !c.state.Initial? && !c.state.WaitingUser? && !c.state.SignFinished? }

  predicate KeepsShared(c: Context, r: Result) {
    match r
    case Reply(c', _, _) => c'.shared == c.shared
    case Display(c') => c'.shared == c.shared
    case Missing(c') => c'.shared == c.shared
    case Launch(_) => true
  }

  lemma SaveOnward(c: Context, d: Context, cmd: Command, check: Check)
    requires Underway(c) && d.shared == c.shared
    ensures Onward(c, SaveStep(d, cmd, check)) && KeepsShared(c, SaveStep(d, cmd, check))
  {
  }

  lemma FeesOnward(p: Platform, c: Context, d: Context, cmd: Command, check: Check)
    requires Underway(c) && d.state == c.state && d.shared == c.shared
    ensures Onward(c, FeesStep(p, d, cmd, check)) && KeepsShared(c, FeesStep(p, d, cmd, check))
  {
    hide ExtrasStep, ShownText;
    forall e: Context | e.state == c.state && e.shared == c.shared
      ensures Onward(c, ExtrasStep(e, cmd, check)) && KeepsShared(c, ExtrasStep(e, cmd, check))
    {
      ExtrasOnward(c, e, cmd, check);
    }
  }

  lemma ExtrasOnward(c: Context, d: Context, cmd: Command, check: Check)
    requires Underway(c) && d.state == c.state && d.shared == c.shared
    ensures Onward(c, ExtrasStep(d, cmd, check)) && KeepsShared(c, ExtrasStep(d, cmd, check))
  {
    hide SaveStep, FiatAmount, AccountName, FiatPrefix;
    forall e: Context | e.shared == c.shared
      ensures Onward(c, SaveStep(e, cmd, check)) && KeepsShared(c, SaveStep(e, cmd, check))
    {
      SaveOnward(c, e, cmd, check);
    }
  }

  lemma AmountOnward(p: Platform, c: Context, d: Context, cmd: Command, check: Check)
    requires Underway(c) && d.state == c.state && d.shared == c.shared
    ensures Onward(c, AmountStep(p, d, cmd, check)) && KeepsShared(c, AmountStep(p, d, cmd, check))
  {
    hide FeesStep, ShownText, AmountOf;
    forall e: Context | e.state == c.state && e.shared == c.shared
      ensures Onward(c, FeesStep(p, e, cmd, check)) && KeepsShared(c, FeesStep(p, e, cmd, check))
    {
      FeesOnward(p, c, e, cmd, check);
    }
  }

  lemma CheckOnward(p: Platform, c: Context, cmd: Command)
    requires Underway(c)
    ensures Onward(c, CheckAddressesAndAmounts(p, c, cmd)) && KeepsShared(c, CheckAddressesAndAmounts(p, c, cmd))
  {
    hide AmountStep, ReadCheck, AddressVerdict, AddressOf;
    forall e: Context, check | e.state == c.state && e.shared == c.shared
      ensures Onward(c, AmountStep(p, e, cmd, check)) && KeepsShared(c, AmountStep(p, e, cmd, check))
    {
      AmountOnward(p, c, e, cmd, check);
    }
  }

  lemma HandleOnward(p: Platform, c: Context, cmd: Command, rng: Random, challenge: Word)
    requires Underway(c) && !cmd.ins.StartNew?
    ensures Onward(c, Handle(p, c, cmd, rng, challenge))
  {
    hide CheckAddressesAndAmounts, ParsePartner, ParseTransaction, ParseSignature, Deserialize, ResolveNames,
         ShownName, Prepared, ExtraOk, IdMatches, Verifies, RequestOf, FreshId;
    if IsCheck(cmd.ins) {
      CheckOnward(p, c, cmd);
      ChecksHandled(p, c, cmd, rng, challenge);
      hide Handle;
    } else if cmd.ins.Process? {
      ProcessOnward(p, c, cmd);
      hide ProcessTransaction;
    }
  }

  lemma ProcessOnward(p: Platform, c: Context, cmd: Command)
    requires Underway(c)
    ensures Onward(c, ProcessTransaction(p, c, cmd))
  {
    hide ParseTransaction, Deserialize, Prepared, ExtraOk, IdMatches;
  }

  // --- dispatch ---

  lemma StartSound(p: Platform, w: World, cmd: Command, rng: Random, sent: bool, roll: Word)
    requires cmd.ins.StartNew? && w.ui.Idle?
    ensures Sound(p, Dispatch(p, w, cmd, rng, sent, roll).0)
  {
    hide Agrees;
    assert forall s: Context :: Agrees(s, s) by { forall s: Context { AgreesSelf(s); } }
  }

  lemma AgreesSelf(s: Context)
    ensures Agrees(s, s)
  {
  }

  lemma QuerySound(p: Platform, w: World, cmd: Command, rng: Random, sent: bool, roll: Word)
    requires (cmd.ins.GetVersion? || cmd.ins.GetChallenge?) && Sound(p, w)
    ensures Sound(p, Dispatch(p, w, cmd, rng, sent, roll).0)
  {
    hide Traced, Prompting;
    assert Traced(p, ZERO, []) && Prompting(p, ZERO, Idle) by { FreshSound(p); }
  }

  lemma FreshSound(p: Platform)
    ensures Traced(p, ZERO, []) && Prompting(p, ZERO, Idle)
  {
  }

  lemma CommandSound(p: Platform, w: World, cmd: Command, rng: Random, sent: bool, roll: Word)
    requires Sound(p, w) && Welcome(cmd.ins, cmd.sub, w.context.state, w.context.sub)
    ensures Sound(p, Dispatch(p, w, cmd, rng, sent, roll).0)
  {
    hide Handle, Welcome, Agrees, Noted, Replayed, Performed, ReviewPairs;
    var c := w.context;
    assert w.ui.Idle? by { WelcomeState(cmd.ins, cmd.sub, c.state, c.sub); }
    FreshSound(p);
    if cmd.ins.StartNew? {
      StartSound(p, w, cmd, rng, sent, roll);
    } else if cmd.ins.GetVersion? || cmd.ins.GetChallenge? {
      QuerySound(p, w, cmd, rng, sent, roll);
    } else if cmd.ins.StartSigning? {
      LaunchSound(p, w, cmd, rng, sent, roll);
    } else {
      NotInitial(cmd, c);
      AdvanceSound(p, w, cmd, rng, sent, roll);
    }
  }

  lemma NotInitial(cmd: Command, c: Context)
    requires Welcome(cmd.ins, cmd.sub, c.state, c.sub) && Advances(cmd.ins)
    ensures Underway(c)
  {
  }

  lemma LaunchSound(p: Platform, w: World, cmd: Command, rng: Random, sent: bool, roll: Word)
    requires cmd.ins.StartSigning?
    ensures Sound(p, Dispatch(p, w, cmd, rng, sent, roll).0)
  {
    FreshSound(p);
    hide Traced, Prompting, RequestOf;
  }

  lemma AdvanceSound(p: Platform, w: World, cmd: Command, rng: Random, sent: bool, roll: Word)
    requires Sound(p, w) && Welcome(cmd.ins, cmd.sub, w.context.state, w.context.sub) && Advances(cmd.ins)
             && Underway(w.context)
    ensures Sound(p, Dispatch(p, w, cmd, rng, sent, roll).0)
  {
    var c := w.context;
    var s := Replayed(p, w.log).value;
    AgreesBase(c, s);
    CommandSettles(p, c, s, cmd, rng, w.challenge);
    NotedTraced(p, c, w.log, cmd);
    HandleOnward(p, c, cmd, rng, w.challenge);
    HeardWelcome(p, c, s, cmd);
    FreshSound(p);
    hide Handle, Welcome, Agrees, Noted, Replayed, Performed, ReviewPairs, Heard, SeesForeign;
    var log := Noted(p, c, cmd, w.log);
    var r := Handle(p, c, cmd, rng, w.challenge);
    if r.Display? || (r.Reply? && r.status == SUCCESS) { TracedMore(p, c, log, cmd, r.context); }
    hide Settles, Sound, Onward;
    OutcomeSound(p, w, cmd, rng, sent, roll, r, log);
  }

  // Whatever a command comes to, from what is known of its result.
  lemma OutcomeSound(p: Platform, w: World, cmd: Command, rng: Random, sent: bool, roll: Word, r: Result,
                     log: seq<Event>)
    requires r == Handle(p, w.context, cmd, rng, w.challenge) && Advances(cmd.ins) && w.ui.Idle?
             && log == Noted(p, w.context, cmd, w.log)
    requires match r
             case Reply(c', status, _) =>
               !c'.state.Initial? && !c'.state.WaitingUser?
                 && Traced(p, c', if status == SUCCESS then log + [Did(cmd)] else log)
             case Display(c') => c'.state.WaitingUser? && Traced(p, c', log + [Did(cmd)])
             case Missing(c') => Traced(p, c', log)
             case Launch(_) => true
    ensures Sound(p, Dispatch(p, w, cmd, rng, sent, roll).0)
  {
    FreshSound(p);
    hide Handle, Traced, Noted, ReviewPairs;
  }

  lemma HeardWelcome(p: Platform, c: Context, s: Context, cmd: Command)
    requires Agrees(c, s) && Welcome(cmd.ins, cmd.sub, s.state, s.sub)
    ensures var h := Heard(p, c, s, cmd);
            Welcome(cmd.ins, cmd.sub, h.state, h.sub) && (SeesForeign(p, h, cmd) ==> h.otherSeed)
  {
    hide ReadCheck, AddressVerdict, AddressOf, Terminated;
  }

  // --- all runs ---

  lemma ChunkSound(p: Platform, c: Context, log: seq<Event>, shared: Shared)
    requires Traced(p, c, log) && c.state.ProviderChecked?
    ensures Traced(p, c.(shared := shared), log)
  {
    hide Replayed;
  }

  lemma ApprovalSound(p: Platform, w: World)
    requires Sound(p, w) && w.ui.ReviewShown?
    ensures Sound(p, Step(p, w, ReviewChoice(true)).0)
  {
    hide Accept, Dispatch, Replayed, ReviewPairs, Performed, SeesForeign;
    var s := Replayed(p, w.log).value;
    ReplayedMore(p, w.log, Approved(w.ui.pairs));
    AgreesBase(w.context, s);
    FullAgreement(w.context, s);
    AgreesSelf(s.(state := WaitingSigning));
    hide Agrees;
  }

  // Nothing is left to differ once everything has been checked.
  lemma FullAgreement(c: Context, s: Context)
    requires Agrees(c, s) && Rank(s.state) >= 7
    ensures c == s
  {
  }

  lemma ChoiceSound(p: Platform, w: World, i: Input)
    requires Sound(p, w) && !i.Apdu?
    ensures Sound(p, Step(p, w, i).0)
  {
    FreshSound(p);
    if i == ReviewChoice(true) && w.ui.ReviewShown? {
      ApprovalSound(p, w);
    }
    hide Accept, Dispatch, Replayed, ReviewPairs;
  }

  lemma ApduSound(p: Platform, w: World, bytes: Bytes, rng: Random, sent: bool, roll: Word)
    requires Sound(p, w)
    ensures Sound(p, Step(p, w, Apdu(bytes, rng, sent, roll)).0)
  {
    var c := w.context;
    AcceptedIsWelcome(w.rx, c.shared, c.state, c.sub, bytes);
    hide Accept, Dispatch, Traced, Welcome;
    match Accept(w.rx, c.shared, c.state, c.sub, bytes) {
      case Rejected(status) =>
      case More(rx, shared, chunk) => ChunkSound(p, c, w.log, shared);
      case Complete(rx, shared, chunk, cmd) =>
        if shared != c.shared { ChunkSound(p, c, w.log, shared); }
        var d := c.(shared := shared);
        assert shared == c.shared ==> d == c;
        CommandSound(p, w.(rx := rx, context := d, accepted := w.accepted + [chunk]), cmd, rng, sent, roll);
    }
  }

  /** In every run the context agrees with the replay of the successful commands. */
  lemma {:induction false} RunSound(p: Platform, boot: Word, inputs: seq<Input>)
    ensures Sound(p, Run(p, boot, inputs))
  {
    hide Step, Sound;
    if inputs == [] {
      BootSound(p, boot);
    } else {
      var n := |inputs| - 1;
      RunSound(p, boot, inputs[..n]);
      StepSound(p, Run(p, boot, inputs[..n]), inputs[n]);
    }
  }

  lemma BootSound(p: Platform, boot: Word)
    ensures Sound(p, Boot(boot))
  {
    FreshSound(p);
  }

  lemma StepSound(p: Platform, w: World, i: Input)
    requires Sound(p, w)
    ensures Sound(p, Step(p, w, i).0)
  {
    hide Sound;
    if i.Apdu? {
      ApduSound(p, w, i.bytes, i.rng, i.sent, i.roll);
    } else {
      ChoiceSound(p, w, i);
    }
  }
}
