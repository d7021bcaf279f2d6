/** What a history that can be replayed tells of the context: where partner, transaction and texts come
    from, and in which order its events stand. */
module FlowLaws {
  import opened Common
  import opened Commands
  import opened Messages
  import opened Transactions
  import opened Pb
  import opened Flow
  import opened Device
  import opened Replay

  // --- reading the history ---

  predicate DidAt(log: seq<Event>, k: nat, ins: Ins, sub: Sub) {
    k < |log| && log[k].Did? && log[k].command.ins == ins && log[k].command.sub == sub
  }

  function DataAt(log: seq<Event>, k: nat): Bytes { if k < |log| && log[k].Did? then log[k].command.data else [] }

  function CommandAt(log: seq<Event>, k: nat): Command {
    if k < |log| && log[k].Did? then log[k].command else Command(GetVersion, 0, Swap, [])
  }

  // The message after the trusted names of the history have been put in place.
  function Resolving(p: Platform, m: Message, log: seq<Event>): Message {
    if log == [] then m
    else
      var was, e := Resolving(p, m, log[..|log| - 1]), log[|log| - 1];
      if e.Did? && e.command.ins.TrustedName? then
        match p.readDescriptor(e.command.data)
        case BadDescriptor(_) => was
        case Descriptor(_, _, _, name, owner) => ResolveNames(was, name, owner).0
      else was
  }

  // --- the origin of the transaction ---

  // The partner in the context is the one of the credentials sent first.
  predicate PartnerKnown(p: Platform, s: Context, log: seq<Event>) {
    DidAt(log, 1, SetPartner, s.sub)
    && match ParsePartner(s.sub, DataAt(log, 1))
       case None => false
       case Some(partner) =>
         s.partnerKey == Some(Key(partner.curve, partner.key)) && s.partnerName == ShownName(s.sub, partner.name)
  }

  // Ledger signed those credentials.
  predicate PartnerVouched(p: Platform, s: Context, log: seq<Event>) {
    && DidAt(log, 2, CheckPartner, s.sub) && 67 <= |DataAt(log, 2)| <= 73
    && p.verify(LedgerKey(p), p.sha256(DataAt(log, 1)), DataAt(log, 2))
  }

  // The context holds the proposal that came third: its fees, its digests, and its transaction in the
  // exchange's form, carrying the issued id.
  predicate ProposalRead(p: Platform, s: Context, log: seq<Event>) {
    DidAt(log, 3, Process, s.sub)
    && match ParseTransaction(s.sub, DataAt(log, 3))
       case None => false
       case Some(proposal) => ProposalHeld(p, s, log, proposal)
  }

  predicate ProposalHeld(p: Platform, s: Context, log: seq<Event>, proposal: Proposal) {
    && s.fee == proposal.fees
    && s.digestPlain == p.sha256(proposal.payload) && s.digestDotted == p.sha256(Dotted(proposal.payload))
    && match Deserialize(s.sub, proposal.payload, proposal.base64)
       case Unreadable => false
       case Broken => false
       case Ready(m) =>
         && ExtraOk(s.sub, m) && IdMatches(s.sub, m, s.id)
         && s.shared == Decoded(Resolving(p, Prepared(s.sub, m), log))
  }

  // The partner signed the proposal, with or without a dot in front.
  predicate ProposalSigned(p: Platform, s: Context, log: seq<Event>) {
    DidAt(log, 4, CheckSignature, s.sub)
    && match ParseSignature(s.sub, DataAt(log, 4))
       case None => false
       case Some((dotted, der)) => Verifies(p, s.partnerKey, if dotted then s.digestDotted else s.digestPlain, der)
  }

  ghost predicate Genuine(p: Platform, s: Context, log: seq<Event>) {
    var rank := Rank(s.state);
    && |log| >= 1 && log[0] == Started(s.sub, s.id) && s.ledgerKey == Some(LedgerKey(p)) && |log| >= Min(rank, 5)
    && (rank < 5 ==> |log| == rank)
    && (rank >= 2 ==> PartnerKnown(p, s, log))
    && (rank == 2 ==> s.digestPlain == p.sha256(DataAt(log, 1)))
    && (rank >= 3 ==> PartnerVouched(p, s, log))
    && (rank >= 4 ==> ProposalRead(p, s, log))
    && (rank >= 5 ==> ProposalSigned(p, s, log))
  }

  // An event that keeps what is known of the first five.
  predicate SameOrigin(s: Context, t: Context) {
    && t.sub == s.sub && t.id == s.id && t.ledgerKey == s.ledgerKey && t.partnerKey == s.partnerKey
       && t.partnerName == s.partnerName
    && t.fee == s.fee && t.digestPlain == s.digestPlain && t.digestDotted == s.digestDotted
  }

  predicate Resolves(p: Platform, e: Event) { e.Did? && e.command.ins.TrustedName? }

  lemma ResolvingMore(p: Platform, m: Message, log: seq<Event>, e: Event)
    ensures !Resolves(p, e) ==> Resolving(p, m, log + [e]) == Resolving(p, m, log)
  {
    assert (log + [e])[..|log|] == log;
  }

  // Later events do not touch what the credentials tell.
  lemma PartnerKept(p: Platform, s: Context, log: seq<Event>, e: Event, t: Context)
    requires t.sub == s.sub && t.partnerKey == s.partnerKey && t.partnerName == s.partnerName
    ensures PartnerKnown(p, s, log) ==> PartnerKnown(p, t, log + [e])
    ensures PartnerVouched(p, s, log) ==> PartnerVouched(p, t, log + [e])
  {
    hide ParsePartner, ShownName;
  }

  lemma SignedKept(p: Platform, s: Context, log: seq<Event>, e: Event, t: Context)
    requires SameOrigin(s, t)
    ensures ProposalSigned(p, s, log) ==> ProposalSigned(p, t, log + [e])
  {
    hide ParseSignature;
  }

  lemma ReadKept(p: Platform, s: Context, log: seq<Event>, e: Event, t: Context)
    requires ProposalRead(p, s, log) && SameOrigin(s, t) && t.shared == s.shared && !Resolves(p, e)
    ensures ProposalRead(p, t, log + [e])
  {
    hide ParseTransaction, Deserialize, ExtraOk, IdMatches, Prepared, Resolving;
    var q := ParseTransaction(s.sub, DataAt(log, 3)).value;
    ResolvingMore(p, Prepared(s.sub, Deserialize(s.sub, q.payload, q.base64).message), log, e);
  }

  lemma KeptGenuine(p: Platform, s: Context, log: seq<Event>, e: Event, t: Context)
    requires Genuine(p, s, log) && Rank(s.state) >= 5 && Rank(t.state) >= 5 && SameOrigin(s, t)
    requires t.shared == s.shared && !Resolves(p, e)
    ensures Genuine(p, t, log + [e])
  {
    hide PartnerKnown, PartnerVouched, ProposalRead, ProposalSigned, Resolves;
    PartnerKept(p, s, log, e, t);
    SignedKept(p, s, log, e, t);
    ReadKept(p, s, log, e, t);
    assert (log + [e])[0] == log[0];
  }

  // --- what each successful command does ---

  lemma SetPartnerDone(p: Platform, s: Context, cmd: Command)
    requires cmd.ins.SetPartner? && Performed(p, s, cmd).Some?
    ensures ParsePartner(cmd.sub, cmd.data).Some?
    ensures var partner := ParsePartner(cmd.sub, cmd.data).value;
            Performed(p, s, cmd).value ==
            s.(partnerName := ShownName(s.sub, partner.name), partnerKey := Some(Key(partner.curve, partner.key)),
               digestPlain := p.sha256(cmd.data), state := ProviderSet)
  {
    hide ParsePartner, ShownName;
  }

  lemma CheckPartnerDone(p: Platform, s: Context, cmd: Command)
    requires cmd.ins.CheckPartner? && Performed(p, s, cmd).Some?
    ensures Verifies(p, s.ledgerKey, s.digestPlain, cmd.data) && 67 <= |cmd.data| <= 73
            && Performed(p, s, cmd).value == s.(state := ProviderChecked)
  {
  }

  lemma ProcessDone(p: Platform, s: Context, cmd: Command)
    requires cmd.ins.Process? && Performed(p, s, cmd).Some?
    ensures ParseTransaction(cmd.sub, cmd.data).Some?
    ensures var q := ParseTransaction(cmd.sub, cmd.data).value;
            var d := Deserialize(cmd.sub, q.payload, q.base64);
            && d.Ready? && ExtraOk(cmd.sub, d.message) && IdMatches(cmd.sub, d.message, s.id)
            && Performed(p, s, cmd).value ==
               s.(fee := q.fees, digestPlain := p.sha256(q.payload), digestDotted := p.sha256(Dotted(q.payload)),
                  shared := Decoded(Prepared(cmd.sub, d.message)), state := TransactionReceived)
  {
    hide ParseTransaction, Deserialize, ExtraOk, IdMatches, Prepared;
  }

  lemma SignatureDone(p: Platform, s: Context, cmd: Command)
    requires cmd.ins.CheckSignature? && Performed(p, s, cmd).Some?
    ensures ParseSignature(cmd.sub, cmd.data).Some?
    ensures var (dotted, der) := ParseSignature(cmd.sub, cmd.data).value;
            Verifies(p, s.partnerKey, if dotted then s.digestDotted else s.digestPlain, der)
    ensures Performed(p, s, cmd).value == s.(state := SignatureChecked)
  {
    hide ParseSignature;
  }

  lemma DescriptorDone(p: Platform, s: Context, cmd: Command)
    requires cmd.ins.TrustedName? && Performed(p, s, cmd).Some?
    ensures var d := p.readDescriptor(cmd.data);
            && d.Descriptor? && d.challenge.Some? && d.contextAddress && d.dynamicResolver
            && ResolveNames(MessageIn(s.shared), d.name, d.owner).1
            && Performed(p, s, cmd).value == s.(shared := Decoded(ResolveNames(MessageIn(s.shared), d.name, d.owner).0))
  {
    hide ResolveNames;
  }

  // The text the application shows for an amount in a coin.
  predicate Shows(p: Platform, app: Bytes, config: Bytes, amount: Bytes, fee: bool, text: Bytes) {
    match p.format(app, config, amount, fee)
    case FormatterMissing => false
    case Formatted(t) => ShownText(t) == Some(text)
  }

  // A verdict a payout check can succeed with: the device's own address, or a foreign one, which is marked.
  predicate Stands(verdict: Verdict, marked: bool) { verdict.Belongs? || (verdict.Foreign? && marked) }

  // A payout check that succeeded from s to t.
  ghost predicate PayoutDone(p: Platform, s: Context, cmd: Command, t: Context) {
    var m := MessageIn(s.shared);
    && ReadCheck(p, s.ledgerKey, m, cmd).Readable?
    && var check := ReadCheck(p, s.ledgerKey, m, cmd).check;
    && Stands(AddressVerdict(p, cmd.ins, m, check), t.otherSeed)
    && Shows(p, AppName(check.coin), check.coin.config, Blob(m, AMOUNT_TO_WALLET), false, t.getText)
    && t == s.(getText := t.getText, otherSeed := t.otherSeed, state := PayoutChecked)
  }

  // A check of the paying side that succeeded from s to t.
  ghost predicate PayingDone(p: Platform, s: Context, cmd: Command, t: Context) {
    var m := MessageIn(s.shared);
    && ReadCheck(p, s.ledgerKey, m, cmd).Readable?
    && var check := ReadCheck(p, s.ledgerKey, m, cmd).check;
    && (s.sub.IsSwap() ==> AddressVerdict(p, cmd.ins, m, check).Belongs? && t.getText == s.getText)
    && (s.sub.IsSell() ==> FiatAmount(m) == Some(t.getText)) && (s.sub.IsFund() ==> t.getText == AccountName(m))
    && t.payingApp == AppName(check.coin) && t.payingConfig == check.coin.config && t.rate == cmd.rate
    && Shows(p, t.payingApp, t.payingConfig, InAmount(s.sub, m), false, t.sendText)
    && Shows(p, t.payingApp, t.payingConfig, s.fee, true, t.feesText)
    && t == s.(payingApp := t.payingApp, payingConfig := t.payingConfig, rate := t.rate, sendText := t.sendText,
               feesText := t.feesText, getText := t.getText, state := t.state)
    && (t.state == if cmd.ins.AssetInDisplay? || cmd.ins.RefundDisplay? then WaitingUser else AllChecked)
  }

  function Outcome(r: Result): Option<Context> {
    match r
    case Reply(t, status, _) => if status == SUCCESS then Some(t) else None
    case Display(t) => Some(t)
    case Missing(_) => None
    case Launch(_) => None
  }

  lemma PerformedCheck(p: Platform, s: Context, cmd: Command)
    requires IsCheck(cmd.ins)
    ensures Performed(p, s, cmd) == Outcome(CheckAddressesAndAmounts(p, s, cmd))
  {
    hide CheckAddressesAndAmounts;
  }

  lemma PayoutAmount(p: Platform, s: Context, cmd: Command, check: Check)
    requires cmd.ins.CheckPayout? && s.sub.IsSwap() && Outcome(AmountStep(p, s, cmd, check)).Some?
    ensures var t := Outcome(AmountStep(p, s, cmd, check)).value;
            && Shows(p, AppName(check.coin), check.coin.config, Blob(MessageIn(s.shared), AMOUNT_TO_WALLET), false,
                     t.getText)
            && t == s.(getText := t.getText, state := PayoutChecked)
  {
    hide ShownText, FiatAmount, AccountName;
  }

  lemma PayoutCheckDone(p: Platform, s: Context, cmd: Command, t: Context)
    requires cmd.ins.CheckPayout? && s.sub.IsSwap() && Outcome(CheckAddressesAndAmounts(p, s, cmd)) == Some(t)
    ensures PayoutDone(p, s, cmd, t) && (t.otherSeed <==> s.otherSeed || SeesForeign(p, s, cmd))
  {
    hide ReadCheck, AddressVerdict, AddressOf, Terminated, ShownText, AmountStep, Shows;
    var m := MessageIn(s.shared);
    RefusedStatus(p, s.ledgerKey, m, cmd);
    match ReadCheck(p, s.ledgerKey, m, cmd) {
      case Refused(_) =>
      case Readable(check) =>
        var u := if AddressVerdict(p, cmd.ins, m, check).Foreign? then s.(otherSeed := true) else s;
        PayoutAmount(p, u, cmd, check);
    }
  }

  // What the steps behind the address check leave of a paying-side check.
  ghost predicate PaidFrom(p: Platform, s: Context, cmd: Command, check: Check, t: Context) {
    var m := MessageIn(s.shared);
    && (s.sub.IsSwap() ==> t.getText == s.getText)
    && (s.sub.IsSell() ==> FiatAmount(m) == Some(t.getText)) && (s.sub.IsFund() ==> t.getText == AccountName(m))
    && t.payingApp == AppName(check.coin) && t.payingConfig == check.coin.config && t.rate == cmd.rate
    && t == s.(payingApp := t.payingApp, payingConfig := t.payingConfig, rate := t.rate, sendText := t.sendText,
               feesText := t.feesText, getText := t.getText, state := t.state)
    && (t.state == if cmd.ins.AssetInDisplay? || cmd.ins.RefundDisplay? then WaitingUser else AllChecked)
  }

  lemma ExtrasDone(p: Platform, s: Context, cmd: Command, check: Check)
    requires IsCheck(cmd.ins) && !cmd.ins.CheckPayout? && Outcome(ExtrasStep(s, cmd, check)).Some?
    ensures var t := Outcome(ExtrasStep(s, cmd, check)).value;
            PaidFrom(p, s, cmd, check, t) && t.sendText == s.sendText && t.feesText == s.feesText
  {
    hide FiatAmount, AccountName, FiatPrefix;
  }

  lemma FeesDone(p: Platform, s: Context, cmd: Command, check: Check)
    requires IsCheck(cmd.ins) && !cmd.ins.CheckPayout? && Outcome(FeesStep(p, s, cmd, check)).Some?
    ensures var t := Outcome(FeesStep(p, s, cmd, check)).value;
            && PaidFrom(p, s, cmd, check, t) && t.sendText == s.sendText
            && Shows(p, AppName(check.coin), check.coin.config, s.fee, true, t.feesText)
  {
    hide ExtrasStep, ShownText, FiatAmount, AccountName;
    match p.format(AppName(check.coin), check.coin.config, s.fee, true) {
      case FormatterMissing =>
      case Formatted(text) =>
        match ShownText(text) {
          case None =>
          case Some(t) => ExtrasDone(p, s.(feesText := t), cmd, check);
        }
    }
  }

  lemma AmountDone(p: Platform, s: Context, cmd: Command, check: Check)
    requires IsCheck(cmd.ins) && !cmd.ins.CheckPayout? && Outcome(AmountStep(p, s, cmd, check)).Some?
    ensures var t := Outcome(AmountStep(p, s, cmd, check)).value;
            && PaidFrom(p, s, cmd, check, t)
            && Shows(p, AppName(check.coin), check.coin.config, InAmount(s.sub, MessageIn(s.shared)), false, t.sendText)
            && Shows(p, AppName(check.coin), check.coin.config, s.fee, true, t.feesText)
  {
    hide FeesStep, ShownText, FiatAmount, AccountName, InAmount;
    match p.format(AppName(check.coin), check.coin.config, InAmount(s.sub, MessageIn(s.shared)), false) {
      case FormatterMissing =>
      case Formatted(text) =>
        match ShownText(text) {
          case None =>
          case Some(t) => FeesDone(p, s.(sendText := t), cmd, check);
        }
    }
  }

  lemma PayingCheckDone(p: Platform, s: Context, cmd: Command, t: Context)
    requires IsCheck(cmd.ins) && !cmd.ins.CheckPayout? && Outcome(CheckAddressesAndAmounts(p, s, cmd)) == Some(t)
    ensures PayingDone(p, s, cmd, t)
  {
    hide ReadCheck, AddressVerdict, AddressOf, Terminated, ShownText, AmountStep, Shows, InAmount, FiatAmount,
         AccountName;
    var m := MessageIn(s.shared);
    RefusedStatus(p, s.ledgerKey, m, cmd);
    match ReadCheck(p, s.ledgerKey, m, cmd) {
      case Refused(_) =>
      case Readable(check) => if Outcome(AmountStep(p, s, cmd, check)).Some? { AmountDone(p, s, cmd, check); }
    }
  }

  // --- the first five commands ---

  lemma SetPartnerGenuine(p: Platform, s: Context, log: seq<Event>, cmd: Command)
    requires Genuine(p, s, log) && s.state.WaitingTransaction? && cmd.ins.SetPartner? && cmd.sub == s.sub
             && Performed(p, s, cmd).Some?
    ensures Genuine(p, Performed(p, s, cmd).value, log + [Did(cmd)])
    ensures Performed(p, s, cmd).value.state.ProviderSet? && Performed(p, s, cmd).value.otherSeed == s.otherSeed
  {
    SetPartnerDone(p, s, cmd);
    hide Performed, ParsePartner, ShownName;
  }

  lemma CheckPartnerGenuine(p: Platform, s: Context, log: seq<Event>, cmd: Command)
    requires Genuine(p, s, log) && s.state.ProviderSet? && cmd.ins.CheckPartner? && cmd.sub == s.sub
             && Performed(p, s, cmd).Some?
    ensures Genuine(p, Performed(p, s, cmd).value, log + [Did(cmd)])
    ensures Performed(p, s, cmd).value.state.ProviderChecked? && Performed(p, s, cmd).value.otherSeed == s.otherSeed
  {
    CheckPartnerDone(p, s, cmd);
    hide Performed, ParsePartner, ShownName;
  }

  lemma {:induction false} NothingResolved(p: Platform, m: Message, log: seq<Event>)
    requires forall i :: 0 <= i < |log| ==> !Resolves(p, log[i])
    ensures Resolving(p, m, log) == m
  {
    if log != [] { NothingResolved(p, m, log[..|log| - 1]); }
  }

  // The context after a proposal has been taken in.
  function WithProposal(p: Platform, s: Context, q: Proposal, m: Message): Context {
    s.(fee := q.fees, digestPlain := p.sha256(q.payload), digestDotted := p.sha256(Dotted(q.payload)),
       shared := Decoded(Prepared(s.sub, m)), state := TransactionReceived)
  }

  lemma ProcessGenuine(p: Platform, s: Context, log: seq<Event>, cmd: Command, q: Proposal, m: Message)
    requires Genuine(p, s, log) && s.state.ProviderChecked? && cmd.ins.Process? && cmd.sub == s.sub
    requires ParseTransaction(s.sub, cmd.data) == Some(q) && Deserialize(s.sub, q.payload, q.base64) == Ready(m)
    requires ExtraOk(s.sub, m) && IdMatches(s.sub, m, s.id)
    ensures Genuine(p, WithProposal(p, s, q, m), log + [Did(cmd)])
  {
    hide PartnerKnown, PartnerVouched, ProposalRead, ParseTransaction, Deserialize, ExtraOk, IdMatches, Prepared;
    var t := WithProposal(p, s, q, m);
    PartnerKept(p, s, log, Did(cmd), t);
    NoDescriptorYet(p, s, log);
    ProposalTaken(p, s, log, cmd, q, m);
  }

  lemma ProposalTaken(p: Platform, s: Context, log: seq<Event>, cmd: Command, q: Proposal, m: Message)
    requires |log| == 3 && cmd.ins.Process? && cmd.sub == s.sub && forall i :: 0 <= i < |log| ==> !Resolves(p, log[i])
    requires ParseTransaction(s.sub, cmd.data) == Some(q) && Deserialize(s.sub, q.payload, q.base64) == Ready(m)
    requires ExtraOk(s.sub, m) && IdMatches(s.sub, m, s.id)
    ensures ProposalRead(p, WithProposal(p, s, q, m), log + [Did(cmd)])
  {
    hide ParseTransaction, Deserialize, ExtraOk, IdMatches, Prepared;
    NothingResolved(p, Prepared(s.sub, m), log + [Did(cmd)]);
    hide Resolving;
  }

  // The first three commands are no descriptors.
  lemma NoDescriptorYet(p: Platform, s: Context, log: seq<Event>)
    requires Genuine(p, s, log) && s.state.ProviderChecked?
    ensures forall i :: 0 <= i < |log| ==> !Resolves(p, log[i])
  {
    hide ParsePartner, ShownName;
  }

  lemma SignatureGenuine(p: Platform, s: Context, log: seq<Event>, cmd: Command, dotted: bool, der: Bytes)
    requires Genuine(p, s, log) && s.state.TransactionReceived? && cmd.ins.CheckSignature? && cmd.sub == s.sub
    requires ParseSignature(s.sub, cmd.data) == Some((dotted, der))
    requires Verifies(p, s.partnerKey, if dotted then s.digestDotted else s.digestPlain, der)
    ensures Genuine(p, s.(state := SignatureChecked), log + [Did(cmd)])
  {
    hide PartnerKnown, PartnerVouched, ProposalRead, ProposalSigned, ParseSignature, Verifies;
    var t := s.(state := SignatureChecked);
    PartnerKept(p, s, log, Did(cmd), t);
    ReadKept(p, s, log, Did(cmd), t);
    SignatureTaken(p, s, log, cmd, dotted, der);
  }

  lemma SignatureTaken(p: Platform, s: Context, log: seq<Event>, cmd: Command, dotted: bool, der: Bytes)
    requires |log| == 4 && cmd.ins.CheckSignature? && cmd.sub == s.sub
             && ParseSignature(s.sub, cmd.data) == Some((dotted, der))
    requires Verifies(p, s.partnerKey, if dotted then s.digestDotted else s.digestPlain, der)
    ensures ProposalSigned(p, s.(state := SignatureChecked), log + [Did(cmd)])
  {
    hide ParseSignature, Verifies;
  }

  lemma DescriptorRead(p: Platform, s: Context, log: seq<Event>, cmd: Command, name: Bytes, owner: Bytes)
    requires ProposalRead(p, s, log) && cmd.ins.TrustedName?
    requires var d := p.readDescriptor(cmd.data); d.Descriptor? && d.name == name && d.owner == owner
    ensures ProposalRead(p, s.(shared := Decoded(ResolveNames(MessageIn(s.shared), name, owner).0)), log + [Did(cmd)])
  {
    hide ParseTransaction, Deserialize, ExtraOk, IdMatches, Prepared, ResolveNames;
    var q := ParseTransaction(s.sub, DataAt(log, 3)).value;
    var m := Prepared(s.sub, Deserialize(s.sub, q.payload, q.base64).message);
    assert (log + [Did(cmd)])[..|log|] == log;
    assert Resolving(p, m, log + [Did(cmd)]) == ResolveNames(Resolving(p, m, log), name, owner).0;
    hide Resolving;
  }

  lemma DescriptorGenuine(p: Platform, s: Context, log: seq<Event>, cmd: Command, name: Bytes, owner: Bytes)
    requires Genuine(p, s, log) && s.state.SignatureChecked? && cmd.ins.TrustedName?
    requires var d := p.readDescriptor(cmd.data); d.Descriptor? && d.name == name && d.owner == owner
    ensures Genuine(p, s.(shared := Decoded(ResolveNames(MessageIn(s.shared), name, owner).0)), log + [Did(cmd)])
  {
    hide PartnerKnown, PartnerVouched, ProposalRead, ProposalSigned, ResolveNames;
    var t := s.(shared := Decoded(ResolveNames(MessageIn(s.shared), name, owner).0));
    PartnerKept(p, s, log, Did(cmd), t);
    SignedKept(p, s, log, Did(cmd), t);
    DescriptorRead(p, s, log, cmd, name, owner);
  }

  // --- the order of the rest ---

  // Where the check of the paying side is, behind the payout check of a swap.
  function PayingIndex(sub: Sub, k: nat): nat { if sub.IsSwap() then k + 1 else k }

  predicate PayingAt(log: seq<Event>, j: nat, sub: Sub) {
    j < |log| && log[j].Did? && log[j].command.sub == sub
    && var i := log[j].command.ins;
       if sub.IsSwap() then i.RefundDisplay? || i.RefundNoDisplay? else i.AssetInDisplay? || i.AssetInNoDisplay?
  }

  predicate Displays(log: seq<Event>, j: nat) {
    j < |log| && log[j].Did? && (log[j].command.ins.AssetInDisplay? || log[j].command.ins.RefundDisplay?)
  }

  // The first five events, then trusted names and foreign payout addresses up to k, then the address
  // checks, then the prompt unless a check displays by itself, then the approval.
  predicate Order(s: Context, log: seq<Event>, k: nat) {
    var rank, j := Rank(s.state), PayingIndex(s.sub, k);
    && rank >= 5 && 5 <= k <= |log| && (forall i :: 5 <= i < k ==> Between(log[i], s.sub))
       && (!s.sub.IsSwap() ==> k == 5)
    && (rank == 5 ==> |log| == k)
    && (rank >= 6 && s.sub.IsSwap() ==> DidAt(log, k, CheckPayout, s.sub))
    && (rank == 6 ==> s.sub.IsSwap() && |log| == k + 1)
    && (rank >= 7 ==> PayingAt(log, j, s.sub))
    && (rank == 7 ==> |log| == j + 1 && !Displays(log, j))
    && (rank >= 8 ==> Reviewed(log, j, s.sub, rank))
  }

  predicate Between(e: Event, sub: Sub) {
    (e.Strange? || (e.Did? && e.command.ins.TrustedName?)) && e.command.sub == sub
  }

  predicate Reviewed(log: seq<Event>, j: nat, sub: Sub, rank: nat) {
    var n := if Displays(log, j) then j + 1 else j + 2;
    && (!Displays(log, j) ==> DidAt(log, j + 1, Prompt, sub))
    && (rank == 8 ==> |log| == n)
    && (rank == 9 ==> |log| == n + 1 && log[n].Approved?)
    && rank <= 9
  }

  // What the payout check of a swap established.
  ghost predicate PayoutHolds(p: Platform, s: Context, cmd: Command) {
    var m := MessageIn(s.shared);
    && ReadCheck(p, s.ledgerKey, m, cmd).Readable?
    && var check := ReadCheck(p, s.ledgerKey, m, cmd).check;
    && Stands(AddressVerdict(p, cmd.ins, m, check), s.otherSeed)
    && Shows(p, AppName(check.coin), check.coin.config, Blob(m, AMOUNT_TO_WALLET), false, s.getText)
  }

  // What the check of the paying side established.
  ghost predicate PayingHolds(p: Platform, s: Context, cmd: Command) {
    var m := MessageIn(s.shared);
    && ReadCheck(p, s.ledgerKey, m, cmd).Readable?
    && var check := ReadCheck(p, s.ledgerKey, m, cmd).check;
    && (s.sub.IsSwap() ==> AddressVerdict(p, cmd.ins, m, check).Belongs?)
    && (s.sub.IsSell() ==> FiatAmount(m) == Some(s.getText)) && (s.sub.IsFund() ==> s.getText == AccountName(m))
    && s.payingApp == AppName(check.coin) && s.payingConfig == check.coin.config && s.rate == cmd.rate
    && Shows(p, s.payingApp, s.payingConfig, InAmount(s.sub, m), false, s.sendText)
    && Shows(p, s.payingApp, s.payingConfig, s.fee, true, s.feesText)
  }

  ghost predicate Checked(p: Platform, s: Context, log: seq<Event>, k: nat) {
    && (Rank(s.state) >= 6 && s.sub.IsSwap() ==> PayoutHolds(p, s, CommandAt(log, k)))
    && (Rank(s.state) >= 7 ==> PayingHolds(p, s, CommandAt(log, PayingIndex(s.sub, k))))
    && (Rank(s.state) == 9 ==> log != [] && log[|log| - 1] == Approved(ReviewPairs(p, s)))
  }

  ghost predicate Arranged(p: Platform, s: Context, log: seq<Event>) {
    Rank(s.state) >= 5 ==> exists k: nat :: Order(s, log, k) && Checked(p, s, log, k)
  }

  // The flag is up exactly when some payout address was foreign.
  ghost predicate Flagged(s: Context, log: seq<Event>) {
    s.otherSeed <==> exists i :: 0 <= i < |log| && log[i].Strange?
  }

  /** Everything the history tells of the context. */
  ghost predicate Known(p: Platform, s: Context, log: seq<Event>) {
    Genuine(p, s, log) && Arranged(p, s, log) && Flagged(s, log) && !s.state.Initial? && !s.state.SignFinished?
  }

  lemma FlaggedMore(s: Context, log: seq<Event>, e: Event, t: Context)
    requires Flagged(s, log) && (t.otherSeed <==> s.otherSeed || e.Strange?)
    ensures Flagged(t, log + [e])
  {
    var more := log + [e];
    if e.Strange? { assert more[|log|].Strange?; }
    if s.otherSeed {
      var i :| 0 <= i < |log| && log[i].Strange?;
      assert more[i].Strange?;
    }
  }

  // --- one event at a time ---

  lemma EarlyKnown(p: Platform, s: Context, log: seq<Event>, cmd: Command, t: Context)
    requires Known(p, s, log) && Genuine(p, t, log + [Did(cmd)]) && t.otherSeed == s.otherSeed && 1 <= Rank(t.state) < 5
    ensures Known(p, t, log + [Did(cmd)])
  {
    hide Genuine, Flagged, Order, Checked;
    FlaggedMore(s, log, Did(cmd), t);
  }

  lemma SignatureKnown(p: Platform, s: Context, log: seq<Event>, cmd: Command)
    requires Known(p, s, log) && s.state.TransactionReceived?
             && Genuine(p, s.(state := SignatureChecked), log + [Did(cmd)])
    ensures Known(p, s.(state := SignatureChecked), log + [Did(cmd)])
  {
    hide Genuine, Flagged, Checked, Order;
    var t, more := s.(state := SignatureChecked), log + [Did(cmd)];
    FlaggedMore(s, log, Did(cmd), t);
    FourBefore(p, s, log);
    FirstOrder(t, more);
    NothingChecked(p, t, more, 5);
    ArrangedMore(p, more, 5, t);
  }

  lemma FourBefore(p: Platform, s: Context, log: seq<Event>)
    requires Genuine(p, s, log) && s.state.TransactionReceived?
    ensures |log| == 4
  {
    hide PartnerKnown, PartnerVouched, ProposalRead, ProposalSigned;
  }

  lemma FirstOrder(t: Context, log: seq<Event>)
    requires Rank(t.state) == 5 && |log| == 5
    ensures Order(t, log, 5)
  {
  }

  lemma NothingChecked(p: Platform, t: Context, log: seq<Event>, k: nat)
    requires Rank(t.state) == 5
    ensures Checked(p, t, log, k)
  {
  }

  // Trusted names and foreign payout addresses keep the flow in SIGNATURE_CHECKED.
  lemma BetweenKnown(p: Platform, s: Context, log: seq<Event>, e: Event, t: Context)
    requires Known(p, s, log) && s.state.SignatureChecked? && s.sub.IsSwap() && Between(e, s.sub)
    requires Genuine(p, t, log + [e]) && t.state == s.state && t.sub == s.sub
             && (t.otherSeed <==> s.otherSeed || e.Strange?)
    ensures Known(p, t, log + [e])
  {
    hide Genuine, Flagged, Checked;
    FlaggedMore(s, log, e, t);
    var k: nat :| Order(s, log, k) && Checked(p, s, log, k);
    NothingChecked(p, t, log + [e], k + 1);
    assert Order(t, log + [e], k + 1);
  }

  lemma PayoutKept(p: Platform, s: Context, t: Context, cmd: Command)
    requires PayoutHolds(p, s, cmd) && t.shared == s.shared && t.ledgerKey == s.ledgerKey && t.getText == s.getText
    requires s.otherSeed ==> t.otherSeed
    ensures PayoutHolds(p, t, cmd)
  {
    hide ReadCheck, AddressVerdict, Shows;
  }

  lemma PayingKept(p: Platform, s: Context, t: Context, cmd: Command)
    requires PayingHolds(p, s, cmd) && t == s.(state := t.state)
    ensures PayingHolds(p, t, cmd)
  {
    hide ReadCheck, AddressVerdict, Shows, FiatAmount, AccountName, InAmount;
  }

  lemma PayoutEstablished(p: Platform, s: Context, cmd: Command, t: Context)
    requires PayoutDone(p, s, cmd, t)
    ensures PayoutHolds(p, t, cmd) && SameOrigin(s, t) && t.shared == s.shared && t.state.PayoutChecked?
  {
    hide ReadCheck, AddressVerdict, Shows;
  }

  lemma PayingEstablished(p: Platform, s: Context, cmd: Command, t: Context)
    requires PayingDone(p, s, cmd, t)
    ensures PayingHolds(p, t, cmd) && SameOrigin(s, t) && t.shared == s.shared && t.otherSeed == s.otherSeed
    ensures s.sub.IsSwap() ==> t.getText == s.getText
    ensures t.state == if cmd.ins.AssetInDisplay? || cmd.ins.RefundDisplay? then WaitingUser else AllChecked
  {
    hide ReadCheck, AddressVerdict, Shows, FiatAmount, AccountName, InAmount;
  }

  // The order of the history, one event further.
  lemma OrderMore(s: Context, log: seq<Event>, k: nat, e: Event, t: Context)
    requires Order(s, log, k) && t.sub == s.sub
    requires
      || (s.state.SignatureChecked? && k == |log| && s.sub.IsSwap() && t.state.PayoutChecked?
          && DidAt([e], 0, CheckPayout, s.sub))
      || (PayingAt([e], 0, s.sub) && (if s.sub.IsSwap() then s.state.PayoutChecked? else s.state.SignatureChecked?)
          && t.state == if Displays([e], 0) then WaitingUser else AllChecked)
      || (s.state.AllChecked? && t.state.WaitingUser? && DidAt([e], 0, Prompt, s.sub))
      || (s.state.WaitingUser? && t.state.WaitingSigning? && e.Approved?)
    ensures Order(t, log + [e], k)
  {
    var more := log + [e];
    assert more[|log|] == e && [e][0] == e;
    assert forall i :: 0 <= i < |log| ==> more[i] == log[i];
  }

  lemma CommandKept(log: seq<Event>, e: Event, i: nat)
    requires i < |log|
    ensures CommandAt(log + [e], i) == CommandAt(log, i)
  {
  }

  lemma OrderBounds(s: Context, log: seq<Event>, k: nat)
    requires Order(s, log, k)
    ensures Rank(s.state) == 5 ==> k == |log|
    ensures Rank(s.state) >= 6 && s.sub.IsSwap() ==> k < |log|
    ensures Rank(s.state) == 6 ==> |log| == k + 1
    ensures Rank(s.state) >= 7 ==> PayingIndex(s.sub, k) < |log|
  {
  }

  lemma ArrangedMore(p: Platform, log: seq<Event>, k: nat, t: Context)
    requires Order(t, log, k) && Checked(p, t, log, k)
    ensures Arranged(p, t, log)
  {
  }

  lemma PayoutKnown(p: Platform, s: Context, log: seq<Event>, cmd: Command, t: Context)
    requires Known(p, s, log) && s.state.SignatureChecked? && s.sub.IsSwap() && cmd.sub == s.sub && cmd.ins.CheckPayout?
    requires PayoutDone(p, s, cmd, t) && t.otherSeed == s.otherSeed
    ensures Known(p, t, log + [Did(cmd)])
  {
    hide Genuine, Flagged, PayoutDone, PayoutHolds, PayingHolds, Order;
    PayoutEstablished(p, s, cmd, t);
    KeptGenuine(p, s, log, Did(cmd), t);
    FlaggedMore(s, log, Did(cmd), t);
    var k: nat :| Order(s, log, k) && Checked(p, s, log, k);
    OrderBounds(s, log, k);
    OrderMore(s, log, k, Did(cmd), t);
    ArrangedMore(p, log + [Did(cmd)], k, t);
  }

  lemma PayingKnown(p: Platform, s: Context, log: seq<Event>, cmd: Command, t: Context)
    requires Known(p, s, log) && cmd.sub == s.sub
    requires if s.sub.IsSwap() then s.state.PayoutChecked? && (cmd.ins.RefundDisplay? || cmd.ins.RefundNoDisplay?)
             else s.state.SignatureChecked? && (cmd.ins.AssetInDisplay? || cmd.ins.AssetInNoDisplay?)
    requires PayingDone(p, s, cmd, t)
    ensures Known(p, t, log + [Did(cmd)])
  {
    hide Genuine, Flagged, PayingDone, PayoutHolds, PayingHolds, Order;
    PayingEstablished(p, s, cmd, t);
    KeptGenuine(p, s, log, Did(cmd), t);
    FlaggedMore(s, log, Did(cmd), t);
    var k: nat :| Order(s, log, k) && Checked(p, s, log, k);
    OrderBounds(s, log, k);
    OrderMore(s, log, k, Did(cmd), t);
    if s.sub.IsSwap() {
      PayoutKept(p, s, t, CommandAt(log, k));
      CommandKept(log, Did(cmd), k);
    }
    ArrangedMore(p, log + [Did(cmd)], k, t);
  }

  // The prompt and the approval change nothing but the state.
  lemma CheckedKept(p: Platform, s: Context, log: seq<Event>, k: nat, e: Event, t: Context)
    requires Checked(p, s, log, k) && Order(s, log, k) && 7 <= Rank(s.state) < 9 && 8 <= Rank(t.state) <= 9
             && t == s.(state := t.state)
    requires t.state.WaitingSigning? ==> e == Approved(ReviewPairs(p, t))
    ensures Checked(p, t, log + [e], k)
  {
    hide Order, PayoutHolds, PayingHolds, ReviewPairs;
    OrderBounds(s, log, k);
    var j := PayingIndex(s.sub, k);
    if s.sub.IsSwap() {
      PayoutKept(p, s, t, CommandAt(log, k));
      CommandKept(log, e, k);
    }
    PayingKept(p, s, t, CommandAt(log, j));
    CommandKept(log, e, j);
  }

  lemma PromptKnown(p: Platform, s: Context, log: seq<Event>, cmd: Command)
    requires Known(p, s, log) && s.state.AllChecked? && cmd.ins.Prompt? && cmd.sub == s.sub
    ensures Known(p, s.(state := WaitingUser), log + [Did(cmd)])
  {
    hide Genuine, Flagged, Checked, Order;
    var t := s.(state := WaitingUser);
    KeptGenuine(p, s, log, Did(cmd), t);
    FlaggedMore(s, log, Did(cmd), t);
    var k: nat :| Order(s, log, k) && Checked(p, s, log, k);
    OrderMore(s, log, k, Did(cmd), t);
    CheckedKept(p, s, log, k, Did(cmd), t);
    ArrangedMore(p, log + [Did(cmd)], k, t);
  }

  lemma ApprovedKnown(p: Platform, s: Context, log: seq<Event>)
    requires Known(p, s, log) && s.state.WaitingUser?
    ensures Known(p, s.(state := WaitingSigning), log + [Approved(ReviewPairs(p, s))])
  {
    hide Genuine, Flagged, Checked, Order, ReviewPairs;
    var t, e := s.(state := WaitingSigning), Approved(ReviewPairs(p, s));
    SamePairs(p, s, t);
    KeptGenuine(p, s, log, e, t);
    FlaggedMore(s, log, e, t);
    var k: nat :| Order(s, log, k) && Checked(p, s, log, k);
    OrderMore(s, log, k, e, t);
    CheckedKept(p, s, log, k, e, t);
    ArrangedMore(p, log + [e], k, t);
  }

  lemma SamePairs(p: Platform, s: Context, t: Context)
    requires t == s.(state := t.state)
    ensures ReviewPairs(p, t) == ReviewPairs(p, s)
  {
  }

  // --- whole histories ---

  lemma OpeningKnown(p: Platform, sub: Sub, id: Bytes)
    ensures Known(p, Opening(p, sub, id), [Started(sub, id)])
  {
  }

  lemma CommandKnown(p: Platform, s: Context, log: seq<Event>, cmd: Command)
    requires Known(p, s, log) && Welcome(cmd.ins, cmd.sub, s.state, s.sub) && (SeesForeign(p, s, cmd) ==> s.otherSeed)
    requires Performed(p, s, cmd).Some? && !IsCheck(cmd.ins)
    ensures Known(p, Performed(p, s, cmd).value, log + [Did(cmd)])
  {
    hide Performed, Genuine, Arranged, Flagged, Welcome, ParseTransaction, ParseSignature, Deserialize, ExtraOk,
         IdMatches, ResolveNames;
    WelcomeState(cmd.ins, cmd.sub, s.state, s.sub);
    PerformedAdvances(p, s, cmd);
    if cmd.ins.SetPartner? {
      SetPartnerGenuine(p, s, log, cmd);
      EarlyKnown(p, s, log, cmd, Performed(p, s, cmd).value);
    } else if cmd.ins.CheckPartner? {
      CheckPartnerGenuine(p, s, log, cmd);
      EarlyKnown(p, s, log, cmd, Performed(p, s, cmd).value);
    } else if cmd.ins.Process? {
      ProcessKnown(p, s, log, cmd);
    } else if cmd.ins.CheckSignature? {
      SignatureDone(p, s, cmd);
      SignatureGenuine(p, s, log, cmd, ParseSignature(cmd.sub, cmd.data).value.0,
                       ParseSignature(cmd.sub, cmd.data).value.1);
      SignatureKnown(p, s, log, cmd);
    } else if cmd.ins.TrustedName? {
      DescriptorKnown(p, s, log, cmd);
    } else {
      PromptDone(p, s, cmd);
      PromptKnown(p, s, log, cmd);
    }
  }

  lemma PerformedAdvances(p: Platform, s: Context, cmd: Command)
    requires Performed(p, s, cmd).Some?
    ensures Advances(cmd.ins)
  {
    hide SetPartnerKey, CheckPartnerKey, ProcessTransaction, CheckTransactionSignature, ApplyDescriptor,
         CheckAddressesAndAmounts, RequestOf;
  }

  lemma PromptDone(p: Platform, s: Context, cmd: Command)
    requires cmd.ins.Prompt?
    ensures Performed(p, s, cmd) == Some(s.(state := WaitingUser))
  {
  }

  lemma ProcessKnown(p: Platform, s: Context, log: seq<Event>, cmd: Command)
    requires Known(p, s, log) && s.state.ProviderChecked? && cmd.sub == s.sub && cmd.ins.Process?
             && Performed(p, s, cmd).Some?
    ensures Known(p, Performed(p, s, cmd).value, log + [Did(cmd)])
  {
    hide Genuine, Arranged, Flagged, ParseTransaction, Deserialize, ExtraOk, IdMatches, Prepared;
    ProcessDone(p, s, cmd);
    hide Performed;
    var q := ParseTransaction(cmd.sub, cmd.data).value;
    var m := Deserialize(cmd.sub, q.payload, q.base64).message;
    ProcessGenuine(p, s, log, cmd, q, m);
    EarlyKnown(p, s, log, cmd, WithProposal(p, s, q, m));
  }

  lemma DescriptorKnown(p: Platform, s: Context, log: seq<Event>, cmd: Command)
    requires Known(p, s, log) && s.state.SignatureChecked? && s.sub.IsSwap() && cmd.sub == s.sub
             && cmd.ins.TrustedName? && Performed(p, s, cmd).Some?
    ensures Known(p, Performed(p, s, cmd).value, log + [Did(cmd)])
  {
    hide Genuine, Arranged, Flagged, ResolveNames;
    DescriptorDone(p, s, cmd);
    hide Performed;
    var d := p.readDescriptor(cmd.data);
    var t := s.(shared := Decoded(ResolveNames(MessageIn(s.shared), d.name, d.owner).0));
    DescriptorGenuine(p, s, log, cmd, d.name, d.owner);
    BetweenKnown(p, s, log, Did(cmd), t);
  }

  lemma CheckKnown(p: Platform, s: Context, log: seq<Event>, cmd: Command)
    requires Known(p, s, log) && Welcome(cmd.ins, cmd.sub, s.state, s.sub) && (SeesForeign(p, s, cmd) ==> s.otherSeed)
    requires Performed(p, s, cmd).Some? && IsCheck(cmd.ins)
    ensures Known(p, Performed(p, s, cmd).value, log + [Did(cmd)])
  {
    hide Performed, Known, CheckAddressesAndAmounts, PayoutDone, PayingDone, SeesForeign;
    PerformedCheck(p, s, cmd);
    var t := Performed(p, s, cmd).value;
    if cmd.ins.CheckPayout? {
      PayoutCheckDone(p, s, cmd, t);
      PayoutKnown(p, s, log, cmd, t);
    } else {
      PayingCheckDone(p, s, cmd, t);
      PayingKnown(p, s, log, cmd, t);
    }
  }

  lemma StrangeKnown(p: Platform, s: Context, log: seq<Event>, cmd: Command)
    requires Known(p, s, log) && Welcome(cmd.ins, cmd.sub, s.state, s.sub) && SeesForeign(p, s, cmd)
    ensures Known(p, s.(otherSeed := true), log + [Strange(cmd)])
  {
    hide ReadCheck, AddressVerdict, Genuine, Arranged, Flagged;
    var t := s.(otherSeed := true);
    assert s.state.SignatureChecked?;
    KeptGenuine(p, s, log, Strange(cmd), t);
    BetweenKnown(p, s, log, Strange(cmd), t);
  }

  lemma AfterKnown(p: Platform, s: Context, log: seq<Event>, e: Event)
    requires Known(p, s, log) && After(p, s, e).Some?
    ensures Known(p, After(p, s, e).value, log + [e])
  {
    hide Performed, Known, Welcome, SeesForeign, ReviewPairs;
    match e
    case Started(_, _) =>
    case Did(cmd) => if IsCheck(cmd.ins) { CheckKnown(p, s, log, cmd); } else { CommandKnown(p, s, log, cmd); }
    case Strange(cmd) => StrangeKnown(p, s, log, cmd);
    case Approved(_) => ApprovedKnown(p, s, log);
  }

  /** The replayed context is what the history tells. */
  lemma {:induction false} HistoryKnown(p: Platform, log: seq<Event>)
    requires Replayed(p, log).Some?
    ensures Known(p, Replayed(p, log).value, log)
  {
    hide After, Known;
    if |log| == 1 {
      assert log == [Started(log[0].sub, log[0].id)];
      OpeningKnown(p, log[0].sub, log[0].id);
    } else {
      var n := |log| - 1;
      HistoryKnown(p, log[..n]);
      AfterKnown(p, Replayed(p, log[..n]).value, log[..n], log[n]);
      assert log == log[..n] + [log[n]];
    }
  }
}
