/** The guarantees of the exchange over all runs. */
module FlowTheorems {
  import opened Common
  import opened Commands
  import opened Messages
  import opened Normalize
  import opened Transactions
  import opened Pb
  import opened Flow
  import opened Apdu
  import opened Device
  import opened Replay
  import opened FlowLaws
  import opened TransactionShape

  // --- what a launch tells ---

  lemma HandleLaunch(p: Platform, c: Context, cmd: Command, rng: Random, challenge: Word)
    ensures var r := Handle(p, c, cmd, rng, challenge);
            (r.Launch? <==> cmd.ins.StartSigning?) && (r.Launch? ==> r.request == RequestOf(c, cmd.sub))
  {
    hide AddressStep, ReadCheck, ParsePartner, ParseTransaction, ParseSignature, Deserialize, ResolveNames, RequestOf,
         ShownName, ExtraOk, IdMatches, Prepared;
    if IsCheck(cmd.ins) {
      ChecksHandled(p, c, cmd, rng, challenge);
      CheckLaunch(p, c, cmd);
    }
    hide CheckAddressesAndAmounts;
  }

  lemma CheckLaunch(p: Platform, c: Context, cmd: Command)
    ensures !CheckAddressesAndAmounts(p, c, cmd).Launch?
  {
    hide ReadCheck, ShownText, FiatAmount, AccountName, FiatPrefix, AddressVerdict, AddressOf;
  }

  lemma DispatchLaunch(p: Platform, w: World, cmd: Command, rng: Random, sent: bool, roll: Word, request: Request)
    requires Launched(request) in Dispatch(p, w, cmd, rng, sent, roll).1
    ensures cmd.ins.StartSigning? && request == RequestOf(w.context, cmd.sub)
  {
    hide Handle, RequestOf, Noted, Logged;
    HandleLaunch(p, w.context, cmd, rng, w.challenge);
  }

  lemma OnlyApdusLaunch(p: Platform, w: World, i: Input, request: Request)
    requires Launched(request) in Step(p, w, i).1
    ensures i.Apdu? && Accept(w.rx, w.context.shared, w.context.state, w.context.sub, i.bytes).Complete?
    ensures var r := Accept(w.rx, w.context.shared, w.context.state, w.context.sub, i.bytes);
            var d := w.(rx := r.rx, context := w.context.(shared := r.shared), accepted := w.accepted + [r.chunk]);
            Launched(request) in Dispatch(p, d, r.command, i.rng, i.sent, i.roll).1
  {
    hide Accept, Dispatch;
  }

  /** Nothing is signed but on START_SIGNING_TRANSACTION of the flow in progress, in WAITING_SIGNING, and
      what is signed is in the context. */
  lemma LaunchMeans(p: Platform, w: World, i: Input, request: Request)
    requires Launched(request) in Step(p, w, i).1
    ensures i.Apdu? && w.context.state.WaitingSigning? && request == RequestOf(w.context, w.context.sub)
    ensures var r := Accept(w.rx, w.context.shared, w.context.state, w.context.sub, i.bytes);
            r.Complete? && r.command.ins.StartSigning? && r.command.sub == w.context.sub
  {
    hide Accept, Dispatch, RequestOf, Welcome, Step;
    OnlyApdusLaunch(p, w, i, request);
    var c := w.context;
    AcceptedIsWelcome(w.rx, c.shared, c.state, c.sub, i.bytes);
    var r := Accept(w.rx, c.shared, c.state, c.sub, i.bytes);
    var d := w.(rx := r.rx, context := c.(shared := r.shared), accepted := w.accepted + [r.chunk]);
    DispatchLaunch(p, d, r.command, i.rng, i.sent, i.roll, request);
    WelcomeState(r.command.ins, r.command.sub, c.state, c.sub);
    assert r.shared == c.shared && d.context == c;
  }

  // --- the context of a run ---

  lemma RunKnown(p: Platform, boot: Word, inputs: seq<Input>)
    requires !Run(p, boot, inputs).context.state.Initial?
    ensures var w := Run(p, boot, inputs);
            Replayed(p, w.log).Some? && Agrees(w.context, Replayed(p, w.log).value)
              && Known(p, Replayed(p, w.log).value, w.log)
  {
    RunSound(p, boot, inputs);
    hide Replayed, Run, Known, Agrees;
    HistoryKnown(p, Run(p, boot, inputs).log);
  }

  // The agreement carries the origin over to the context.
  lemma GenuineAgrees(p: Platform, c: Context, s: Context, log: seq<Event>)
    requires Agrees(c, s) && Genuine(p, s, log) && Rank(s.state) >= 4
    ensures Genuine(p, c, log)
  {
    hide ParsePartner, ParseTransaction, ParseSignature, Deserialize, ExtraOk, IdMatches, Prepared, ShownName,
         Resolving;
    assert SameOrigin(s, c) && c.shared == s.shared && c.state == s.state;
    assert PartnerKnown(p, s, log) ==> PartnerKnown(p, c, log);
    assert PartnerVouched(p, s, log) ==> PartnerVouched(p, c, log);
    assert ProposalRead(p, s, log) ==> ProposalRead(p, c, log);
    assert ProposalSigned(p, s, log) ==> ProposalSigned(p, c, log);
    hide PartnerKnown, PartnerVouched, ProposalRead, ProposalSigned;
  }

  /** Authenticated transaction: from SIGNATURE_CHECKED to WAITING_SIGNING, in every run, the context
      holds the transaction of the payload sent fourth, in the exchange's form and with nothing but
      trusted names replaced; the payload carries the issued id and is signed under the key of the
      credentials sent first, which are signed under Ledger's key. */
  lemma AuthenticatedTransaction(p: Platform, boot: Word, inputs: seq<Input>)
    requires 5 <= Rank(Run(p, boot, inputs).context.state) <= 9
    ensures var w := Run(p, boot, inputs);
            var c, log := w.context, w.log;
            && |log| >= 5 && log[0] == Started(c.sub, c.id) && c.ledgerKey == Some(LedgerKey(p))
            && PartnerKnown(p, c, log) && PartnerVouched(p, c, log) && ProposalRead(p, c, log)
               && ProposalSigned(p, c, log)
  {
    var w := Run(p, boot, inputs);
    hide Run;
    RunKnown(p, boot, inputs);
    var s := Replayed(p, w.log).value;
    AgreesBase(w.context, s);
    hide Agrees, Replayed, PartnerKnown, PartnerVouched, ProposalRead, ProposalSigned;
    GenuineAgrees(p, w.context, s, w.log);
  }

  // Trusted names touch the payout and refund addresses only.
  lemma ResolveTouches(m: Message, name: Bytes, owner: Bytes, j: nat)
    ensures var (r, _) := ResolveNames(m, name, owner);
            |r| == |m| && (j < |m| && j != PAYOUT_ADDRESS && j != REFUND_ADDRESS ==> r[j] == m[j])
  {
    hide Resolved, Str;
  }

  /** The transaction in the context differs from the payload's only in those two addresses. */
  lemma {:induction false} ResolvingTouches(p: Platform, m: Message, log: seq<Event>, j: nat)
    ensures |Resolving(p, m, log)| == |m|
    ensures j < |m| && j != PAYOUT_ADDRESS && j != REFUND_ADDRESS ==> Resolving(p, m, log)[j] == m[j]
  {
    if log != [] {
      hide ResolveNames;
      var front, e := log[..|log| - 1], log[|log| - 1];
      ResolvingTouches(p, m, front, j);
      if e.Did? && e.command.ins.TrustedName? {
        match p.readDescriptor(e.command.data)
        case BadDescriptor(_) =>
        case Descriptor(_, _, _, name, owner) => ResolveTouches(Resolving(p, m, front), name, owner, j);
      }
    }
  }

  // --- the shape of the transaction ---

  /** A resolved address is the owner's, ended within a buffer of the same length. */
  lemma ResolvedText(address: Bytes, name: Bytes, owner: Bytes)
    ensures match Resolved(address, name, owner)
            case None => true
            case Some(r) => |r| == |address| && Terminated(r) && CText(r) == CText(owner)
  {
    if |owner| < |address| { TextFront(owner, Zeros(|address| - |owner|)); }
  }

  lemma ResolveAtShaped(t: Table, m: Message, i: nat, name: Bytes, owner: Bytes)
    requires Shaped(t, m)
    ensures Shaped(t, ResolveAt(m, i, name, owner).0)
  {
    var address := Str(m, i);
    hide Resolved, Str, SetStr, Shaped;
    ResolvedText(address, name, owner);
    match Resolved(address, name, owner)
    case None =>
    case Some(r) => SetStrShaped(t, m, i, r);
  }

  lemma {:induction false} ResolvingShaped(p: Platform, t: Table, m: Message, log: seq<Event>)
    requires Shaped(t, m)
    ensures Shaped(t, Resolving(p, m, log))
  {
    if log != [] {
      hide ResolveAt, Shaped;
      var front, e := log[..|log| - 1], log[|log| - 1];
      ResolvingShaped(p, t, m, front);
      if e.Did? && e.command.ins.TrustedName? {
        match p.readDescriptor(e.command.data)
        case BadDescriptor(_) =>
        case Descriptor(_, _, _, name, owner) =>
          var was := Resolving(p, m, front);
          ResolveAtShaped(t, was, PAYOUT_ADDRESS, name, owner);
          ResolveAtShaped(t, ResolveAt(was, PAYOUT_ADDRESS, name, owner).0, REFUND_ADDRESS, name, owner);
      }
    }
  }

  lemma DeserializedShaped(sub: Sub, payload: Bytes, base64: bool)
    ensures match Deserialize(sub, payload, base64)
            case Ready(m) => Shaped(TableOf(sub), m)
            case _ => true
  {
    ProtocolTables.TablesAreWellFormed();
    hide WellFormed, Decode, Conforms, Ended;
    match Plain(payload, base64)
    case None =>
    case Some(d) => if Decode(TableOf(sub), d).Some? { DecodedEnded(TableOf(sub), d); }
  }

  lemma ReadShaped(p: Platform, c: Context, log: seq<Event>)
    requires ProposalRead(p, c, log)
    ensures Shaped(TableOf(c.sub), MessageIn(c.shared))
  {
    hide ParseTransaction, Deserialize, Prepared, Resolving, Shaped, ExtraOk, IdMatches, TableOf;
    var proposal := ParseTransaction(c.sub, DataAt(log, 3)).value;
    var m := Deserialize(c.sub, proposal.payload, proposal.base64).message;
    DeserializedShaped(c.sub, proposal.payload, proposal.base64);
    PreparedShaped(c.sub, m);
    ResolvingShaped(p, TableOf(c.sub), Prepared(c.sub, m), log);
  }

  /** From TRANSACTION_RECEIVED on, in every run, the transaction is a message of its table with every
      text ended inside its buffer; so the refusal of an unterminated address never happens. */
  lemma TransactionShaped(p: Platform, boot: Word, inputs: seq<Input>)
    requires 4 <= Rank(Run(p, boot, inputs).context.state) <= 9
    ensures var c := Run(p, boot, inputs).context;
            && Shaped(TableOf(c.sub), MessageIn(c.shared))
            && (c.sub.IsSwap() ==> Terminated(AddressOf(CheckPayout, MessageIn(c.shared)))
                                   && Terminated(AddressOf(RefundDisplay, MessageIn(c.shared))))
  {
    var w := Run(p, boot, inputs);
    hide Run;
    RunKnown(p, boot, inputs);
    var s := Replayed(p, w.log).value;
    AgreesBase(w.context, s);
    hide Agrees, Replayed, PartnerKnown, PartnerVouched, ProposalRead, ProposalSigned;
    GenuineAgrees(p, w.context, s, w.log);
    hide Shaped, TableOf, Terminated, AddressOf;
    ReadShaped(p, w.context, w.log);
    if w.context.sub.IsSwap() { AddressesEnd(w.context.sub, MessageIn(w.context.shared)); }
  }

  lemma AddressesEnd(sub: Sub, m: Message)
    requires sub.IsSwap() && Shaped(TableOf(sub), m)
    ensures Terminated(AddressOf(CheckPayout, m)) && Terminated(AddressOf(RefundDisplay, m))
  {
    TextAt(sub, m, PAYOUT_ADDRESS);
    TextAt(sub, m, REFUND_ADDRESS);
    hide Shaped, TableOf;
  }

  // --- signing ---

  lemma SigningContext(p: Platform, boot: Word, inputs: seq<Input>)
    requires Run(p, boot, inputs).context.state.WaitingSigning?
    ensures var w := Run(p, boot, inputs); Known(p, w.context, w.log)
  {
    hide Run, Known, Replayed, Agrees;
    var w := Run(p, boot, inputs);
    RunKnown(p, boot, inputs);
    var s := Replayed(p, w.log).value;
    AgreesBase(w.context, s);
    FullAgreement(w.context, s);
  }

  // The events of a flow that is ready for signing, all of one subcommand: the partner's credentials,
  // their check, the proposal, its signature; then trusted names and foreign payout addresses only, in a
  // swap; then the payout and refund checks of a swap, or one asset-in check; then the prompt, unless that
  // check displayed by itself; then the approval. Nothing else, and nothing twice.
  ghost predicate CompleteFlow(log: seq<Event>, sub: Sub, id: Bytes) {
    && |log| >= 5 && log[0] == Started(sub, id)
    && DidAt(log, 1, SetPartner, sub) && DidAt(log, 2, CheckPartner, sub)
    && DidAt(log, 3, Process, sub) && DidAt(log, 4, CheckSignature, sub)
    && exists k: nat :: EndsAt(log, sub, k)
  }

  // The part of a flow behind the transaction's signature, with the address checks at k.
  ghost predicate EndsAt(log: seq<Event>, sub: Sub, k: nat) {
    var j := PayingIndex(sub, k);
    && 5 <= k && (forall n :: 5 <= n < k ==> n < |log| && Between(log[n], sub)) && (!sub.IsSwap() ==> k == 5)
    && (sub.IsSwap() ==> DidAt(log, k, CheckPayout, sub)) && PayingAt(log, j, sub)
    && (if Displays(log, j) then |log| == j + 2 else DidAt(log, j + 1, Prompt, sub) && |log| == j + 3)
    && log[|log| - 1].Approved?
  }

  /** Flow order: in every run, when the signing application is started, the events since the latest
      START_NEW_TRANSACTION make up a complete flow, and START_SIGNING_TRANSACTION has its subcommand. */
  lemma FlowOrder(p: Platform, boot: Word, inputs: seq<Input>, i: Input, request: Request)
    requires Launched(request) in Step(p, Run(p, boot, inputs), i).1
    ensures var w := Run(p, boot, inputs);
            && CompleteFlow(w.log, w.context.sub, w.context.id)
            && i.Apdu?
            && var r := Accept(w.rx, w.context.shared, w.context.state, w.context.sub, i.bytes);
               r.Complete? && r.command.ins.StartSigning? && r.command.sub == w.context.sub
  {
    hide Run, Step, Known, CompleteFlow, Accept;
    var w := Run(p, boot, inputs);
    LaunchMeans(p, w, i, request);
    SigningContext(p, boot, inputs);
    OrderKnown(p, w.context, w.log);
  }

  lemma OrderKnown(p: Platform, c: Context, log: seq<Event>)
    requires Known(p, c, log) && c.state.WaitingSigning?
    ensures CompleteFlow(log, c.sub, c.id)
  {
    FirstFive(p, c, log);
    hide Genuine, Flagged, Checked;
    var k: nat :| Order(c, log, k) && Checked(p, c, log, k);
    EndsHere(c, log, k);
    hide Order, EndsAt, DidAt;
  }

  lemma FirstFive(p: Platform, c: Context, log: seq<Event>)
    requires Genuine(p, c, log) && Rank(c.state) >= 5
    ensures |log| >= 5 && log[0] == Started(c.sub, c.id)
    ensures DidAt(log, 1, SetPartner, c.sub) && DidAt(log, 2, CheckPartner, c.sub)
    ensures DidAt(log, 3, Process, c.sub) && DidAt(log, 4, CheckSignature, c.sub)
  {
    hide ParsePartner, ParseTransaction, ParseSignature, ProposalHeld, Verifies, ShownName, DidAt;
  }

  lemma EndsHere(c: Context, log: seq<Event>, k: nat)
    requires Order(c, log, k) && c.state.WaitingSigning?
    ensures EndsAt(log, c.sub, k)
  {
    hide Between;
  }

  // --- what was shown ---

  const SEND: Bytes := [83, 101, 110, 100]
  const FEES: Bytes := [70, 101, 101, 115]

  lemma AsciiNames()
    ensures Ascii("Send") == SEND && Ascii("Fees") == FEES
  {
  }

  // The review shows this text, and no other, under this name.
  ghost predicate ShowsOnly(review: seq<Pair>, item: Bytes, value: Bytes) {
    Pair(item, value) in review && forall q <- review :: q.item == item ==> q.value == value
  }

  // A name that is neither "Send" nor "Fees".
  predicate OtherName(item: Bytes) { item != SEND && item != FEES }

  lemma OtherNames()
    ensures OtherName(Ascii("Warning")) && OtherName(Ascii("Learn more at")) && OtherName(Ascii("Exchange partner"))
    ensures OtherName(Ascii("Email")) && OtherName(Ascii("User")) && OtherName(Ascii("Receive address"))
    ensures OtherName(Ascii("Receive estimated")) && OtherName(Ascii("Receive"))
  {
    assert Ascii("User")[0] == 85;
  }

  lemma HeadIsOther(p: Platform, c: Context)
    ensures forall q <- ReviewHead(p, c) :: OtherName(q.item)
  {
    OtherNames();
    hide Ascii;
  }

  lemma RestIsOther(c: Context)
    requires c.sub.IsFund() ==> FUND_PREFIX <= c.partnerName
    ensures OtherName(ReviewGet(c).item) && forall q <- ReviewTail(c) :: OtherName(q.item)
  {
    OtherNames();
    hide Ascii;
    assert c.sub.IsFund() ==> c.partnerName[0] == 84;
  }

  lemma ShownAmong(head: seq<Pair>, send: Bytes, got: Pair, fees: Bytes, tail: seq<Pair>)
    requires forall q <- head :: OtherName(q.item)
    requires OtherName(got.item) && forall q <- tail :: OtherName(q.item)
    ensures var review := head + [Pair(SEND, send), got, Pair(FEES, fees)] + tail;
            ShowsOnly(review, SEND, send) && ShowsOnly(review, FEES, fees)
  {
    var review := head + [Pair(SEND, send), got, Pair(FEES, fees)] + tail;
    assert review[|head|] == Pair(SEND, send) && review[|head| + 2] == Pair(FEES, fees);
    assert SEND[0] != FEES[0];
  }

  lemma ReviewShows(p: Platform, c: Context)
    requires c.sub.IsFund() ==> FUND_PREFIX <= c.partnerName
    ensures ShowsOnly(ReviewPairs(p, c), SEND, c.sendText) && ShowsOnly(ReviewPairs(p, c), FEES, c.feesText)
  {
    AsciiNames();
    hide Ascii, ReviewHead, ReviewGet, ReviewTail, OtherName, ShowsOnly;
    HeadIsOther(p, c);
    RestIsOther(c);
    ShownAmong(ReviewHead(p, c), c.sendText, ReviewGet(c), c.feesText, ReviewTail(c));
  }

  // The partner's name in a fund flow starts with "To ".
  lemma FundName(p: Platform, c: Context, log: seq<Event>)
    requires Known(p, c, log) && c.state.WaitingSigning? && c.sub.IsFund()
    ensures FUND_PREFIX <= c.partnerName
  {
    hide Arranged, Flagged, ParsePartner, PartnerVouched, ProposalRead, ProposalSigned;
  }

  // A review that shows, as "Send" and "Fees" and nothing else under these names, the texts the coin
  // application gives for the amount and the fees of a request, under the request's application name and
  // configuration.
  ghost predicate ShowsRequest(p: Platform, review: seq<Pair>, request: Request) {
    exists send, fees ::
      && ShowsOnly(review, SEND, send) && ShowsOnly(review, FEES, fees)
      && Shows(p, request.app, request.config, request.amount, false, send)
      && Shows(p, request.app, request.config, request.fee, true, fees)
  }

  /** What is shown is what is signed: in every run, when the signing application is started, the last
      event is the approval of a review that showed the amount and the fees it is called with. */
  lemma ShownIsSigned(p: Platform, boot: Word, inputs: seq<Input>, i: Input, request: Request)
    requires Launched(request) in Step(p, Run(p, boot, inputs), i).1
    ensures var log := Run(p, boot, inputs).log;
            log != [] && log[|log| - 1].Approved? && ShowsRequest(p, log[|log| - 1].review, request)
  {
    hide Run, Step, Known, ShowsRequest, RequestOf;
    LaunchMeans(p, Run(p, boot, inputs), i, request);
    SigningContext(p, boot, inputs);
    RequestShown(p, Run(p, boot, inputs).context, Run(p, boot, inputs).log);
  }

  lemma RequestShown(p: Platform, c: Context, log: seq<Event>)
    requires Known(p, c, log) && c.state.WaitingSigning?
    ensures log != [] && log[|log| - 1].Approved? && ShowsRequest(p, log[|log| - 1].review, RequestOf(c, c.sub))
  {
    hide Known, ReviewPairs, Shows, ShowsOnly, InAmount, InAddress, InExtra;
    ShownKnown(p, c, log);
    if c.sub.IsFund() { FundName(p, c, log); }
    ReviewShows(p, c);
    var review := log[|log| - 1].review;
    assert ShowsOnly(review, SEND, c.sendText) && ShowsOnly(review, FEES, c.feesText);
  }

  lemma ShownKnown(p: Platform, c: Context, log: seq<Event>)
    requires Known(p, c, log) && c.state.WaitingSigning?
    ensures log != [] && log[|log| - 1] == Approved(ReviewPairs(p, c))
    ensures Shows(p, c.payingApp, c.payingConfig, InAmount(c.sub, MessageIn(c.shared)), false, c.sendText)
    ensures Shows(p, c.payingApp, c.payingConfig, c.fee, true, c.feesText)
  {
    hide Genuine, Flagged, Order, Shows, ReviewPairs, ReadCheck, PayoutHolds;
    var k: nat :| Order(c, log, k) && Checked(p, c, log, k);
  }

  // The transaction and the fees a process command proposes.
  function Proposed(sub: Sub, data: Bytes): Option<(Message, Bytes)> {
    match ParseTransaction(sub, data)
    case None => None
    case Some(proposal) =>
      match Deserialize(sub, proposal.payload, proposal.base64)
      case Ready(m) => Some((m, proposal.fees))
      case _ => None
  }

  // A request that pays what a transaction says: the amount as a number, the fees and the extra id as
  // they are, and the pay-in address, in a swap without its header.
  ghost predicate Pays(request: Request, sub: Sub, m: Message, fees: Bytes) {
    && BigEndian(request.amount) == BigEndian(InAmount(sub, m)) && request.fee == fees
       && request.extra == InExtra(sub, m)
    && request.address == if sub.IsSwap() then CText(Stripped(Str(m, PAYIN_ADDRESS))) else InAddress(sub, m)
  }

  lemma PreparedExtra(sub: Sub, m: Message)
    ensures InExtra(sub, Prepared(sub, m)) == InExtra(sub, m)
  {
    hide Prepared, InExtra, Rewritten;
    var r := Prepared(sub, m);
    PreparedKeeps(sub, m, 0);
    forall j | 0 <= j < |m| && !Rewritten(sub, j)
      ensures r[j] == m[j]
    {
      PreparedKeeps(sub, m, j);
    }
    SameExtra(sub, m, r);
  }

  lemma SameExtra(sub: Sub, m: Message, r: Message)
    requires |r| == |m| && forall j :: 0 <= j < |m| && !Rewritten(sub, j) ==> r[j] == m[j]
    ensures InExtra(sub, r) == InExtra(sub, m)
  {
    hide CText;
    var id := if sub.IsSwap() then PAYIN_EXTRA_ID else if sub.IsSell() then SELL_IN_EXTRA_ID else FUND_IN_EXTRA_ID;
    assert !Rewritten(sub, id);
    assert !Rewritten(sub, PAYIN_EXTRA_DATA);
  }

  // The fields of a swap that a payment is made of are not among the resolvable ones.
  lemma SamePayment(sub: Sub, m: Message, n: Message)
    requires sub.IsSwap() && |n| == |m|
    requires forall j :: 0 <= j < |m| && j != PAYOUT_ADDRESS && j != REFUND_ADDRESS ==> n[j] == m[j]
    ensures InAmount(sub, n) == InAmount(sub, m) && InAddress(sub, n) == InAddress(sub, m)
            && InExtra(sub, n) == InExtra(sub, m)
  {
    hide CText;
  }

  lemma ResolvingPays(p: Platform, sub: Sub, m: Message, log: seq<Event>)
    requires !sub.IsSwap() ==> forall i :: 0 <= i < |log| ==> !Resolves(p, log[i])
    ensures var n := Resolving(p, m, log);
            InAmount(sub, n) == InAmount(sub, m) && InAddress(sub, n) == InAddress(sub, m)
              && InExtra(sub, n) == InExtra(sub, m)
  {
    hide Resolving, InAmount, InAddress, InExtra;
    if sub.IsSwap() {
      var n := Resolving(p, m, log);
      forall j | 0 <= j < |m| && j != PAYOUT_ADDRESS && j != REFUND_ADDRESS
        ensures |n| == |m| && n[j] == m[j]
      {
        ResolvingTouches(p, m, log, j);
      }
      ResolvingTouches(p, m, log, 0);
      SamePayment(sub, m, n);
    } else {
      NothingResolved(p, m, log);
    }
  }

  // No trusted names outside a swap.
  lemma NoNames(p: Platform, log: seq<Event>, sub: Sub, id: Bytes)
    requires CompleteFlow(log, sub, id) && !sub.IsSwap()
    ensures forall i :: 0 <= i < |log| ==> !Resolves(p, log[i])
  {
    var k: nat :| EndsAt(log, sub, k);
    forall i | 0 <= i < |log|
      ensures !Resolves(p, log[i])
    {
      assert i <= 4 || i == k || i == k + 1 || i == |log| - 1;
    }
  }

  /** What is signed is what was proposed: in every run, the request the signing application is started with
      pays what the payload decodes to that came with the process command of the flow. */
  lemma SignedIsProposed(p: Platform, boot: Word, inputs: seq<Input>, i: Input, request: Request)
    requires Launched(request) in Step(p, Run(p, boot, inputs), i).1
    ensures var w := Run(p, boot, inputs);
            var sub := w.context.sub;
            && DidAt(w.log, 3, Process, sub) && Proposed(sub, DataAt(w.log, 3)).Some?
            && var (m, fees) := Proposed(sub, DataAt(w.log, 3)).value; Pays(request, sub, m, fees)
  {
    var w := Run(p, boot, inputs);
    hide Run, Step, Pays, Proposed, RequestOf, PartnerKnown, PartnerVouched, ProposalRead, ProposalSigned,
         CompleteFlow, Resolves, Accept;
    LaunchMeans(p, w, i, request);
    AuthenticatedTransaction(p, boot, inputs);
    FlowOrder(p, boot, inputs, i, request);
    if !w.context.sub.IsSwap() { NoNames(p, w.log, w.context.sub, w.context.id); }
    ReadPays(p, w.context, w.log);
  }

  lemma ReadPays(p: Platform, c: Context, log: seq<Event>)
    requires ProposalRead(p, c, log)
    requires !c.sub.IsSwap() ==> forall i :: 0 <= i < |log| ==> !Resolves(p, log[i])
    ensures DidAt(log, 3, Process, c.sub) && Proposed(c.sub, DataAt(log, 3)).Some?
    ensures var (m, fees) := Proposed(c.sub, DataAt(log, 3)).value; Pays(RequestOf(c, c.sub), c.sub, m, fees)
  {
    hide ParseTransaction, Deserialize, Prepared, Resolving, Shaped, ExtraOk, IdMatches, TableOf, BigEndian, InAmount,
         InAddress, InExtra, Stripped, CText, Str, Resolves;
    var proposal := ParseTransaction(c.sub, DataAt(log, 3)).value;
    var m := Deserialize(c.sub, proposal.payload, proposal.base64).message;
    DeserializedShaped(c.sub, proposal.payload, proposal.base64);
    PreparedTexts(c.sub, m);
    PreparedMeaning(c.sub, m, []);
    PreparedExtra(c.sub, m);
    ResolvingPays(p, c.sub, Prepared(c.sub, m), log);
  }

  // What the address checks at k established of the context: a swap's payout check, and the check of the
  // paying side in every flow.
  ghost predicate ChecksHold(p: Platform, c: Context, log: seq<Event>, k: nat) {
    var j := PayingIndex(c.sub, k);
    && (c.sub.IsSwap() ==> DidAt(log, k, CheckPayout, c.sub) && PayoutHolds(p, c, CommandAt(log, k)))
    && PayingAt(log, j, c.sub) && PayingHolds(p, c, CommandAt(log, j))
  }

  /** Accepted addresses: when the signing application is started, the check of the paying side is in the
      history with a signed configuration for the transaction's currency, whose application and
      sub-configuration sign; in a swap so is the payout check with one for the other currency, and the coin
      applications took the refund address for the device's own, and the payout address unless it was foreign
      and marked. */
  lemma AddressesAccepted(p: Platform, boot: Word, inputs: seq<Input>, i: Input, request: Request)
    requires Launched(request) in Step(p, Run(p, boot, inputs), i).1
    ensures var w := Run(p, boot, inputs);
            && request.app == w.context.payingApp && request.config == w.context.payingConfig
            && exists k: nat :: ChecksHold(p, w.context, w.log, k)
  {
    var w := Run(p, boot, inputs);
    hide ChecksHold;
    LaunchMeans(p, w, i, request);
    SigningContext(p, boot, inputs);
    hide Run, Step;
    AddressesKnown(p, w.context, w.log);
  }

  lemma AddressesKnown(p: Platform, c: Context, log: seq<Event>)
    requires Known(p, c, log) && c.state.WaitingSigning?
    ensures exists k: nat :: ChecksHold(p, c, log, k)
  {
    hide Genuine, Flagged, PayoutHolds, PayingHolds;
    var k: nat :| Order(c, log, k) && Checked(p, c, log, k);
    assert ChecksHold(p, c, log, k);
  }

  /** The warning flag: in every run it is up exactly when a payout address checked since the latest
      START_NEW_TRANSACTION was foreign, whether or not that check went on to succeed. */
  lemma FlagSticks(p: Platform, boot: Word, inputs: seq<Input>)
    requires !Run(p, boot, inputs).context.state.Initial?
    ensures var w := Run(p, boot, inputs);
            w.context.otherSeed <==> exists i :: 0 <= i < |w.log| && w.log[i].Strange?
  {
    hide Run, Genuine, Arranged, Replayed, Agrees;
    RunKnown(p, boot, inputs);
    AgreesBase(Run(p, boot, inputs).context, Replayed(p, Run(p, boot, inputs).log).value);
  }

  // What the receiving application says of the payout address in the context.
  function PayoutVerdict(p: Platform, c: Context, cmd: Command): Option<Verdict> {
    var m := MessageIn(c.shared);
    match ReadCheck(p, c.ledgerKey, m, cmd)
    case Refused(_) => None
    case Readable(check) => Some(AddressVerdict(p, cmd.ins, m, check))
  }

  // A payout address was foreign before the event at k.
  predicate StrangeBefore(log: seq<Event>, k: nat) { exists i :: 0 <= i < k && i < |log| && log[i].Strange? }

  // The flow's payout check, at k and nowhere else, and when the mark does not tell its verdict.
  ghost predicate MarkTells(p: Platform, c: Context, log: seq<Event>, k: nat) {
    var verdict := PayoutVerdict(p, c, CommandAt(log, k));
    && (forall j: nat :: DidAt(log, j, CheckPayout, c.sub) <==> j == k)
    && (verdict == Some(Belongs) || verdict == Some(Foreign))
    && ((c.otherSeed <==> verdict == Some(Foreign)) <==> !(verdict == Some(Belongs) && StrangeBefore(log, k)))
  }

  /** When the mark misleads: in every run, when a swap is signed, the mark differs from the verdict on the
      address that was checked exactly if that address is the device's own and an attempt before the check
      was about a foreign one. */
  lemma MarkMisleads(p: Platform, boot: Word, inputs: seq<Input>, i: Input, request: Request)
    requires Launched(request) in Step(p, Run(p, boot, inputs), i).1 && Run(p, boot, inputs).context.sub.IsSwap()
    ensures var w := Run(p, boot, inputs); exists k: nat :: MarkTells(p, w.context, w.log, k)
  {
    var w := Run(p, boot, inputs);
    LaunchMeans(p, w, i, request);
    SigningContext(p, boot, inputs);
    hide Run, Step;
    MarkKnown(p, w.context, w.log);
  }

  lemma MarkKnown(p: Platform, c: Context, log: seq<Event>)
    requires Known(p, c, log) && c.state.WaitingSigning? && c.sub.IsSwap()
    ensures exists k: nat :: MarkTells(p, c, log, k)
  {
    FirstFive(p, c, log);
    hide Genuine, Checked, Order, Flagged, DidAt, MarkTells;
    var k: nat :| Order(c, log, k) && Checked(p, c, log, k);
    PayoutCheckOnce(c, log, k);
    MarkAt(p, c, log, k);
  }

  lemma MarkAt(p: Platform, c: Context, log: seq<Event>, k: nat)
    requires Checked(p, c, log, k) && c.state.WaitingSigning? && c.sub.IsSwap() && Flagged(c, log)
    requires forall i :: 0 <= i < |log| && log[i].Strange? ==> i < k
    requires forall j: nat :: DidAt(log, j, CheckPayout, c.sub) <==> j == k
    ensures MarkTells(p, c, log, k)
  {
    hide DidAt, PayoutHolds, PayingHolds, PayoutVerdict;
    VerdictStands(p, c, CommandAt(log, k));
    assert StrangeBefore(log, k) <==> c.otherSeed;
  }

  lemma VerdictStands(p: Platform, c: Context, cmd: Command)
    requires PayoutHolds(p, c, cmd)
    ensures var v := PayoutVerdict(p, c, cmd); v == Some(Belongs) || (v == Some(Foreign) && c.otherSeed)
  {
    hide ReadCheck, AddressVerdict, Shows;
  }

  // Foreign attempts come before the payout check, and there is one such check.
  lemma PayoutCheckOnce(c: Context, log: seq<Event>, k: nat)
    requires Order(c, log, k) && c.state.WaitingSigning? && c.sub.IsSwap() && |log| >= 5 && log[0].Started?
    requires DidAt(log, 1, SetPartner, c.sub) && DidAt(log, 2, CheckPartner, c.sub)
    requires DidAt(log, 3, Process, c.sub) && DidAt(log, 4, CheckSignature, c.sub)
    ensures forall i :: 0 <= i < |log| && log[i].Strange? ==> i < k
    ensures forall j: nat :: DidAt(log, j, CheckPayout, c.sub) <==> j == k
  {
    forall i | k <= i < |log|
      ensures !log[i].Strange? && (i > k ==> !DidAt(log, i, CheckPayout, c.sub))
    {
      assert i == k || i == k + 1 || i == k + 2 || i == |log| - 1;
    }
  }

  // --- the shared buffer ---

  // Nothing but the two resolvable addresses differs.
  ghost predicate OnlyAddresses(a: Shared, b: Shared) {
    var m, n := MessageIn(a), MessageIn(b);
    |n| == |m| && forall j :: 0 <= j < |m| && j != PAYOUT_ADDRESS && j != REFUND_ADDRESS ==> n[j] == m[j]
  }

  // What a command may do to the shared buffer once a transaction is in it.
  ghost predicate SparesShared(c: Context, cmd: Command, r: Result) {
    match r
    case Reply(t, _, _) =>
      t.shared == c.shared || cmd.ins.StartNew? || (cmd.ins.TrustedName? && OnlyAddresses(c.shared, t.shared))
    case Display(t) => t.shared == c.shared
    case Missing(t) => t.shared == c.shared
    case Launch(_) => true
  }

  lemma DescriptorSpares(p: Platform, c: Context, cmd: Command, challenge: Word)
    ensures var r := ApplyDescriptor(p, c, cmd, challenge);
            r.Reply? && (r.context.shared == c.shared || OnlyAddresses(c.shared, r.context.shared))
  {
    var d := p.readDescriptor(cmd.data);
    if d.Descriptor? {
      var m := MessageIn(c.shared);
      forall j: nat | true
        ensures var (r, _) := ResolveNames(m, d.name, d.owner);
                |r| == |m| && (j < |m| && j != PAYOUT_ADDRESS && j != REFUND_ADDRESS ==> r[j] == m[j])
      {
        ResolveTouches(m, d.name, d.owner, j);
      }
    }
    hide ResolveNames;
  }

  lemma HandleSpares(p: Platform, c: Context, cmd: Command, rng: Random, challenge: Word)
    requires 4 <= Rank(c.state) <= 9 && Welcome(cmd.ins, cmd.sub, c.state, c.sub)
    ensures SparesShared(c, cmd, Handle(p, c, cmd, rng, challenge))
  {
    hide CheckAddressesAndAmounts, ApplyDescriptor, ParseSignature, OnlyAddresses, RequestOf;
    if IsCheck(cmd.ins) {
      CheckOnward(p, c, cmd);
      ChecksHandled(p, c, cmd, rng, challenge);
    } else if cmd.ins.TrustedName? {
      DescriptorSpares(p, c, cmd, challenge);
    }
  }

  lemma DispatchSpares(p: Platform, w: World, cmd: Command, rng: Random, sent: bool, roll: Word)
    requires 4 <= Rank(w.context.state) <= 9 && Welcome(cmd.ins, cmd.sub, w.context.state, w.context.sub)
    ensures var t := Dispatch(p, w, cmd, rng, sent, roll).0.context;
            || t.shared == w.context.shared || t.state.Initial? || cmd.ins.StartNew?
            || (cmd.ins.TrustedName? && OnlyAddresses(w.context.shared, t.shared))
  {
    HandleSpares(p, w.context, cmd, rng, w.challenge);
    hide Handle, Welcome, Logged, Noted, Prompted, OnlyAddresses, Rank;
  }

  /** The shared buffer is safe: once the transaction has been received, no input of any kind changes it,
      unless it clears the context or starts a new flow, but a trusted name in SIGNATURE_CHECKED, which
      replaces the payout and refund addresses only. */
  lemma SharedBufferSafe(p: Platform, w: World, i: Input)
    requires 4 <= Rank(w.context.state) <= 9
    ensures var t := Step(p, w, i).0.context;
            || t.shared == w.context.shared || t.state.Initial? || Delivers(w, i, StartNew)
            || (w.context.state.SignatureChecked? && Delivers(w, i, TrustedName)
                && OnlyAddresses(w.context.shared, t.shared))
  {
    hide Accept, Dispatch, OnlyAddresses, Welcome;
    var c := w.context;
    if i.Apdu? {
      AcceptedIsWelcome(w.rx, c.shared, c.state, c.sub, i.bytes);
      match Accept(w.rx, c.shared, c.state, c.sub, i.bytes) {
        case Complete(rx, shared, chunk, cmd) =>
          assert shared == c.shared && c.(shared := shared) == c;
          WelcomeState(cmd.ins, cmd.sub, c.state, c.sub);
          DispatchSpares(p, w.(rx := rx, context := c, accepted := w.accepted + [chunk]), cmd, i.rng, i.sent, i.roll);
        case _ =>
      }
    }
  }

  // The input completes a command of this instruction.
  predicate Delivers(w: World, i: Input, ins: Ins) {
    i.Apdu? && match Accept(w.rx, w.context.shared, w.context.state, w.context.sub, i.bytes)
               case Complete(_, _, _, cmd) => cmd.ins == ins
               case _ => false
  }

  // --- a missing application ---

  // Nothing but the mark and the texts of the review differs.
  predicate OnlyTexts(c: Context, t: Context) {
    t == c.(otherSeed := t.otherSeed, getText := t.getText, sendText := t.sendText, feesText := t.feesText)
  }

  lemma ChecksMissing(p: Platform, c: Context, cmd: Command)
    ensures var r := CheckAddressesAndAmounts(p, c, cmd); r.Missing? ==> OnlyTexts(c, r.context)
  {
    hide ReadCheck, AddressVerdict, AmountStep, Terminated, AddressOf;
    match ReadCheck(p, c.ledgerKey, MessageIn(c.shared), cmd)
    case Refused(_) =>
    case Readable(check) =>
      AmountMissing(p, c, cmd, check);
      AmountMissing(p, c.(otherSeed := true), cmd, check);
  }

  lemma AmountMissing(p: Platform, c: Context, cmd: Command, check: Check)
    ensures var r := AmountStep(p, c, cmd, check); r.Missing? ==> OnlyTexts(c, r.context)
  {
    hide ShownText, ExtrasStep, AppName;
    NeverMissing(c, cmd, check);
    forall t: Bytes, u: Bytes | true
      ensures !ExtrasStep(c.(getText := t), cmd, check).Missing?
      ensures !ExtrasStep(c.(sendText := t, feesText := u), cmd, check).Missing?
      ensures !ExtrasStep(c.(getText := t, feesText := u), cmd, check).Missing?
    {
      NeverMissing(c.(getText := t), cmd, check);
      NeverMissing(c.(sendText := t, feesText := u), cmd, check);
      NeverMissing(c.(getText := t, feesText := u), cmd, check);
    }
  }

  lemma NeverMissing(c: Context, cmd: Command, check: Check)
    ensures !ExtrasStep(c, cmd, check).Missing?
  {
    hide FiatAmount, AccountName, FiatPrefix;
  }

  // The command an input delivers finds an application missing.
  predicate MeetsMissing(p: Platform, w: World, i: Input) {
    i.Apdu? && match Accept(w.rx, w.context.shared, w.context.state, w.context.sub, i.bytes)
               case Complete(_, shared, _, cmd) =>
                 Handle(p, w.context.(shared := shared), cmd, i.rng, w.challenge).Missing?
               case _ => false
  }

  /** A missing application resets nothing: whatever the command that met it, the reply says so, the screen is
      idle, and of the context at most the mark and the texts of the review have changed; state, transaction,
      keys, fees and the paying application stay, so that the flow goes on. */
  lemma MissingKeeps(p: Platform, w: World, i: Input)
    requires MeetsMissing(p, w, i)
    ensures var (v, out) := Step(p, w, i);
            && OnlyTexts(w.context, v.context) && v.ui.Idle? && out == [Replied(APPLICATION_NOT_INSTALLED, [])]
            && (w.context.state.SignatureChecked? || w.context.state.PayoutChecked?) && v.context != ZERO
  {
    hide Accept, Welcome, Noted, CheckAddressesAndAmounts, ApplyDescriptor, ProcessTransaction, SetPartnerKey,
         CheckPartnerKey, CheckTransactionSignature, StartNewTransaction, RequestOf;
    var c := w.context;
    AcceptedIsWelcome(w.rx, c.shared, c.state, c.sub, i.bytes);
    var r := Accept(w.rx, c.shared, c.state, c.sub, i.bytes);
    assert c.(shared := c.shared) == c;
    MissingIsCheck(p, c.(shared := r.shared), r.command, i.rng, w.challenge);
    WelcomeState(r.command.ins, r.command.sub, c.state, c.sub);
    ChecksMissing(p, c, r.command);
  }

  lemma MissingIsCheck(p: Platform, c: Context, cmd: Command, rng: Random, challenge: Word)
    ensures Handle(p, c, cmd, rng, challenge).Missing? ==> IsCheck(cmd.ins)
  {
    hide CheckAddressesAndAmounts, ParsePartner, ParseTransaction, ParseSignature, Deserialize, ResolveNames,
         RequestOf, ShownName, ExtraOk, IdMatches, Prepared;
  }

  // --- the challenge and the version ---

  lemma ChallengeBytes(challenge: Word)
    ensures var d := GetChallengeReply(ZERO, challenge).data; |d| == 4 && BigEndian(d) == challenge
  {
    var d := GetChallengeReply(ZERO, challenge).data;
    FourBytes(d[0], d[1], d[2], d[3]);
    assert d == [d[0], d[1], d[2], d[3]];
    hide BigEndian;
    FourDigits(challenge);
  }

  lemma FourDigits(x: nat)
    ensures ((x / 0x100_0000 * 256 + x / 0x1_0000 % 256) * 256 + x / 0x100 % 256) * 256 + x % 256 == x
  {
    var a := x / 0x100;
    var b := a / 0x100;
    assert b == x / 0x1_0000 && b / 0x100 == x / 0x100_0000;
  }

  lemma FourBytes(a: byte, b: byte, c: byte, d: byte)
    ensures BigEndian([a, b, c, d]) == ((a as int * 256 + b) * 256 + c) * 256 + d
  {
    OneByte([], a);
    OneByte([a], b);
    OneByte([a, b], c);
    OneByte([a, b, c], d);
    assert [] + [a] == [a] && [a] + [b] == [a, b] && [a, b] + [c] == [a, b, c] && [a, b, c] + [d] == [a, b, c, d];
    assert BigEndian([]) == 0;
    hide BigEndian;
  }

  lemma OneByte(s: Bytes, x: byte)
    ensures BigEndian(s + [x]) == BigEndian(s) * 256 + x
  {
    assert (s + [x])[..|s|] == s;
  }

  /** GET_CHALLENGE tells the challenge, in four bytes, and changes neither context nor screen nor
      challenge. */
  lemma ChallengeTold(p: Platform, w: World, i: Input)
    requires Delivers(w, i, GetChallenge) && i.sent
    ensures var (v, out) := Step(p, w, i);
            && v.context == w.context && v.ui == w.ui && v.challenge == w.challenge && v.log == w.log
            && |out| == 1 && out[0].Replied? && out[0].status == SUCCESS
            && |out[0].data| == 4 && BigEndian(out[0].data) == w.challenge
  {
    ChallengeBytes(w.challenge);
    AcceptedIsWelcome(w.rx, w.context.shared, w.context.state, w.context.sub, i.bytes);
    hide Accept, BigEndian, Noted, Welcome;
  }

  // The input completes a trusted-name command that is answered and changes the context.
  predicate TakesEffect(p: Platform, w: World, i: Input) {
    Delivers(w, i, TrustedName) && i.sent && Step(p, w, i).0.context != w.context
  }

  function DescriptorIn(p: Platform, w: World, i: Input): Descriptor
    requires Delivers(w, i, TrustedName)
  {
    p.readDescriptor(Accept(w.rx, w.context.shared, w.context.state, w.context.sub, i.bytes).command.data)
  }

  /** A descriptor takes effect only if it carries that challenge and is of the right type and source; and
      the challenge is drawn anew with every descriptor, whatever becomes of it. */
  lemma ChallengeAsked(p: Platform, w: World, i: Input)
    requires Delivers(w, i, TrustedName)
    ensures Step(p, w, i).0.challenge == i.roll
    ensures TakesEffect(p, w, i) ==>
              var d := DescriptorIn(p, w, i);
              d.Descriptor? && d.challenge == Some(w.challenge) && d.contextAddress && d.dynamicResolver
  {
    hide Accept, Noted, Welcome, ResolveNames, Logged;
    AcceptedIsWelcome(w.rx, w.context.shared, w.context.state, w.context.sub, i.bytes);
  }

  // The challenge an input brings, if it is used.
  function RollOf(i: Input): Option<Word> {
    match i
    case Apdu(_, _, _, roll) => Some(roll)
    case ReceptionFailed(roll) => Some(roll)
    case IoReset(roll) => Some(roll)
    case WarningChoice(_) => None
    case ReviewChoice(_) => None
  }

  lemma StepDraws(p: Platform, w: World, i: Input)
    ensures Step(p, w, i).0.challenge == w.challenge || RollOf(i) == Some(Step(p, w, i).0.challenge)
  {
    hide Accept, Handle, Logged, Noted, Prompted;
  }

  /** The challenge changes to drawn ones only. */
  lemma {:induction false} ChallengeDrawn(p: Platform, boot: Word, inputs: seq<Input>, more: seq<Input>)
    ensures var x := Run(p, boot, inputs + more).challenge;
            x == Run(p, boot, inputs).challenge || exists k :: 0 <= k < |more| && RollOf(more[k]) == Some(x)
  {
    hide Step;
    if more == [] {
      assert inputs + more == inputs;
    } else {
      var front, i := more[..|more| - 1], more[|more| - 1];
      assert (inputs + more)[..|inputs + more| - 1] == inputs + front;
      ChallengeDrawn(p, boot, inputs, front);
      StepDraws(p, Run(p, boot, inputs + front), i);
      assert forall k :: 0 <= k < |front| ==> more[k] == front[k];
    }
  }

  /** A descriptor serves once for each time its challenge is drawn: in every run, after one has been sent,
      another one takes effect only if the challenge it carries was drawn since. */
  lemma DescriptorServesOnce(p: Platform, boot: Word, inputs: seq<Input>, i: Input, more: seq<Input>, again: Input)
    requires Delivers(Run(p, boot, inputs), i, TrustedName) && TakesEffect(p, Run(p, boot, inputs + [i] + more), again)
    ensures var d := DescriptorIn(p, Run(p, boot, inputs + [i] + more), again);
            && d.Descriptor? && d.challenge.Some?
            && exists k :: 0 <= k <= |more| && RollOf(([i] + more)[k]) == Some(d.challenge.value)
  {
    hide Step, Run, TakesEffect, Delivers, DescriptorIn;
    var since := [i] + more;
    DrawnBy(p, boot, inputs, i);
    ChallengeDrawn(p, boot, inputs + [i], more);
    DescriptorCarries(p, Run(p, boot, inputs + [i] + more), again);
    assert since[0] == i && forall k :: 0 <= k < |more| ==> since[k + 1] == more[k];
  }

  lemma DrawnBy(p: Platform, boot: Word, inputs: seq<Input>, i: Input)
    requires Delivers(Run(p, boot, inputs), i, TrustedName)
    ensures RollOf(i) == Some(Run(p, boot, inputs + [i]).challenge)
  {
    hide Step;
    assert (inputs + [i])[..|inputs|] == inputs;
    ChallengeAsked(p, Run(p, boot, inputs), i);
  }

  lemma DescriptorCarries(p: Platform, w: World, i: Input)
    requires TakesEffect(p, w, i)
    ensures Delivers(w, i, TrustedName)
    ensures var d := DescriptorIn(p, w, i); d.Descriptor? && d.challenge == Some(w.challenge)
  {
    hide Step, Accept;
    ChallengeAsked(p, w, i);
  }

  /** GET_VERSION is answered, whatever data comes with it and with nothing else changed, in every state but
      those that wait for the user and for the signing, whatever the flow, and in those it is refused. */
  lemma VersionExactly(p: Platform, w: World, i: Input, rate: byte, sub: Sub, data: Bytes)
    requires i.Apdu? && i.sent && rate <= 1 && |data| <= 255
             && i.bytes == [0xE0, 0x02, rate, SubCode(sub), |data|] + data
    ensures var (v, out) := Step(p, w, i);
            if w.context.state.WaitingUser? || w.context.state.WaitingSigning?
            then v == w && out == [Replied(UNEXPECTED_INSTRUCTION, [])]
            else v == w.(rx := v.rx, accepted := v.accepted) && out == [Replied(SUCCESS, p.version)]
  {
    hide ReadHeader, Noted;
    VersionHeader(rate, sub, w.context.state, w.context.sub, data);
  }

  lemma VersionHeader(rate: byte, sub: Sub, state: State, flow: Sub, data: Bytes)
    requires rate <= 1 && |data| <= 255
    ensures ReadHeader([0xE0, 0x02, rate, SubCode(sub), |data|] + data, state, flow) ==
            if state.WaitingUser? || state.WaitingSigning? then BadHeader(UNEXPECTED_INSTRUCTION)
            else GoodHeader(Header(GetVersion, rate, sub, true, true))
  {
    hide InsOf, SubOf, SubCode, InstructionStatus;
    VersionCodes(sub, state, flow);
    var code := SubCode(sub);
    var apdu := [0xE0, 0x02, rate, code, |data|] + data;
    assert |apdu| == 5 + |data| && apdu[3] == code && code % 16 == code && code / 16 == 0;
  }

  lemma VersionCodes(sub: Sub, state: State, flow: Sub)
    ensures SubOf(SubCode(sub)) == Some(sub) && SubCode(sub) < 16 && InsOf(0x02) == Some(GetVersion)
    ensures InstructionStatus(0x02, sub, state, flow) ==
            if state.WaitingUser? || state.WaitingSigning? then UNEXPECTED_INSTRUCTION else 0
  {
  }

  // --- the warning in front of the review ---

  /** On a large screen, what comes on the screen for a foreign payout address is the warning, and the review
      comes behind it only when the user goes on. */
  lemma WarnedFirst(p: Platform, w: World, i: Input)
    ensures var v := Step(p, w, i).0;
            && (v.ui.WarningShown? && v.ui != w.ui ==> i.Apdu? && p.wallet && v.context.otherSeed)
            && (v.ui.ReviewShown? && v.ui != w.ui ==>
                  (i == WarningChoice(true) && w.ui == WarningShown(v.ui.pairs))
                    || (i.Apdu? && !(p.wallet && v.context.otherSeed)))
  {
    hide Accept, Handle, Logged, Noted, ReviewPairs;
  }

  // The user has gone on behind a warning at k, with this review.
  ghost predicate WentOn(p: Platform, boot: Word, inputs: seq<Input>, k: nat, pairs: seq<Pair>) {
    k < |inputs| && inputs[k] == WarningChoice(true) && Run(p, boot, inputs[..k]).ui == WarningShown(pairs)
  }

  /** So in every run on a large screen, the review of a swap with a foreign payout address is on the screen only
      after a warning the user went on behind. */
  lemma {:induction false} WarningFirst(p: Platform, boot: Word, inputs: seq<Input>)
    requires p.wallet
    ensures var w := Run(p, boot, inputs);
            w.ui.ReviewShown? && w.context.otherSeed ==> exists k: nat :: WentOn(p, boot, inputs, k, w.ui.pairs)
  {
    hide Step;
    var w := Run(p, boot, inputs);
    if inputs != [] && w.ui.ReviewShown? && w.context.otherSeed {
      var n := |inputs| - 1;
      var front, i := inputs[..n], inputs[n];
      var was := Run(p, boot, front);
      WarningFirst(p, boot, front);
      WarnedFirst(p, was, i);
      if was.ui == w.ui {
        RunSound(p, boot, front);
        ReviewKeepsMark(p, was, i);
        var k: nat :| WentOn(p, boot, front, k, w.ui.pairs);
        assert front[..k] == inputs[..k];
        assert WentOn(p, boot, inputs, k, w.ui.pairs);
      } else {
        assert WentOn(p, boot, inputs, n, w.ui.pairs);
      }
    }
  }

  // Nothing sets the mark while a review is on the screen.
  lemma ReviewKeepsMark(p: Platform, w: World, i: Input)
    requires Sound(p, w) && w.ui.ReviewShown?
    ensures Step(p, w, i).0.context.otherSeed ==> w.context.otherSeed
  {
    hide Accept, Dispatch, Traced;
    if i.Apdu? { NothingAccepted(w.rx, w.context.shared, w.context.sub, i.bytes); }
  }

  /** What the user's answers do: an approval is answered with a success, waits for the signing and is kept in
      the history with the review; a refusal is answered with its status and ends the flow, and that of a swap
      with a foreign address has a status of its own, at the warning of a large screen or in the review of a
      small one. */
  lemma AnswersTold(p: Platform, w: World, confirm: bool)
    ensures w.ui.ReviewShown? && confirm ==>
              Step(p, w, ReviewChoice(true)) == (w.(context := w.context.(state := WaitingSigning), ui := Idle,
                                                    log := w.log + [Approved(w.ui.pairs)]), [Replied(0x9000, [])])
    ensures (w.ui.ReviewShown? && !confirm) || (w.ui.WarningShown? && !confirm) ==>
              var i := if w.ui.ReviewShown? then ReviewChoice(false) else WarningChoice(false);
              var foreign := w.ui.WarningShown? || (w.context.otherSeed && !p.wallet);
              Step(p, w, i) == (w.(context := w.context.(state := Initial), ui := Idle, log := []),
                                [Replied(if foreign then 0x6A92 else 0x6A84, [])])
  {
    hide Accept, Dispatch;
  }

  // The status words with which a proposal, a signature, the credentials or a descriptor are refused.
  predicate Refuses(r: Result, status: nat) { r.Reply? && r.status == status }

  /** Refusals of the commands up to the signature, first reason first. */
  lemma RefusalsTold(p: Platform, c: Context, cmd: Command, rng: Random, challenge: Word)
    ensures var r := Handle(p, c, cmd, rng, challenge);
            match cmd.ins
            case SetPartner =>
              var partner := ParsePartner(cmd.sub, cmd.data);
              if partner.None? then Refuses(r, 0x6A80)
              else !p.validKey(Key(partner.value.curve, partner.value.key)) ==> Refuses(r, 0x6A85)
            case CheckPartner =>
              if |cmd.data| < 67 || |cmd.data| > 73 then Refuses(r, 0x6A80)
              else !Verifies(p, c.ledgerKey, c.digestPlain, cmd.data) ==> Refuses(r, 0x9D1A)
            case Process =>
              var q := ParseTransaction(cmd.sub, cmd.data);
              if q.None? then Refuses(r, 0x6A80)
              else
                var d := Deserialize(cmd.sub, q.value.payload, q.value.base64);
                if !d.Ready? then Refuses(r, 0x6A81)
                else if !ExtraOk(cmd.sub, d.message) then Refuses(r, 0x6A8D)
                else !IdMatches(cmd.sub, d.message, c.id) ==> Refuses(r, 0x6A82)
            case CheckSignature =>
              var s := ParseSignature(cmd.sub, cmd.data);
              if s.None? then Refuses(r, 0x6A80)
              else !Verifies(p, c.partnerKey, if s.value.0 then c.digestDotted else c.digestPlain, s.value.1) ==>
                     Refuses(r, 0x9D1A)
            case TrustedName =>
              var d := p.readDescriptor(cmd.data);
              c.sub.IsSwap() ==>
                if d.BadDescriptor? then Refuses(r, 0x6A91) && r.data == d.code
                else if d.challenge.None? then Refuses(r, 0x6A90)
                else if d.challenge.value != challenge then Refuses(r, 0x6A8E)
                else if !d.contextAddress || !d.dynamicResolver then Refuses(r, 0x6A8F)
                else !ResolveNames(MessageIn(c.shared), d.name, d.owner).1 ==> Refuses(r, 0x6D02)
            case _ => true
  {
    hide ParsePartner, ParseTransaction, ParseSignature, Deserialize, ExtraOk, IdMatches, ResolveNames, Prepared,
         ShownName, CheckAddressesAndAmounts, StartNewTransaction, RequestOf;
  }

  /** And of the checks: the configuration, the refund address, and texts an application does not give. */
  lemma CheckRefusalsTold(p: Platform, c: Context, cmd: Command)
    ensures var r, m := CheckAddressesAndAmounts(p, c, cmd), MessageIn(c.shared);
            match ParseAddressMessage(cmd.data)
            case None => Refuses(r, 0x6A80)
            case Some(a) =>
              if !Verifies(p, c.ledgerKey, p.sha256(a.config), a.der) then Refuses(r, 0x9D1A)
              else match ParseCoinConfig(a.config)
                   case None => Refuses(r, 0x6A80)
                   case Some(coin) =>
                     if CText(CurrencyOf(cmd, m)) != KnownAs(CText(coin.ticker)) then Refuses(r, 0x6A80)
                     else if !c.sub.IsSwap() || !Terminated(AddressOf(cmd.ins, m)) then true
                     else
                       var verdict := AddressVerdict(p, cmd.ins, m, Check(coin, a.parameters));
                       var text := p.format(AppName(coin), coin.config, AmountOf(c.sub, cmd.ins, m), false);
                       if verdict.Foreign? && !cmd.ins.CheckPayout? then Refuses(r, 0x6A83)
                       else
                         !verdict.CheckerMissing? && text.Formatted? && ShownText(text.text).None? ==>
                           Refuses(r, 0x6A8B)
  {
    hide ParseAddressMessage, ParseCoinConfig, CurrencyOf, CText, KnownAs, AddressVerdict, Terminated, AddressOf,
         AmountOf, ShownText, FeesStep, AppName, Verifies;
  }

  // --- a review cut short ---

  // The state waits for the user, and no screen asks.
  predicate Stranded(w: World) { w.context.state.WaitingUser? && w.ui.Idle? }

  /** A stranded device refuses every command, START_NEW_TRANSACTION included, and stays as it is until a
      reception fails. */
  lemma StrandedRefuses(p: Platform, w: World, i: Input)
    requires Stranded(w) && !i.ReceptionFailed?
    ensures var v := Step(p, w, i).0; v.context == w.context && v.ui.Idle?
    ensures forall o <- Step(p, w, i).1 :: o.Replied? && o.status != SUCCESS
  {
    hide Accept, Dispatch;
    if i.Apdu? { NothingAccepted(w.rx, w.context.shared, w.context.sub, i.bytes); }
  }

  lemma NothingAccepted(rx: Rx, shared: Shared, flow: Sub, apdu: Bytes)
    ensures var r := Accept(rx, shared, WaitingUser, flow, apdu); r.Rejected? && r.status != SUCCESS
  {
    AcceptedIsWelcome(rx, shared, WaitingUser, flow, apdu);
    hide Accept;
  }

  // A command that is dispatched does not strand the device: the state it waits in comes with a screen.
  lemma DispatchStrands(p: Platform, w: World, cmd: Command, rng: Random, sent: bool, roll: Word)
    requires Welcome(cmd.ins, cmd.sub, w.context.state, w.context.sub)
    ensures !Stranded(Dispatch(p, w, cmd, rng, sent, roll).0)
  {
    WelcomeState(cmd.ins, cmd.sub, w.context.state, w.context.sub);
    if Advances(cmd.ins) {
      NotInitial(cmd, w.context);
      HandleOnward(p, w.context, cmd, rng, w.challenge);
      hide Handle;
    }
    hide Welcome, Logged, Noted, ReviewPairs, RequestOf;
  }

  /** Exactly when a step leaves the device stranded: it was, and no reception failed; or it was waiting
      for the user, and an I/O reset took the screen away. */
  lemma StrandedExactly(p: Platform, w: World, i: Input)
    ensures Stranded(Step(p, w, i).0) <==>
            w.context.state.WaitingUser? && ((w.ui.Idle? && !i.ReceptionFailed?) || i.IoReset?)
  {
    hide Accept, Dispatch, Welcome;
    var c := w.context;
    if i.Apdu? {
      AcceptedIsWelcome(w.rx, c.shared, c.state, c.sub, i.bytes);
      match Accept(w.rx, c.shared, c.state, c.sub, i.bytes) {
        case Complete(rx, shared, chunk, cmd) =>
          WelcomeState(cmd.ins, cmd.sub, c.state, c.sub);
          var received := w.(rx := rx, context := c.(shared := shared), accepted := w.accepted + [chunk]);
          DispatchStrands(p, received, cmd, i.rng, i.sent, i.roll);
        case _ =>
      }
    }
  }

  // An I/O reset at k fell into the review, and no reception has failed since.
  ghost predicate CutShortAt(p: Platform, boot: Word, inputs: seq<Input>, k: nat) {
    && k < |inputs| && inputs[k].IoReset? && Run(p, boot, inputs[..k]).context.state.WaitingUser?
    && forall j :: k < j < |inputs| ==> !inputs[j].ReceptionFailed?
  }

  /** Exactly when a run leaves the device stranded: an I/O reset fell into a review, and no reception has
      failed since. */
  lemma {:induction false} ReviewCutShort(p: Platform, boot: Word, inputs: seq<Input>)
    ensures Stranded(Run(p, boot, inputs)) <==> exists k: nat :: CutShortAt(p, boot, inputs, k)
  {
    hide Step;
    if inputs != [] {
      var n := |inputs| - 1;
      var front, i := inputs[..n], inputs[n];
      ReviewCutShort(p, boot, front);
      StrandedExactly(p, Run(p, boot, front), i);
      forall k: nat | k < n
        ensures CutShortAt(p, boot, inputs, k) <==> CutShortAt(p, boot, front, k) && !i.ReceptionFailed?
      {
        assert front[..k] == inputs[..k] && front[k] == inputs[k];
        assert CutShortAt(p, boot, inputs, k) ==> forall j :: k < j < n ==> front[j] == inputs[j];
      }
      assert CutShortAt(p, boot, inputs, n) <==> i.IoReset? && Run(p, boot, front).context.state.WaitingUser?;
      assert forall k: nat :: CutShortAt(p, boot, inputs, k) ==> k < n || k == n;
    }
  }

  /** And a stranded device stays so over any further inputs without a failed reception. */
  lemma {:induction false} StrandedStays(p: Platform, boot: Word, inputs: seq<Input>, more: seq<Input>)
    requires Stranded(Run(p, boot, inputs)) && forall j :: 0 <= j < |more| ==> !more[j].ReceptionFailed?
    ensures Stranded(Run(p, boot, inputs + more)) && Run(p, boot, inputs + more).context == Run(p, boot, inputs).context
  {
    hide Step;
    if more == [] {
      assert inputs + more == inputs;
    } else {
      var front, i := more[..|more| - 1], more[|more| - 1];
      assert (inputs + more)[..|inputs + more| - 1] == inputs + front;
      StrandedStays(p, boot, inputs, front);
      StrandedRefuses(p, Run(p, boot, inputs + front), i);
    }
  }
}
