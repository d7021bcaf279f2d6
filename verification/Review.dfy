/** Everything an approved review shows comes from the authenticated credentials and payload, and from the
    coin applications (src/ui/validate_transaction_nbgl.c, src/check_addresses_and_amounts.c). */
module Review {
  import opened Common
  import opened Commands
  import opened Messages
  import opened Normalize
  import opened Transactions
  import opened Pb
  import opened Flow
  import opened Device
  import opened Replay
  import opened FlowLaws
  import opened FlowTheorems

  // --- resolved addresses ---

  // Alike in the two fields trusted names are about.
  predicate SameAddresses(m: Message, n: Message) {
    |m| == |n| && PAYOUT_ADDRESS < |m| && m[PAYOUT_ADDRESS] == n[PAYOUT_ADDRESS]
      && m[REFUND_ADDRESS] == n[REFUND_ADDRESS]
  }

  lemma ResolveSame(m: Message, n: Message, name: Bytes, owner: Bytes)
    requires SameAddresses(m, n)
    ensures SameAddresses(ResolveNames(m, name, owner).0, ResolveNames(n, name, owner).0)
  {
    hide Resolved;
  }

  /** What trusted names make of the two addresses depends on these alone. */
  lemma {:induction false} ResolvingSame(p: Platform, m: Message, n: Message, log: seq<Event>)
    requires SameAddresses(m, n)
    ensures SameAddresses(Resolving(p, m, log), Resolving(p, n, log))
  {
    if log != [] {
      hide ResolveNames;
      var front, e := log[..|log| - 1], log[|log| - 1];
      ResolvingSame(p, m, n, front);
      if e.Did? && e.command.ins.TrustedName? {
        match p.readDescriptor(e.command.data)
        case BadDescriptor(_) =>
        case Descriptor(_, _, _, name, owner) =>
          ResolveSame(Resolving(p, m, front), Resolving(p, n, front), name, owner);
      }
    }
  }

  // --- what the review tells ---

  // The application of a payout check shows an amount like this.
  ghost predicate ShownBy(p: Platform, c: Context, cmd: Command, amount: Bytes, text: Bytes) {
    var r := ReadCheck(p, c.ledgerKey, MessageIn(c.shared), cmd);
    r.Readable? && Shows(p, AppName(r.check.coin), r.check.coin.config, amount, false, text)
  }

  // What is received or funded, of the payload's transaction m: in a swap the text the receiving application
  // gives for the amount proposed, in a sell the fiat amount, in a fund the account.
  ghost predicate Receives(p: Platform, c: Context, log: seq<Event>, m: Message) {
    && (c.sub.IsSell() ==> FiatAmount(m) == Some(c.getText))
    && (c.sub.IsFund() ==> c.getText == AccountName(m))
    && (c.sub.IsSwap() ==> exists k: nat, amount: Bytes ::
          && DidAt(log, k, CheckPayout, c.sub) && BigEndian(amount) == BigEndian(Blob(m, AMOUNT_TO_WALLET))
          && ShownBy(p, c, CommandAt(log, k), amount, c.getText))
  }

  // The parts of a review that are not amounts to send: the partner's name is that of the credentials, the
  // person is the payload's, and a foreign address is shown as the payload has it, trusted names resolved.
  ghost predicate Names(p: Platform, c: Context, log: seq<Event>, m: Message) {
    var partner := ParsePartner(c.sub, DataAt(log, 1));
    && partner.Some? && c.partnerName == ShownName(c.sub, partner.value.name)
    && ReviewPerson(c) == ReviewPerson(c.(shared := Decoded(m)))
    && ReviewTail(c) == ReviewTail(c.(shared := Decoded(Resolving(p, m, log))))
  }

  /** The whole review is authentic: in every run, when the signing application is started, the review that
      was approved is that of the context; its partner is the one of the credentials vouched for by Ledger,
      and what is received, the person and a foreign address are those of the payload the partner signed. */
  lemma ReviewIsProposed(p: Platform, boot: Word, inputs: seq<Input>, i: Input, request: Request)
    requires Launched(request) in Step(p, Run(p, boot, inputs), i).1
    ensures var w := Run(p, boot, inputs);
            var c, log := w.context, w.log;
            && log != [] && log[|log| - 1] == Approved(ReviewPairs(p, c))
            && PartnerVouched(p, c, log) && ProposalSigned(p, c, log) && Proposed(c.sub, DataAt(log, 3)).Some?
            && Names(p, c, log, Proposed(c.sub, DataAt(log, 3)).value.0)
            && Receives(p, c, log, Proposed(c.sub, DataAt(log, 3)).value.0)
  {
    var w := Run(p, boot, inputs);
    hide Run, Step, Proposed, RequestOf, Known, ReviewPairs, PartnerKnown, PartnerVouched, ProposalRead,
         ProposalSigned, CompleteFlow, ChecksHold, Names, Receives, Apdu.Accept;
    LaunchMeans(p, w, i, request);
    AuthenticatedTransaction(p, boot, inputs);
    FlowOrder(p, boot, inputs, i, request);
    AddressesAccepted(p, boot, inputs, i, request);
    SigningContext(p, boot, inputs);
    ShownKnown(p, w.context, w.log);
    FlagKnown(p, w.context, w.log);
    PayloadReviewed(p, w.context, w.log);
  }

  lemma FlagKnown(p: Platform, c: Context, log: seq<Event>)
    requires Known(p, c, log) && c.state.WaitingSigning? && CompleteFlow(log, c.sub, c.id)
    ensures c.otherSeed ==> c.sub.IsSwap()
  {
    hide Genuine, Arranged;
    var k: nat :| EndsAt(log, c.sub, k);
    forall i | 0 <= i < |log| && !c.sub.IsSwap()
      ensures !log[i].Strange?
    {
      assert i <= 4 || i == k || i == k + 1 || i == |log| - 1;
    }
  }

  lemma PayloadReviewed(p: Platform, c: Context, log: seq<Event>)
    requires PartnerKnown(p, c, log) && ProposalRead(p, c, log) && CompleteFlow(log, c.sub, c.id)
    requires (exists k: nat :: ChecksHold(p, c, log, k)) && (c.otherSeed ==> c.sub.IsSwap())
    ensures Proposed(c.sub, DataAt(log, 3)).Some?
    ensures Names(p, c, log, Proposed(c.sub, DataAt(log, 3)).value.0)
    ensures Receives(p, c, log, Proposed(c.sub, DataAt(log, 3)).value.0)
  {
    hide ParseTransaction, Deserialize, Prepared, Resolving, CompleteFlow, ChecksHold, Names, Receives, ParsePartner,
         ExtraOk, IdMatches, ShownName;
    var q := ParseTransaction(c.sub, DataAt(log, 3)).value;
    var m := Deserialize(c.sub, q.payload, q.base64).message;
    var k: nat :| ChecksHold(p, c, log, k);
    if !c.sub.IsSwap() {
      NoNames(p, log, c.sub, c.id);
      NothingResolved(p, Prepared(c.sub, m), log);
    }
    DeserializedShaped(c.sub, q.payload, q.base64);
    NamesOf(p, c, log, m);
    ReceivesOf(p, c, log, m, k);
  }

  lemma NamesOf(p: Platform, c: Context, log: seq<Event>, m: Message)
    requires PartnerKnown(p, c, log) && (c.otherSeed ==> c.sub.IsSwap())
    requires c.shared == Decoded(Resolving(p, Prepared(c.sub, m), log)) && TransactionShape.Shaped(TableOf(c.sub), m)
    requires !c.sub.IsSwap() ==> c.shared == Decoded(Prepared(c.sub, m))
    ensures Names(p, c, log, m)
  {
    hide ParsePartner, ShownName, Prepared, Resolving, CText, TableOf, TransactionShape.Shaped;
    if c.sub.IsSwap() {
      TransactionShape.TextAt(c.sub, m, PAYOUT_ADDRESS);
      PreparedKeeps(c.sub, m, PAYOUT_ADDRESS);
      PreparedKeeps(c.sub, m, REFUND_ADDRESS);
      ResolvingSame(p, m, Prepared(c.sub, m), log);
    } else {
      PreparedKeeps(c.sub, m, TRADER_EMAIL);
      PreparedKeeps(c.sub, m, USER_ID);
    }
  }

  lemma ReceivesOf(p: Platform, c: Context, log: seq<Event>, m: Message, k: nat)
    requires ChecksHold(p, c, log, k) && c.shared == Decoded(Resolving(p, Prepared(c.sub, m), log))
    requires !c.sub.IsSwap() ==> c.shared == Decoded(Prepared(c.sub, m))
    ensures Receives(p, c, log, m)
  {
    hide ReadCheck, AddressVerdict, Shows, Prepared, Resolving, DidAt, PayingAt, InAmount, BigEndian;
    var n := Prepared(c.sub, m);
    if c.sub.IsSwap() {
      PreparedMeaning(c.sub, m, []);
      ResolvingTouches(p, n, log, AMOUNT_TO_WALLET);
      var amount := Blob(MessageIn(c.shared), AMOUNT_TO_WALLET);
      assert amount == Blob(n, AMOUNT_TO_WALLET);
      assert ShownBy(p, c, CommandAt(log, k), amount, c.getText);
    } else if c.sub.IsSell() {
      SameFiat(c.sub, m);
    } else {
      PreparedKeeps(c.sub, m, ACCOUNT_NAME);
    }
  }

  lemma SameFiat(sub: Sub, m: Message)
    requires sub.IsSell()
    ensures FiatAmount(Prepared(sub, m)) == FiatAmount(m)
  {
    hide Prepared, CText, Decimal.FiatText;
    PreparedKeeps(sub, m, OUT_CURRENCY);
    PreparedKeeps(sub, m, OUT_AMOUNT);
  }
}
