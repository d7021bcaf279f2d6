/** Where a transaction comes from, byte by byte of the commands that brought it (src/set_partner_key.c,
    src/check_partner.c, src/process_transaction.c, src/check_tx_signature.c). */
module Origin {
  import opened Common
  import opened Commands
  import opened Messages
  import opened Transactions
  import opened Flow
  import opened Apdu
  import opened Device
  import opened Replay
  import opened FlowLaws
  import opened FlowTheorems
  import Der

  // The parts of the first commands: the partner's name, curve and key; the proposal; and its signature.
  datatype Sent = Sent(name: Bytes, curve: byte, key: Bytes, base64: bool, payload: Bytes, fees: Bytes,
                       dotted: bool, plain: bool, signature: Bytes)

  // SET_PARTNER_KEY: a name of 3 to 15 bytes behind its length, the curve in an NG flow, a key of 65 bytes.
  predicate Introduces(sub: Sub, data: Bytes, s: Sent) {
    && 3 <= |s.name| <= 15 && |s.key| == 65 && s.curve <= 1
    && (sub.Swap? ==> s.curve == 0) && (sub.Sell? || sub.Fund? ==> s.curve == 1)
    && data == [|s.name|] + s.name + (if sub.IsNg() then [s.curve] else []) + s.key
  }

  // PROCESS_TRANSACTION_RESPONSE: the encoding in an NG flow, the payload behind a length of one byte, or two in
  // an NG flow, and at most 16 bytes of fees behind theirs.
  predicate Proposes(sub: Sub, data: Bytes, s: Sent) {
    && |s.payload| < (if sub.IsNg() then 0x10000 else 0x100) && |s.fees| <= 16
    && (sub.Swap? ==> !s.base64) && (sub.Sell? || sub.Fund? ==> s.base64)
    && data == (if sub.IsNg() then [if s.base64 then 1 else 0, |s.payload| / 256, |s.payload| % 256] else [|s.payload|])
               + s.payload + [|s.fees|] + s.fees
  }

  // CHECK_TRANSACTION_SIGNATURE: whether a dot is signed in front of the payload and whether R and S come plain,
  // both told by two bytes in an NG flow.
  predicate Signs(sub: Sub, data: Bytes, s: Sent) {
    && (sub.Swap? ==> !s.dotted && !s.plain) && (sub.Sell? ==> s.dotted && s.plain)
       && (sub.Fund? ==> s.dotted && !s.plain)
    && data == (if sub.IsNg() then [if s.dotted then 1 else 0, if s.plain then 1 else 0] else []) + s.signature
  }

  // The DER form of a signature: R and S of 32 bytes as numbers, or 67 to 73 bytes as they are.
  ghost predicate InDer(s: Sent, der: Bytes) {
    if s.plain then
      |s.signature| == 64 && exists a: Bytes, b: Bytes ::
        && |a| <= 33 && |b| <= 33 && Der.Number(a, BigEndian(s.signature[..32]))
           && Der.Number(b, BigEndian(s.signature[32..]))
        && der == [0x30, |a| + |b| + 4, 2, |a|] + a + [2, |b|] + b
    else der == s.signature && 67 <= |der| <= 73 && der[1] as int + 2 == |der|
  }

  // Ledger's key has signed the credentials, and the partner's key the payload, with a dot in front or not.
  ghost predicate Signed(p: Platform, log: seq<Event>, s: Sent) {
    && 67 <= |DataAt(log, 2)| <= 73
    && p.verify(Key(Secp256k1, p.ledgerPoint), p.sha256(DataAt(log, 1)), DataAt(log, 2))
    && exists der: Bytes ::
         && InDer(s, der)
         && p.verify(Key(if s.curve == 0 then Secp256k1 else Secp256r1, s.key),
                     p.sha256((if s.dotted then [46] else []) + s.payload), der)
  }

  ghost predicate Comes(p: Platform, c: Context, log: seq<Event>, s: Sent) {
    && Introduces(c.sub, DataAt(log, 1), s) && Proposes(c.sub, DataAt(log, 3), s) && Signs(c.sub, DataAt(log, 4), s)
    && Signed(p, log, s) && c.fee == s.fees
  }

  lemma Introduced(p: Platform, c: Context, log: seq<Event>) returns (name: Bytes, curve: byte, key: Bytes)
    requires PartnerKnown(p, c, log)
    ensures forall s: Sent :: s.name == name && s.curve == curve && s.key == key ==>
              Introduces(c.sub, DataAt(log, 1), s)
    ensures c.partnerKey == Some(Key(if curve == 0 then Secp256k1 else Secp256r1, key))
  {
    hide ParsePartner, ShownName;
    var partner := ParsePartner(c.sub, DataAt(log, 1)).value;
    PartnerExactly(c.sub, DataAt(log, 1), partner);
    name, key := partner.name, partner.key;
    curve := if partner.curve.Secp256k1? then 0 else 1;
    assert Credentials(c.sub, partner) == [|name|] + name + (if c.sub.IsNg() then [curve] else []) + key;
  }

  lemma ProposedAs(p: Platform, c: Context, log: seq<Event>) returns (base64: bool, payload: Bytes, fees: Bytes)
    requires ProposalRead(p, c, log)
    ensures forall s: Sent :: s.base64 == base64 && s.payload == payload && s.fees == fees ==>
              Proposes(c.sub, DataAt(log, 3), s)
    ensures c.fee == fees && c.digestPlain == p.sha256(payload) && c.digestDotted == p.sha256([46] + payload)
  {
    hide ParseTransaction, Deserialize, ExtraOk, IdMatches, Prepared, Resolving;
    var q := ParseTransaction(c.sub, DataAt(log, 3)).value;
    ProposalExactly(c.sub, DataAt(log, 3), q);
    base64, payload, fees := q.base64, q.payload, q.fees;
  }

  lemma SignedAs(p: Platform, c: Context, log: seq<Event>)
    returns (dotted: bool, plain: bool, signature: Bytes, der: Bytes)
    requires ProposalSigned(p, c, log)
    ensures forall s: Sent :: s.dotted == dotted && s.plain == plain && s.signature == signature ==>
              Signs(c.sub, DataAt(log, 4), s) && InDer(s, der)
    ensures Verifies(p, c.partnerKey, if dotted then c.digestDotted else c.digestPlain, der)
  {
    hide SignatureAsDer, Der.Number, BigEndian;
    var data := DataAt(log, 4);
    var (d, x) := ParseSignature(c.sub, data).value;
    dotted, der := d, x;
    var (dd, pp, rest) := SignatureSelectors(c.sub, data).value;
    plain, signature := pp, rest;
    if c.sub.IsNg() { assert data == [data[0], data[1]] + rest; }
    AsDer(plain, signature, der);
  }

  lemma AsDer(plain: bool, signature: Bytes, der: Bytes)
    requires SignatureAsDer(plain, signature) == Some(der)
    ensures forall s: Sent :: s.plain == plain && s.signature == signature ==> InDer(s, der)
  {
    hide Der.Signature, Der.Number, BigEndian;
    if plain { Der.SignatureOctets(signature[..32], signature[32..]); }
  }

  /** Origin, byte by byte: from SIGNATURE_CHECKED to WAITING_SIGNING, in every run, the first commands are
      credentials that Ledger has signed, a proposal, and a signature of its payload under their key. */
  lemma OriginByByte(p: Platform, boot: Word, inputs: seq<Input>)
    requires 5 <= Rank(Run(p, boot, inputs).context.state) <= 9
    ensures var w := Run(p, boot, inputs); exists s: Sent :: Comes(p, w.context, w.log, s)
  {
    hide Run, PartnerKnown, PartnerVouched, ProposalRead, ProposalSigned;
    AuthenticatedTransaction(p, boot, inputs);
    var w := Run(p, boot, inputs);
    ContextComes(p, w.context, w.log);
  }

  lemma ContextComes(p: Platform, c: Context, log: seq<Event>)
    requires PartnerKnown(p, c, log) && ProposalRead(p, c, log) && ProposalSigned(p, c, log)
    requires PartnerVouched(p, c, log)
    ensures exists s: Sent :: Comes(p, c, log, s)
  {
    hide PartnerKnown, ProposalRead, ProposalSigned, Introduces, Proposes, Signs, InDer;
    var name, curve, key := Introduced(p, c, log);
    var base64, payload, fees := ProposedAs(p, c, log);
    var dotted, plain, signature, der := SignedAs(p, c, log);
    var s := Sent(name, curve, key, base64, payload, fees, dotted, plain, signature);
    assert [] + payload == payload;
    assert InDer(s, der);
    assert Comes(p, c, log, s);
  }

  // --- the issued id ---

  /** START_NEW_TRANSACTION answers with the id it keeps: the 32 bytes drawn, or ten letters of them in a legacy
      swap. */
  lemma IdIssued(p: Platform, c: Context, cmd: Command, rng: Random, challenge: Word)
    requires cmd.ins.StartNew? && p.validKey(Key(Secp256k1, p.ledgerPoint))
    ensures var r := Handle(p, c, cmd, rng, challenge);
            && r.Reply? && r.status == SUCCESS && r.context.state.WaitingTransaction? && r.context.sub == cmd.sub
            && |r.context.id| == 32
            && (if cmd.sub.Swap? then
                  |r.data| == 10 && r.context.id[..10] == r.data
                  && forall i :: 0 <= i < 10 ==> 65 <= r.data[i] <= 90 && (r.data[i] - 65) % 26 == rng[i] as int % 26
                else r.data == rng == r.context.id)
  {
  }
}
