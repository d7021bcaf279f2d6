# Ledger Exchange application: a verified model

The Exchange application runs on a Ledger device and conducts a swap, sell or fund operation between a
partner, the user and the coin applications installed on the device. A host sends commands (APDUs); the
application authenticates the partner and its proposal, has addresses checked and amounts formatted by the
coin applications, shows a review, and hands the approved payment to the paying application for signing.

This project models five parts of the repository and proves what they promise for all inputs and all runs.

1. **The exchange flow** (`Flow`, `Apdu`, `Device`, `Exchange`, `Replay`, `FlowLaws`, `FlowTheorems`,
   `Review`, `Origin`, `Payloads`, `ByField`, `Conversation`, `Witnesses`). The globals are fields of the
   class `Exchange.App`, whose methods update them in place as the C handlers do. Each method is proved
   equal to a function on values (`Flow`, `Apdu`), and `Exchange.Serve` proves that the object on any list
   of inputs is in the state `Device.Run` gives. Inputs are APDUs (with the random bytes drawn, whether the
   reply could be sent, and the next challenge), failed receptions, the user's answers and I/O resets.
   Beside the state runs a history of the flow: the commands that succeeded since the latest
   START_NEW_TRANSACTION, payout addresses that were foreign to the device, and the approval. `Replay`
   proves that what matters of the context is what replaying the history gives, so failed attempts leave no
   trace; `FlowLaws` says what a history that can be replayed looks like; `FlowTheorems` and `Review` draw
   the conclusions, and `Origin`, `Payloads` and `ByField` put them in terms of the commands' bytes and the
   payload's field numbers. `Conversation` runs the exchange of the client's test runner from
   START_NEW_TRANSACTION to the signing, and `Witnesses` has the inputs that reach what the theorems speak
   of.
2. **Split APDUs** (`Apdu`, `Reassembly`, `Splitting`): the receiver of chunks, and the Python client that
   cuts.
3. **The nanopb decoder** (`Varint`, `Pb`, `PbLaws`, `PbStream`, `PbDecoder`, `ProtocolTables`): stream,
   circular field iterator and recursive decoder as imperative code over an array of bytes, proved against a
   recursive decoder on values, for every well-formed descriptor table; then the laws of that decoder.
4. **Codecs** (`Base64Url`, `Decimal`, `Der`, `Buf`, `Messages`, `Normalize`, `Transactions`,
   `TransactionShape`).
5. **The Bitcoin helper client** (`Merkle`, `MerkleTrees`, `ClientCommands`, `Bech32`, `ConvertBits`,
   `Segwit`, `SegwitVectors`): a heap-allocated Merkle tree with parent pointers, the delivery queue, and
   Segwit addresses.

SHA-256, signature verification, key validity, the coin applications, the parser of trusted-name descriptors,
the version and the kind of screen are the fields of `Flow.Platform`; every statement holds for all of them.

## What came out

What the code is for is proved in full, in terms of what the host sends (`Origin.OriginByByte`,
`Payloads.PaymentByField`, `ByField.ReviewByField`): the shown amounts are those handed to the signing
application (`FlowTheorems.ShownIsSigned`), what is handed over is what the partner proposed
(`FlowTheorems.SignedIsProposed`), the transaction is authentic (`FlowTheorems.AuthenticatedTransaction`), the
steps come in order and once (`FlowTheorems.FlowOrder`), the whole review is the partner's
(`Review.ReviewIsProposed`), an exchange in which everyone does their part is signed, in every kind of flow
(`Conversation.ValidExchangeSigns`, `Witnesses.EveryKindSigns`), chunks are concatenated
(`Reassembly.DeliveredIsConcatenation`), messages and addresses round-trip (`PbLaws.MessageRoundTrip`,
`Segwit.AddressRoundTrip`), the Merkle tree keeps to its hash (`MerkleTrees.RootValue`,
`MerkleTrees.MerkleTree.Set`). Where an expectation fails, the exact condition is proved:

- A client that goes on after the refusal of a payload that is too long can have a different one delivered,
  exactly if its length leaves 1 or 2 modulo 255 (`Splitting.GoingOnDelivers`). `_exchange_split` has no check
  of its own and stops at the refusal because the transport library raises on an error status.
- An I/O reset during the review takes the screen away and leaves the state waiting for it: from then on every
  command, even START_NEW_TRANSACTION, is refused. A run ends like this exactly if such a reset came and no
  reception has failed since (`FlowTheorems.ReviewCutShort`, `FlowTheorems.StrandedRefuses`).
- The mark of a foreign payout address sticks until the next flow, even if the check command that set it
  failed and a later one is about an address of the device (`FlowTheorems.FlagSticks` gives exactly when it is
  set). At the signing it misleads exactly if the address checked is the device's own and an attempt before
  that check was about a foreign one (`FlowTheorems.MarkMisleads`); runs where this happens are
  `Witnesses.MarkOutlives`.
- The fiat text denotes the amount exactly when the coefficient is below 2^63, the exponent below 256 and no
  digit of a fraction is cut off by the buffer (`Decimal.FiatTextIsRight`, `Decimal.FiatTextGoesWrong`).
- The 32-bit varint decoder drops three bits of a fifth byte when more bytes follow, instead of refusing them:
  80 80 80 80 90 00 reads as 0 (`Varint.FastDropsBits`). `Varint.DecodersCompare` says of all byte strings
  when it accepts what the 64-bit one accepts, and that it then gives the low 32 bits: they agree exactly on
  values below 2^32.
- The search for a header in the pay-in address covers the whole buffer: a colon behind the end of the text
  counts too, and what follows it takes the address's place (`Normalize.StrippedExactly`). The partner signs
  the bytes either way. Payloads that decode to such a buffer are `Witnesses.ColonBehindTheEnd`.
- GET_PREIMAGE does not ask for an empty queue, unlike GET_MERKLE_LEAF_PROOF; asked for a preimage of 253
  bytes or more behind undelivered hashes, it leaves elements of two lengths in the queue
  (`ClientCommands.MixedExactly`), and no later request can empty it (`ClientCommands.MixedForever`).
- `MerkleTree.add` promises to add an element to any tree. It does so exactly if the number of elements is
  zero, a power of two or the sum of two of them (and a lone element is a hash); otherwise, first at seven, it
  raises with the tree left invalid (`MerkleTrees.MerkleTree.Add`), because a size turns into a float.

The code and its own text differ in two places, and the model follows the code. A missing library application
does not reset the context, as the comment in `src/main.c:137-145` says it does: state, transaction, keys and
fees stay, and only the mark and the texts of the review may change (`FlowTheorems.MissingKeeps`), so that the
flow goes on and can be signed (`Conversation.ValidExchangeSigns`, reached by `Witnesses.MarkOutlives`). And
GET_VERSION is refused during the review and while waiting for the signing (`FlowTheorems.VersionExactly`; the
documentation lists it as always available).

## Model

| member | source | states |
|---|---|---|
| FlowTheorems.ShownIsSigned | src/start_signing_transaction.c:17-60 | In every run, when a payment is handed to the signing application, the approved review showed as "Send" and "Fees", and nothing else under these names, the texts the paying application gives for exactly the application name, configuration, amount and fee handed over |
| FlowTheorems.SignedIsProposed | src/start_signing_transaction.c:6-60 | In every run, what is handed to the signing application pays what the payload of the flow's process command decodes to: the same amount as a number, the same fees and extra id, and the pay-in address, in a swap without its header; which fields of the payload these are is Payloads.PaymentByField |
| Payloads.PaymentByField | src/start_signing_transaction.c:17-60 | In every run, when a payment is handed over and the payload is the encoding of some items, in any order and with unknown ones between them: the amount is the number of the last block of field 9 (3 in a sell, 4 in a fund), the address the text of field 1 without its header (4, 5 as they are), the extra field 13 if it has 33 bytes, else the text of field 2 (8, 7); the issued id is in field 11, or 12 (7, 6), and of extra id and extra data at most one is there |
| Payloads.SwapReads | src/proto/protocol.proto:4-18 | Which field number each part of a swap's message comes from, for every such payload, texts overlaid as the decoder leaves them |
| Payloads.SellReads | src/proto/protocol.proto:26-35 | The same of a sell's message |
| Payloads.AmountReads | src/proto/protocol.proto:21-33 | And of the decimal inside it: coefficient from field 1, exponent from field 2, of all parts of field 6 together |
| Payloads.FundReads | src/proto/protocol.proto:37-45 | The same of a fund's message |
| Payloads.OverlaidText | src/pb_decode.c:1458-1485 | The text in a buffer that several texts were written over is the last one's |
| Payloads.UnheadedIs | src/process_transaction.c:274-306 | What is left of an address whose header is taken off, in terms of the first colon of its text, or of its buffer |
| ByField.ReviewByField | src/ui/validate_transaction_nbgl.c:184-250 | In every run, when a payment is handed over, the approved review lists, pair by pair with their literal names: on a small screen the warning if and only if a payout address was foreign; the name in the credentials, "To " in front in a fund; in a sell or fund the text of field 1; as "Send" and "Fees" the texts given by the application and configuration of the paying check; as "Receive", or "Receive estimated" exactly for a check at rate 1, the text the payout check's application gives for field 10, or the fiat amount of fields 5 and 6, and in a fund the account of field 2 under the partner's name; and exactly with the mark the text of field 5, trusted names replaced. The checks' configurations are signed and for the currencies of fields 7 and 8 (2, 3), and were asked about the addresses of fields 3 and 5 with the extra ids of fields 4 and 6 |
| ByField.ReviewLists | src/ui/validate_transaction_nbgl.c:184-250 | The entries of every review by name, value and place |
| ByField.FiatByField | src/check_addresses_and_amounts.c:139-162 | A fiat text is the text of field 5, a space, and, for a coefficient below 2^63, an exponent below 256 and a fraction that fits, a decimal that denotes the coefficient of field 6.1 with the exponent of field 6.2 |
| ByField.ResolvingTexts | src/trusted_name_descriptor_handler.c:16-36 | Payout and refund texts after a history: each gets the owner's address whenever it is the name of a descriptor and at most 150 bytes replace it |
| ByField.ReadableMeans | src/check_addresses_and_amounts.c:189-221 | A check command that is read is, byte by byte, a configuration of ticker, application and sub-configuration, Ledger's signature on it and a path, for the currency in question |
| Origin.OriginByByte | src/process_transaction.c:331-391 | In every run from SIGNATURE_CHECKED to WAITING_SIGNING: the credentials are a name of 3 to 15 bytes, the curve and a key of 65 bytes, signed by Ledger's key; the proposal its encoding, payload and at most 16 bytes of fees; and the signature, plain R and S in DER form or as sent, is the partner key's over the payload, or over a dot and the payload |
| Origin.IdIssued | src/start_new_transaction.c:12-67 | START_NEW_TRANSACTION answers with the id it keeps, 32 bytes as drawn, or ten letters A to Z in a legacy swap |
| FlowTheorems.AuthenticatedTransaction | src/process_transaction.c:331-391 | In every run, from SIGNATURE_CHECKED to WAITING_SIGNING, the context's transaction is the prepared decoding of a payload that carries the issued id and whose digest, plain or behind a dot, verified under the partner's key, which comes from credentials that verified under Ledger's key; trusted names are the only later change |
| FlowTheorems.ResolvingTouches | src/trusted_name_descriptor_handler.c:16-36 | Whatever trusted names a flow has applied, only the payout and refund addresses differ from the payload's |
| FlowTheorems.ResolvedText | src/trusted_name_descriptor_handler.c:16-36 | A replaced address is the owner's text, ended inside a buffer of the same length |
| FlowTheorems.TransactionShaped | src/check_addresses_and_amounts.c:45-66 | In every run from TRANSACTION_RECEIVED on, the transaction fits its table and ends every text inside its buffer, trusted names included; the refusal of an unterminated address never happens |
| FlowTheorems.FlowOrder | src/apdu_parser.c:87-174 | In every run, at each signing, the history since the latest START_NEW is: set-partner, check-partner, process, check-signature, then trusted names and foreign payout attempts only, the checks of that flow, the prompt if the check did not display, the approval; each once, in this order, all of START_NEW's subcommand |
| FlowTheorems.AddressesAccepted | src/check_addresses_and_amounts.c:182-305 | In every run, when a payment is handed over, the check of the paying side is in the history, with a signed configuration for the transaction's currency whose application and sub-configuration are those handed over; in a swap the payout check is too, for the received currency, and the applications accepted the refund address, and the payout address unless it was foreign and the mark is set |
| FlowTheorems.FlagSticks | src/check_addresses_and_amounts.c:223-237 | In every run, the mark of a foreign payout address is set if and only if some payout attempt since START_NEW was foreign |
| FlowTheorems.MarkMisleads | src/check_addresses_and_amounts.c:223-237 | In every swap that is signed there is one payout check, and the mark differs from its verdict if and only if the verdict is that the address belongs to the device and an attempt before the check was foreign |
| Review.ReviewIsProposed | src/ui/validate_transaction_nbgl.c:184-250 | In every run, when a payment is handed over, the approved review is that of the context; its partner is the one of the credentials, the person, the fiat amount or account, and a foreign address (trusted names resolved) are those of the signed payload, and in a swap the received text is what the receiving application gives for the amount proposed; its entries and the payload's fields are spelled out in ByField.ReviewByField |
| Review.ResolvingSame | src/trusted_name_descriptor_handler.c:16-36 | What trusted names make of the two addresses depends on these alone |
| FlowTheorems.MissingKeeps | src/main.c:137-144 | Whatever command meets a missing application, the reply says so, the state is SIGNATURE_CHECKED or PAYOUT_CHECKED as before, and of the context at most the mark and the texts of the review change, so that it is never reset |
| Conversation.ValidExchangeSigns | client/src/ledger_app_clients/exchange/test_runner.py:100-151 | From every run that does not end in a review, the exchange the client makes of correctly signed credentials, proposal and configurations leads, in every kind of flow, with proposals split or not and even if a payout check fails on the way, to the signing of the prepared proposal with the paid currency's application and configuration; the mark is set exactly if a checked payout address was foreign |
| Conversation.FailedCheckMarks | src/check_addresses_and_amounts.c:223-260 | A payout check that fails because its application shows no text or is missing is answered with that status and changes nothing but the mark, which it sets for a foreign address |
| Conversation.ConfigurationReads | client/src/ledger_app_clients/exchange/cal_helper.py:29-33 | A signed configuration of the client's builder for a currency of the transaction is read as the coin and the path it was made of |
| Conversation.ChunksSaid | src/apdu_parser.c:177-317 | APDUs that the receiver takes as chunks have the command dispatched at the last one, with nothing but the shared memory changed before |
| Conversation.RunOn | src/main.c:45-80 | Running on from the end of a run is a longer run |
| Witnesses.EveryKindSigns | client/src/ledger_app_clients/exchange/test_runner.py:100-151 | For each of the six kinds of flow some run from boot ends in a signing, of a payload made of items |
| Witnesses.FairDeals | client/src/ledger_app_clients/exchange/transaction_builder.py:129-197 | Every kind of flow has credentials, proposals with any issued id, signatures and configurations in the formats of the client's specifications that meet the hypotheses of the exchange, on small and large screens, with and without a payout check that fails |
| Witnesses.MarkOutlives | src/check_addresses_and_amounts.c:223-260 | Runs of swaps in which a check of a foreign address fails for its text or its missing application, with the context kept but for the mark; the check of an own address then passes, and the swap is signed with the mark set |
| FlowTheorems.SharedBufferSafe | src/apdu_parser.c:87-174 | From TRANSACTION_RECEIVED to signing no input changes the memory shared by chunks and transaction, but a START_NEW command, a reset to the initial state, or a trusted-name command in SIGNATURE_CHECKED, on the two addresses only |
| FlowTheorems.ReviewCutShort | src/main.c:137-152 | In every run, the device is left stranded, waiting for the user without a screen, if and only if an I/O reset fell into a review and no reception has failed since |
| FlowTheorems.StrandedExactly | src/main.c:137-152 | One step leaves the device stranded if and only if it was and no reception failed, or it waited for the user and an I/O reset came |
| FlowTheorems.StrandedRefuses | src/apdu_parser.c:150-153 | A stranded device answers every command with an error, START_NEW_TRANSACTION included, and keeps its context |
| FlowTheorems.StrandedStays | src/apdu_parser.c:150-153 | It stays so over any further inputs short of a failed reception |
| FlowTheorems.LaunchMeans | src/apdu_parser.c:140-174 | A payment is handed over only by a START_SIGNING command of the flow's subcommand in WAITING_SIGNING, and is the one the context holds |
| FlowLaws.HistoryKnown | src/states.h:3-16 | Of every history that can be replayed: the origin of partner, transaction, fees and digests, the order of the events, what the address checks established, the approved review, and the foreign mark are read off it |
| FlowLaws.AfterKnown | src/command_dispatcher.c:20-72 | One more event keeps all of that |
| FlowLaws.PayoutCheckDone | src/check_addresses_and_amounts.c:182-305 | A payout check that succeeds had a signed configuration for the received currency, an accepted address or the foreign mark, and leaves the received amount's text; nothing else but the state changes |
| FlowLaws.PayingCheckDone | src/check_addresses_and_amounts.c:182-305 | A paying-side check that succeeds leaves the texts its application gives for the amount and the fees, with the name and configuration they were made with; nothing else but rate and state changes |
| FlowLaws.KeptGenuine | src/check_addresses_and_amounts.c:182-305 | Events behind the signature keep the authenticated origin of partner and transaction |
| FlowLaws.ProcessDone | src/process_transaction.c:331-391 | A proposal that passes carries the issued id and consistent extra data, and leaves its two digests, its fees and its prepared transaction |
| Replay.RunSound | src/main.c:45-80 | In every run the context agrees with the replay of the successful commands, on all a later command can use before writing it again, and what is on the screen was made from it: failed attempts leave no trace |
| Replay.StepSound | src/main.c:45-80 | Every input keeps that agreement |
| Replay.CommandSettles | src/command_dispatcher.c:20-72 | A command takes contexts in agreement to contexts in agreement; one that fails keeps the replayed context unless it met a foreign payout address |
| Replay.CheckSettles | src/check_addresses_and_amounts.c:182-305 | The same of the address and amount checks, though they write texts before they can fail |
| Replay.ProcessSettles | src/process_transaction.c:331-391 | The same of a proposal, though digests and buffer are overwritten before it can fail |
| Replay.DescriptorSettles | src/trusted_name_descriptor_handler.c:38-112 | The same of trusted names |
| Replay.SetPartnerSettles | src/set_partner_key.c:66-117 | The same of the partner's credentials, though the name is written before the key can fail |
| Replay.AcceptedIsWelcome | src/apdu_parser.c:177-317 | An accepted APDU is welcome in the state and flow; a part of a command is accepted in PROVIDER_CHECKED of a matching NG flow only; the shared memory changes with such parts only |
| Replay.InstructionWelcome | src/apdu_parser.c:50-174 | check_instruction passes an instruction if and only if it belongs to the subcommand, to the flow and to the state |
| Exchange.Serve | src/main.c:45-152 | The object, fed any inputs, is in the state of the run |
| Exchange.ServeOne | src/main.c:45-152 | One input does to the object what the step relation says |
| Exchange.App.constructor | src/main.c:85-128 | The globals at boot |
| Exchange.App.Round | src/main.c:51-79 | One round of the loop: early reply, dispatch, fatal reset, end of signing, missing application |
| Exchange.App.RunCommand | src/main.c:68-78 | What the loop makes of a handler's outcome, history included |
| Exchange.App.ReceptionError | src/main.c:56-59 | A failed reception clears the context |
| Exchange.App.Reset | src/main.c:146-150 | An I/O reset takes screen and challenge, not the context |
| Exchange.App.DispatchCommand | src/command_dispatcher.c:20-72 | The handler of each instruction, and what it leaves |
| Exchange.App.StartNewTransaction | src/start_new_transaction.c:12-67 | The context is cleared, keyed and given a fresh id and the subcommand; the state moves only when the reply went out |
| Exchange.App.RandomLetters | src/start_new_transaction.c:27-38 | Ten letters from A to Z |
| Exchange.App.SetPartnerKey | src/set_partner_key.c:66-117 | New context and reply, errors included |
| Exchange.App.CheckPartner | src/check_partner.c:12-35 | New context and reply, errors included |
| Exchange.App.ProcessTransaction | src/process_transaction.c:331-391 | New context and reply, with what a failure has overwritten |
| Exchange.App.AcceptTransaction | src/process_transaction.c:365-391 | Extra-data and id checks, then normalised names, trimmed amounts, fees and state |
| Exchange.App.CheckTxSignature | src/check_tx_signature.c:20-148 | New context and reply for every signature format |
| FlowTheorems.ChallengeTold | src/get_challenge_handler.c:33-48 | The reply to GET_CHALLENGE has four bytes whose big-endian value is the current challenge, and context, screen, challenge and history stay as they are |
| FlowTheorems.ChallengeAsked | src/trusted_name_descriptor_handler.c:38-120 | A descriptor takes effect only if it carries the current challenge and is of the right type and source; with every descriptor, whatever becomes of it, the challenge is replaced by a drawn one |
| FlowTheorems.ChallengeDrawn | src/get_challenge_handler.c:10-19 | Over any further inputs the challenge stays or is one drawn since |
| FlowTheorems.DescriptorServesOnce | src/trusted_name_descriptor_handler.c:38-120 | In every run, after a descriptor has been sent another one takes effect only if the challenge it carries was drawn since |
| FlowTheorems.VersionExactly | src/apdu_parser.c:87-171 | GET_VERSION, with any data, is answered in every flow and every state but those that wait for the user and for the signing, where it is refused; either way nothing else changes |
| FlowTheorems.WarnedFirst | src/ui/validate_transaction_nbgl.c:281-324 | On a large screen what comes up for a foreign payout address is the warning, and the review only when the user goes on behind it |
| FlowTheorems.WarningFirst | src/ui/validate_transaction_nbgl.c:281-324 | In every run on a large screen, the review of a swap with the mark is up only after a warning with the same entries that the user went on behind |
| FlowTheorems.AnswersTold | src/ui/validate_transaction_nbgl.c:256-300 | Replies, state and history after an approval and after the refusals, with their status words |
| FlowTheorems.RefusalsTold | src/process_transaction.c:331-391 | Status words of refused credentials, proposals, signatures and descriptors, first reason first |
| FlowTheorems.CheckRefusalsTold | src/check_addresses_and_amounts.c:182-260 | And of refused checks |
| Exchange.App.ApplyTrustedName | src/trusted_name_descriptor_handler.c:16-36 | The address replaced exactly when the name is the one in the buffer and the owner's address fits |
| Exchange.App.TrustedNameInternal | src/trusted_name_descriptor_handler.c:38-112 | Every refusal, and both addresses on success |
| Exchange.App.TrustedNameHandler | src/trusted_name_descriptor_handler.c:115-120 | The challenge is drawn anew whatever became of the descriptor |
| Exchange.App.ReadConfiguration | src/check_addresses_and_amounts.c:192-218 | The coin and address parameters of a check command, or the status it is refused with |
| Exchange.App.CheckPayoutOrRefundAddress | src/check_addresses_and_amounts.c:45-82 | The application's verdict on the address the command is about; an unterminated one is refused |
| Exchange.App.GetPrintableAmount | src/currency_lib_calls.c:74-126 | The application's text; an empty or unterminated one is refused |
| Exchange.App.CheckAddressesAndAmounts | src/check_addresses_and_amounts.c:182-305 | New context, reply, display or missing application of the whole check, half-done attempts included |
| Exchange.App.CheckAmounts | src/check_addresses_and_amounts.c:84-121 | Which amount is formatted, and where its text goes |
| Exchange.App.CheckFees | src/check_addresses_and_amounts.c:123-137 | The fees' text, on the paying side only |
| Exchange.App.FormatFiatAmount | src/check_addresses_and_amounts.c:139-162 | Currency, space and decimal amount, which ByField.FiatByField spells out, and what a failure leaves |
| Exchange.App.FinishCheck | src/check_addresses_and_amounts.c:257-268 | The fiat amount of a sell flow, the account of a fund flow |
| Exchange.App.SaveCheck | src/check_addresses_and_amounts.c:270-304 | What is saved for the signing, the next state, and whether to display |
| Exchange.App.PreparePairsList | src/ui/validate_transaction_nbgl.c:184-249 | The review's entries in order, which ByField.ReviewLists spells out; they fit the array of eight |
| Exchange.App.PrepareHead | src/ui/validate_transaction_nbgl.c:187-216 | The entries in front of the amounts, per flow and screen |
| Exchange.App.ValidateAmounts | src/ui/validate_transaction_nbgl.c:302-323 | A foreign payout address is warned about first on a large screen |
| Exchange.App.OnReviewChoice | src/ui/validate_transaction_nbgl.c:263-279 | Approval leads to WAITING_SIGNING, refusal to the initial state with the status of its reason |
| Exchange.App.OnWarningChoice | src/ui/validate_transaction_nbgl.c:281-296 | Going on shows the review, going back refuses |
| Exchange.App.HandleRefusal | src/ui/validate_transaction_nbgl.c:256-261 | The reply, the screen and the state after a refusal |
| Exchange.App.StartSigningTransaction | src/start_signing_transaction.c:6-65 | What is handed over, by field in Payloads.PaymentByField, after the reply went out; nothing if it did not |
| Exchange.App.CheckApduValidity | src/apdu_parser.c:177-317 | Status, command, chunk memory and buffer after any APDU |
| Exchange.App.CheckHeader | src/apdu_parser.c:177-246 | The header, or the status of the first check that fails |
| Exchange.App.CheckExtension | src/apdu_parser.c:227-246 | Which extensions of P2 are allowed |
| Exchange.App.TakeChunk | src/apdu_parser.c:248-316 | The buffer holds the chunks received so far; a chunk that does not fit or match leaves it |
| Exchange.App.CopyRaw | src/apdu_parser.c:258-290 | Bytes copied behind those already there |
| Apdu.CheckInstruction | src/apdu_parser.c:50-174 | The status of an instruction in any flow and state |
| Apdu.InstructionRules | src/apdu_parser.c:87-148 | The switch assigns each instruction the state it needs and its two flags |
| Apdu.ForOtherFlow | src/apdu_parser.c:58-85 | Instructions of the other kind of flow |
| Apdu.HeaderExactly | src/apdu_parser.c:50-174 | The bytes of a header are accepted if and only if class, rate, subcommand, length and extension bits are legal and the instruction code belongs to the kind of flow, the state and the flow in progress, in a table of codes and states written out |
| Apdu.HeaderMeans | src/apdu_parser.c:177-317 | And which instruction, rate, subcommand, first and last they stand for, the legacy code of the asset-in check included |
| Apdu.HeaderRefusals | src/apdu_parser.c:177-240 | Status words of refused headers, first reason first |
| Reassembly.DeliveredIsConcatenation | src/apdu_parser.c:248-316 | In every run, a delivered command is the concatenation of the accepted APDUs since the last one that started a command, all of its instruction, rate and subcommand, and no longer than the buffer |
| Reassembly.RunRemembers | src/apdu_parser.c:248-316 | In every run the memory of chunks is that of the accepted APDUs, whatever was rejected or answered in between |
| Reassembly.StepRemembers | src/apdu_parser.c:248-316 | Every input keeps that |
| Reassembly.AcceptGathers | src/apdu_parser.c:248-316 | One APDU is rejected, extends the chunks, or completes the command |
| Reassembly.RejectedChangesNothing | src/apdu_parser.c:177-285 | A rejected APDU leaves the whole device as it was |
| Reassembly.CompletionDropsPending | src/apdu_parser.c:300-316 | After a complete command, no APDU can extend an earlier chunk |
| Splitting.SplitReassembles | client/src/ledger_app_clients/exchange/client.py:139-151 | For every payload of 1 to 512 bytes, the client's chunks are each received with success and the last delivers the payload |
| Splitting.LongerExactly | src/apdu_parser.c:261-291 | Of every longer payload sent on to its end, the first two chunks are taken and all others refused, but for a last one of one or two bytes, which delivers the first 510 bytes and these |
| Splitting.GoingOnDelivers | src/apdu_parser.c:261-291 | So some chunk of a longer payload delivers a command if and only if its length leaves 1 or 2 modulo 255; that is the last one, and what it delivers is never the payload |
| Splitting.LongerIsRefused | client/src/ledger_app_clients/exchange/client.py:139-151 | Every longer payload is refused at its third chunk, with nothing delivered by then |
| Splitting.ExchangeSplit | client/src/ledger_app_clients/exchange/client.py:139-151 | The chunks are sent in order until one is not answered with success |
| Splitting.ClientAndDevice | client/src/ledger_app_clients/exchange/client.py:139-151 | Against the device's answers, the client sends every chunk of up to 512 bytes, the last one delivering the payload; of a longer payload it sends three, the third is refused and nothing is delivered |
| Splitting.CutPayload | client/src/ledger_app_clients/exchange/client.py:139-140 | Slices of 255 bytes |
| Splitting.SplitHeader | client/src/ledger_app_clients/exchange/client.py:142-149 | The receiver reads each chunk's place as the client meant it |
| Varint.RoundTrip64 | src/pb_decode.c:358-375 | The 64-bit decoder inverts the canonical encoding of every value below 2^64 |
| Varint.Fast32Exactly | src/pb_decode.c:305-351 | The answer of the 32-bit decoder on the canonical encoding of every value below 2^64: the value below 2^32, its low half if it is a sign-extended 32-bit number, and a refusal otherwise |
| Varint.SignExtended | src/pb_decode.c:316-332 | A negative int32, sign-extended, reads as its value modulo 2^32 |
| Varint.DecodersCompare | src/pb_decode.c:305-375 | The two decoders on any bytes: what the 64-bit one accepts the 32-bit one accepts exactly when the first five bytes hold no more than 32 bits, or more bytes follow that are zeros or extend a set bit 31; it then reads the same bytes and gives the low 32 bits; what it accepts alone is longer than ten bytes |
| Varint.DecodersAgree | src/pb_decode.c:305-375 | Where both accept, they agree if and only if the value is below 2^32 |
| Varint.FastDropsBits | src/pb_decode.c:318-347 | The six bytes 80 80 80 80 90 00 read as 0 and as 2^32 |
| PbStream.Stream.Read | src/pb_decode.c:232-259 | The next bytes, or a refusal that consumes nothing; position plus bytes left never changes |
| PbStream.Stream.ReadByte | src/pb_decode.c:263-276 | One byte, conserving position plus bytes left |
| PbStream.Stream.FromBuffer | src/pb_decode.c:278-299 | A stream over a buffer starts at its beginning |
| PbStream.Stream.DecodeVarint32Eof | src/pb_decode.c:305-351 | The loop reads what the parse says, and reports an empty stream |
| PbStream.Stream.DecodeVarint | src/pb_decode.c:358-375 | The loop reads what the parse says |
| PbStream.Stream.SkipVarint | src/pb_decode.c:377-383 | Skips to the byte behind the varint |
| PbStream.Stream.DecodeTag | src/pb_decode.c:392-413 | Tag and wire type, the end of the stream, or the zero tag |
| PbStream.Stream.SkipField | src/pb_decode.c:415-431 | Skips a value of any wire type, and refuses groups |
| PbStream.Stream.MakeSubstream | src/pb_decode.c:470-480 | The substream is the declared bytes, the parent stands past them |
| PbStream.Stream.CloseSubstream | src/pb_decode.c:482-493 | However much was read inside, the parent stands exactly past the declared length |
| PbDecoder.FieldIter.Begin | src/pb_common.c:9-18 | The iterator starts at the first field |
| PbDecoder.FieldIter.Next | src/pb_common.c:20-68 | The cached pointer is the base plus the field's absolute offset, also after the wrap |
| PbDecoder.FieldIter.Find | src/pb_common.c:70-85 | From any position: found if and only if the tag is in the table, and then standing at its field with the right pointer |
| PbDecoder.SetToDefaults | src/pb_decode.c:964-972 | All defaults, and nothing outside the struct written |
| PbDecoder.SetFieldToDefault | src/pb_decode.c:909-962 | One field's default, and nothing outside it written |
| PbDecoder.DecodeStaticField | src/pb_decode.c:499-514 | The field's value and the bytes left, nothing outside the field written |
| PbDecoder.DecodeBytes | src/pb_decode.c:1428-1456 | Capacity check, size and contents in the struct's bytes, and nothing outside the field written even on a failure |
| PbDecoder.DecodeString | src/pb_decode.c:1458-1485 | Capacity check, text and terminator, and nothing outside the field written, though the terminator is written even where reading fails |
| PbDecoder.DecodeUvarint | src/pb_decode.c:1371-1390 | The integer, stored before it is compared, and nothing outside the field written |
| PbDecoder.DecodeSubmessage | src/pb_decode.c:1487-1507 | A submessage is decoded on top of what its struct holds |
| PbDecoder.DecodeNoinit | src/pb_decode.c:978-1115 | The loop computes the recursive decoding of the rest, on top of what the struct holds, for every well-formed table, and terminates |
| PbDecoder.PbDecode | src/pb_decode.c:1117-1127 | The decoded message, whatever the struct held before |
| PbDecoder.LoadUpdated | src/pb_common.c:37-66 | Fields at cached offsets do not overlap: writing in one changes no other |
| PbLaws.AnyOrderRoundTrip | src/pb_decode.c:1117-1127 | For every well-formed table and every message within its capacities, whatever the order of its fields, with default values sent or left out and unknown fields anywhere, in submessages too, decoding gives the message |
| PbLaws.MessageRoundTrip | src/pb_decode.c:1117-1127 | In particular of its proto3 encoding in the order of the table |
| PbLaws.RoundTripWithUnknown | src/pb_decode.c:1012-1036 | The same with well-formed unknown fields anywhere in between |
| PbLaws.UnknownFieldsIgnored | src/pb_decode.c:1012-1036 | Unknown fields never change the outcome, on any items and any previous contents |
| PbLaws.MergeLaw | src/pb_decode.c:978-1115 | If a decodes to its end, decoding a followed by b is decoding b on top of a's result |
| PbLaws.ZeroTagEnds | src/pb_decode.c:404-410 | A zero tag hides what follows, the reason for the law's condition |
| PbLaws.LastOneWins | src/pb_decode.c:1371-1485 | Of a scalar field the last value sent is what shows |
| PbLaws.SubmessagesMerge | src/pb_decode.c:1487-1507 | A submessage in two parts is the second on top of the first |
| PbLaws.DecodeItems | src/pb_decode.c:978-1115 | Decoding encoded items is applying them in order |
| PbLaws.WireExamples | src/pb_decode.c:392-440 | The encodings of the examples in Protocol Buffers Encoding, and of the fixed widths |
| PbLaws.FieldRoundTrip | src/pb_decode.c:499-514 | One field of any kind, a submessage in any of its encodings |
| ProtocolTables.TablesAreWellFormed | src/proto/protocol.pb.c:13-57 | The four tables meet what the laws ask: distinct non-zero tags, sizes and offsets that fit |
| Der.EncodeSigDer | src/der.c:142-176 | Writes exactly the DER SEQUENCE of the two INTEGERs if it can be encoded and fits, else returns 0; never writes outside |
| Der.GetEncodedIntegerSize | src/der.c:23-44 | The predicted size is the size of the encoding |
| Der.InsertInteger | src/der.c:96-140 | Writes the INTEGER if it fits |
| Der.InsertTagAndLength | src/der.c:46-94 | Writes tag and length octets if they fit |
| Der.SkipZeros | src/der.c:26-29 | The number without leading zeros |
| Der.SignatureParses | src/der.c:142-176 | Strict decoding of the encoding gives back the big-endian values |
| Der.SignatureIsUnique | src/der.c:142-176 | Nothing else decodes to these values: the encoding is the canonical one of ITU-T X.690 |
| Der.SignatureOctets | src/der.c:1-129 | For R and S of 32 bytes the octets written out: a SEQUENCE of two INTEGERs, each in as few octets as leave its sign bit clear |
| Der.CurveSizedSignature | src/check_tx_signature.c:95-113 | For 32-byte R and S encoding never fails, and the result has at most 76 bytes |
| Base64Url.Decode | src/base64.c:52-113 | What the decoder returns and writes for every text, and that it writes nothing from maxsize on |
| Base64Url.DecodeText | src/base64.c:76-112 | The loop over groups |
| Base64Url.DecodeTail | src/base64.c:88-112 | The last group |
| Base64Url.DecodeInvertsEncode | src/base64.c:52-113 | For every byte string, padded or not, decoding its base64url text returns it, and -1 if and only if it does not fit |
| Base64Url.AlphabetIs | src/base64.c:33-50 | The characters that are read are the alphabet of Table 2 of RFC 4648 and '/', with their values |
| Base64Url.GroupSpells | src/base64.c:76-112 | Four characters stand for three bytes as one number of 24 bits |
| Decimal.Int64ToStr | src/printable_amount.c:15-52 | The canonical decimal text of every int64, or a refusal exactly when it does not fit |
| Decimal.DigitsSpell | src/printable_amount.c:15-52 | Digits only, no leading zero, spelling the number |
| Decimal.Uint64FromBigEndian | src/printable_amount.c:4-13 | The big-endian number modulo 2^64 |
| Decimal.FpUint64ToStr | src/printable_amount.c:54-86 | The buffer after printing, or a refusal that changes nothing |
| Decimal.PlaceDigits | src/printable_amount.c:61-85 | The digits around the dot |
| Decimal.GetFiatPrintableAmount | src/printable_amount.c:88-96 | The buffer after printing a coefficient and an exponent |
| Decimal.FiatTextIsRight | src/printable_amount.c:54-96 | Into a zeroed buffer, a text that was not refused denotes the amount if and only if the coefficient is below 2^63, the exponent below 256 and a fractional text is not cut off |
| Decimal.FiatTextGoesWrong | src/printable_amount.c:4-96 | Coefficients 2^64 apart and exponents 256 apart print the same, and those from 2^63 on print a sign |
| Buf.ParseToSizedBuffer | src/buf.c:10-52 | The prefixed field and what follows, or a failure that reads nothing past the end |
| Buf.PopUint8FromBuffer | src/buf.c:59-68 | The next byte, if there is one |
| Buf.SizedInvertsPrefixed | src/buf.c:10-52 | A prefixed field reads back |
| Buf.SizedIsPrefixed | src/buf.c:10-52 | What reads is a prefixed field |
| Messages.PartnerExactly | client/src/ledger_app_clients/exchange/signing_authority.py:40-70 | A partner is read from exactly the credentials the builder makes for it |
| Messages.ParseSetPartnerKeyCommand | src/set_partner_key.c:12-64 | The partner's name, curve and key, or a refusal |
| Messages.ParseTransactionCommand | src/process_transaction.c:42-99 | Payload, fees and encoding, or a refusal |
| Messages.CraftedTransactionParses | client/src/ledger_app_clients/exchange/transaction_builder.py:116-121 | Every crafted proposal parses to its payload, encoding and fees, if and only if the fees are below 2^128 |
| Messages.ProposalExactly | src/process_transaction.c:42-105 | The parser accepts exactly an encoding selector where the flow has one, a payload and at most 16 bytes of fees behind their lengths |
| Messages.MinimalBytesOf | client/src/ledger_app_clients/exchange/utils.py:15-17 | The minimal bytes spell the number, and fit k bytes if and only if it is below 256^k |
| Messages.ReadSignatureSelectors | src/check_tx_signature.c:29-66 | Prefix and format, fixed in a legacy flow, two bytes in the others |
| Messages.ReadSignature | src/check_tx_signature.c:20-114 | Which digest is signed, and the DER signature; the failure of re-encoding cannot occur |
| Messages.EncodePlainSignature | src/check_tx_signature.c:95-113 | R and S re-encoded |
| Messages.ParseDerSignature | src/parse_check_address_message.c:7-25 | The signature with its tag and length bytes |
| Messages.ParseCheckAddressMessage | src/parse_check_address_message.c:36-78 | Configuration, signature and parameters, or a refusal |
| Messages.AddressMessageExactly | client/src/ledger_app_clients/exchange/cal_helper.py:29-32 | Read from exactly the message the builder makes |
| Messages.ParseCoinConfiguration | src/parse_coin_config.c:33-88 | Ticker, application and sub-configuration, or a refusal |
| Messages.AliasAppName | src/parse_coin_config.c:73-85 | The wrong names of two applications are put right |
| Messages.CoinConfigExactly | client/src/ledger_app_clients/exchange/ethereum.py:31-38 | Read from exactly the configurations the builder makes, up to the alias |
| Normalize.ToUppercase | src/ticker_normalization.c:17-23 | Letters up to the NUL in upper case |
| Normalize.SetLedgerCurrencyName | src/ticker_normalization.c:25-34 | The buffer after renaming |
| Normalize.CheckMatchingTicker | src/ticker_normalization.c:37-69 | Matches if and only if the transaction's currency is the normalised ticker |
| Normalize.NormalisedText | src/ticker_normalization.c:17-35 | Normalising the buffer normalises the name in it |
| Normalize.KnownLiterally | src/ticker_normalization.c:1-60 | Names raised, then USDT20 and REP replaced, written out |
| Normalize.KnownOnce | src/ticker_normalization.c:17-35 | A second pass changes nothing |
| Normalize.StripHeader | src/process_transaction.c:286-294 | What follows the first colon moved to the front |
| Normalize.StrippedText | src/process_transaction.c:286-294 | A header in the address goes |
| Normalize.StrippedExactly | src/process_transaction.c:286-294 | The address text afterwards, for every terminated buffer: behind its first colon, or behind a colon that follows the text's end, or as it was |
| Witnesses.ColonBehindTheEnd | src/process_transaction.c:274-306 | Payloads of a swap whose pay-in address is a text, its end, a colon and another text decode to the first text, and after preparing the second one is paid |
| Normalize.TrimPbBytesArray | src/process_transaction.c:28-40 | Size and bytes after moving the number to the front |
| Normalize.TrimmedAmount | src/process_transaction.c:28-40 | The amount is kept, its leading zeros go |
| Transactions.DeserializeProtobufPayload | src/process_transaction.c:140-188 | Base64 and protobuf decoding by the flow's table, and what a failure leaves |
| Transactions.DecodeMessage | src/process_transaction.c:169-188 | The decoder run on a fresh struct |
| Transactions.CheckExtraIdExtraData | src/process_transaction.c:190-225 | At most one of extra id and extra data, data in its one format |
| Transactions.CheckTransactionId | src/process_transaction.c:227-272 | The transaction carries the issued id |
| Transactions.NormalizeCurrency | src/process_transaction.c:276-284 | One currency name normalised |
| Transactions.NormalizeCurrencies | src/process_transaction.c:274-306 | The names of the flow normalised, the pay-in header stripped |
| Transactions.TrimAmount | src/process_transaction.c:28-40 | One amount trimmed |
| Transactions.TrimAmounts | src/process_transaction.c:309-319 | The amounts of the flow trimmed |
| Transactions.PreparedKeeps | src/process_transaction.c:274-319 | Preparing rewrites only currencies, amounts and the pay-in address |
| Transactions.PreparedMeaning | src/process_transaction.c:274-319 | Preparing keeps every amount, the id and the verdict on extra data |
| TransactionShape.DecodedEnded | src/pb_decode.c:1458-1485 | Whatever the bytes were, a decoded message fits its table and every text in it, in submessages too, is NUL-terminated |
| TransactionShape.PreparedShaped | src/process_transaction.c:274-319 | Preparing in place keeps that |
| TransactionShape.PreparedTexts | src/process_transaction.c:274-306 | Preparing leaves the currencies under the names the exchange knows, the pay-in address of a swap without header, that of another flow as it was |
| Merkle.BitTrick | test/python/apps/bitcoin_client/ledger_bitcoin/merkle.py:34-39 | For every positive integer the bit trick tells the powers of two |
| Merkle.FloorLg | test/python/apps/bitcoin_client/ledger_bitcoin/merkle.py:8-18 | The logarithm rounded down |
| Merkle.CeilLg | test/python/apps/bitcoin_client/ledger_bitcoin/merkle.py:21-31 | The logarithm rounded up |
| Merkle.LargestPowerOf2LessThan | test/python/apps/bitcoin_client/ledger_bitcoin/merkle.py:42-50 | The split of a range of leaves, a power of two |
| Merkle.PathLeadsToRoot | test/python/apps/bitcoin_client/ledger_bitcoin/merkle.py:235-247 | Every proof folded with its leaf gives the root (section 2.1.1 of RFC 6962) |
| Merkle.RootMeans | test/python/apps/bitcoin_client/ledger_bitcoin/merkle.py:59-65 | The recursive computation gives the tree hash of section 2.1 of RFC 6962 |
| Merkle.RootsAgree | test/python/apps/bitcoin_client/ledger_bitcoin/merkle.py:59-65 | And nothing else satisfies that definition |
| Merkle.ClimbMeans | test/python/apps/bitcoin_client/ledger_bitcoin/merkle.py:59-65 | One step of folding a proof hashes the byte 1, the value and a sibling on its right, or a sibling on its left and the value |
| Merkle.ProofsAreBinding | test/python/apps/bitcoin_client/ledger_bitcoin/merkle.py:59-65 | Any leaf and proof that give the root are the tree's own, or a collision of the hash is found |
| Merkle.PathWithinDepth | test/python/apps/bitcoin_client/ledger_bitcoin/merkle.py:235-247 | A proof is no longer than the tree is deep |
| MerkleTrees.MakeTree | test/python/apps/bitcoin_client/ledger_bitcoin/merkle.py:92-110 | The heap holds a linked, hashed tree over the range, none for an empty one, or an element was of the wrong length |
| MerkleTrees.MakeHalves | test/python/apps/bitcoin_client/ledger_bitcoin/merkle.py:103-106 | Two disjoint subtrees |
| MerkleTrees.Join | test/python/apps/bitcoin_client/ledger_bitcoin/merkle.py:107-110 | A new root over two subtrees, with both parent pointers |
| MerkleTrees.NodeValue | test/python/apps/bitcoin_client/ledger_bitcoin/merkle.py:68-110 | Every node's value is the tree hash of the leaves it covers (section 2.1 of RFC 6962), in its own definition: the hash of the byte 1, the left and the right root, split at the largest power of two below the number of leaves |
| MerkleTrees.RootValue | test/python/apps/bitcoin_client/ledger_bitcoin/merkle.py:145-147 | The root's value is that tree hash of all leaves |
| MerkleTrees.LeafUpdate | test/python/apps/bitcoin_client/ledger_bitcoin/merkle.py:195-215 | A changed leaf can only make its parent's hash wrong |
| MerkleTrees.NodeUpdate | test/python/apps/bitcoin_client/ledger_bitcoin/merkle.py:217-220 | Rehashing a node moves the only wrong hash one node up |
| MerkleTrees.MerkleTree.Create | test/python/apps/bitcoin_client/ledger_bitcoin/merkle.py:130-138 | A valid tree over the elements, or an error exactly when several are given and one is not 32 bytes long |
| MerkleTrees.MerkleTree.GetRoot | test/python/apps/bitcoin_client/ledger_bitcoin/merkle.py:145-147 | That tree hash of the current leaves, 32 zero bytes for an empty tree |
| MerkleTrees.MerkleTree.Set | test/python/apps/bitcoin_client/ledger_bitcoin/merkle.py:195-215 | The tree is valid again over the updated elements, or over one more; a wrong length or an index beyond changes nothing; of a list that cannot be added to the tree is left invalid |
| MerkleTrees.MerkleTree.Add | test/python/apps/bitcoin_client/ledger_bitcoin/merkle.py:153-193 | One more element exactly when the list can be added to, else an error that leaves a leaf outside the tree |
| MerkleTrees.MerkleTree.FindPlace | test/python/apps/bitcoin_client/ledger_bitcoin/merkle.py:164-180 | The loop down the right side finds a complete subtree if and only if the number of leaves is a power of two or the sum of two; its third test raises on a float |
| MerkleTrees.GrownStands | test/python/apps/bitcoin_client/ledger_bitcoin/merkle.py:182-193 | With the new node in place the tree stands over one more leaf, but for the hashes of that node and its parent |
| MerkleTrees.SevenIsFull | test/python/apps/bitcoin_client/ledger_bitcoin/merkle.py:175-180 | Of lists of up to seven hashes, exactly those of seven cannot be added to |
| MerkleTrees.MerkleTree.FixUp | test/python/apps/bitcoin_client/ledger_bitcoin/merkle.py:217-220 | Rehashing the ancestors alone restores the whole tree |
| MerkleTrees.MerkleTree.RecomputeValue | test/python/apps/bitcoin_client/ledger_bitcoin/merkle.py:75-78 | One node gets the hash of the byte 1, its left and its right child's value; the rest of the heap is as it was |
| MerkleTrees.MerkleTree.ProveLeaf | test/python/apps/bitcoin_client/ledger_bitcoin/merkle.py:235-247 | The sibling values are the inclusion proof of the current elements |
| MerkleTrees.MerkleTree.Sibling | test/python/apps/bitcoin_client/ledger_bitcoin/merkle.py:80-89 | An error exactly for the root; for any other node a different child of the same parent, whose leaves adjoin the node's and make up the parent's with them |
| MerkleTrees.MerkleTree.Get | test/python/apps/bitcoin_client/ledger_bitcoin/merkle.py:222-224 | The current element |
| ClientCommands.Interpreter.Execute | test/python/apps/bitcoin_client/ledger_bitcoin/client_command.py:248-275 | Response, queue and yielded values after any request |
| ClientCommands.Interpreter.GetPreimageCommand | test/python/apps/bitcoin_client/ledger_bitcoin/client_command.py:49-86 | The front of the preimage, the rest byte by byte in the queue |
| ClientCommands.Interpreter.GetMerkleLeafProofCommand | test/python/apps/bitcoin_client/ledger_bitcoin/client_command.py:98-136 | Leaf, counts and the front of the proof, the rest in the queue |
| ClientCommands.Interpreter.GetMerkleLeafIndexCommand | test/python/apps/bitcoin_client/ledger_bitcoin/client_command.py:147-164 | The first index of a leaf |
| ClientCommands.Interpreter.LeafIndex | test/python/apps/bitcoin_client/ledger_bitcoin/merkle.py:226-233 | The search finds the first index, or none |
| ClientCommands.Interpreter.GetMoreElementsCommand | test/python/apps/bitcoin_client/ledger_bitcoin/client_command.py:175-203 | As many elements as fit the response, off the queue |
| ClientCommands.Interpreter.TakeElements | test/python/apps/bitcoin_client/ledger_bitcoin/client_command.py:190-195 | The loop takes as many elements of one length as fit |
| ClientCommands.VarintReads | test/python/apps/bitcoin_client/ledger_bitcoin/common.py:73-103 | A compact size reads back, below 2^64 |
| ClientCommands.StepConserves | test/python/apps/bitcoin_client/ledger_bitcoin/client_command.py:175-203 | GET_MORE_ELEMENTS delivers exactly what it takes off; no other request takes anything off; responses fit 255 bytes |
| ClientCommands.RunConserves | test/python/apps/bitcoin_client/ledger_bitcoin/client_command.py:248-275 | Over any requests, what was delivered and what is left is what was put in, in order |
| ClientCommands.DrainGivesAll | test/python/apps/bitcoin_client/ledger_bitcoin/client_command.py:175-203 | Asking until the queue is empty delivers all of it |
| ClientCommands.PreimageDelivered | test/python/apps/bitcoin_client/ledger_bitcoin/client_command.py:49-86 | A preimage asked for with an empty queue arrives whole |
| ClientCommands.ProofDelivered | test/python/apps/bitcoin_client/ledger_bitcoin/client_command.py:98-136 | A proof asked for with an empty queue arrives whole, for every list of fewer than 2^64 hashes |
| ClientCommands.ProofAsked | test/python/apps/bitcoin_client/ledger_bitcoin/client_command.py:98-136 | The bytes of a request for a proof |
| ClientCommands.LeafIndexAnswered | test/python/apps/bitcoin_client/ledger_bitcoin/client_command.py:147-164 | The answer to a leaf is a 1 and its first index, or two zeros |
| ClientCommands.MoreAnswered | test/python/apps/bitcoin_client/ledger_bitcoin/client_command.py:175-203 | A further message tells how many elements of which length it holds, as many as 253 bytes do |
| ClientCommands.VarintMeans | test/python/apps/bitcoin_client/ledger_bitcoin/common.py:73-103 | The bytes of a compact size |
| ClientCommands.MixedExactly | test/python/apps/bitcoin_client/ledger_bitcoin/client_command.py:49-86 | A request makes a queue of one length hold two if and only if it asks for a known preimage of at least 253 bytes while hashes are queued |
| ClientCommands.MixedReached | test/python/apps/bitcoin_client/ledger_bitcoin/client_command.py:49-136 | Two requests bring an empty queue there: the proof of the first of more than 64 leaves, and such a preimage |
| ClientCommands.MixedForever | test/python/apps/bitcoin_client/ledger_bitcoin/client_command.py:98-203 | Over any requests such a queue stays so, nothing is delivered from it, and the next request for a proof or for more elements raises |
| ClientCommands.MixedStays | test/python/apps/bitcoin_client/ledger_bitcoin/client_command.py:98-203 | One request keeps it so, and raises if it is one of these |
| Bech32.PolymodLoop | test/python/apps/bitcoin_client/ledger_bitcoin/segwit_addr.py:34-43 | The loop computes the fold over the values |
| Bech32.OneValue | test/python/apps/bitcoin_client/ledger_bitcoin/segwit_addr.py:38-42 | The inner loop over the generator is one shift with feedback |
| Bech32.ShiftLinear | test/python/apps/bitcoin_client/ledger_bitcoin/segwit_addr.py:38-42 | The shift is linear over XOR |
| Bech32.PolymodSplits | test/python/apps/bitcoin_client/ledger_bitcoin/segwit_addr.py:34-43 | State and values contribute apart |
| Bech32.ChecksumExactly | test/python/apps/bitcoin_client/ledger_bitcoin/segwit_addr.py:51-65 | Six symbols verify behind the data if and only if they are the ones created for it |
| Bech32.CreateChecksumSymbols | test/python/apps/bitcoin_client/ledger_bitcoin/segwit_addr.py:60-65 | The symbols computed are the checksum |
| Bech32.ShiftInjective | test/python/apps/bitcoin_client/ledger_bitcoin/segwit_addr.py:38-42 | The shift loses nothing |
| Bech32.Unshifted | test/python/apps/bitcoin_client/ledger_bitcoin/segwit_addr.py:38-42 | The state before a shift can be computed from the one after it |
| Bech32.NotReached | test/python/apps/bitcoin_client/ledger_bitcoin/segwit_addr.py:38-42 | A state that no single symbol leads to backwards within some steps is not reached from one by shifting that often |
| Bech32.FarApart | test/python/apps/bitcoin_client/ledger_bitcoin/segwit_addr.py:32 | The difference of the two constants is such a state for 88 steps |
| Bech32.SingleErrorDetected | test/python/apps/bitcoin_client/ledger_bitcoin/segwit_addr.py:51-58 | A valid string with one symbol of its data or checksum changed does not verify for the encoding it had, and with at most 88 symbols behind it, as in every string of up to 90 characters, for neither |
| Bech32.FindsChar | test/python/apps/bitcoin_client/ledger_bitcoin/segwit_addr.py:71-85 | Every symbol is found from its character |
| ConvertBits.Convert | test/python/apps/bitcoin_client/ledger_bitcoin/segwit_addr.py:91-111 | The loop over a masked accumulator regroups the bits; None for a value out of range or bad padding |
| ConvertBits.EmitGroups | test/python/apps/bitcoin_client/ledger_bitcoin/segwit_addr.py:103-105 | The inner loop takes off the full groups |
| ConvertBits.Finish | test/python/apps/bitcoin_client/ledger_bitcoin/segwit_addr.py:106-111 | The padding, or its check |
| ConvertBits.RegroupSpells | test/python/apps/bitcoin_client/ledger_bitcoin/segwit_addr.py:91-111 | Regrouping keeps the number spelled, left-over bits included |
| ConvertBits.PaddedSpells | test/python/apps/bitcoin_client/ledger_bitcoin/segwit_addr.py:106-108 | Padding only scales it, by less than one group |
| ConvertBits.DigitsUnique | test/python/apps/bitcoin_client/ledger_bitcoin/segwit_addr.py:91-111 | Groups of one width are determined by the number they spell |
| ConvertBits.ThereAndBack | test/python/apps/bitcoin_client/ledger_bitcoin/segwit_addr.py:91-111 | To smaller groups with padding and back without is the identity |
| ConvertBits.BackAndThere | test/python/apps/bitcoin_client/ledger_bitcoin/segwit_addr.py:91-111 | And the other way round, where the padding is acceptable |
| Segwit.AddressRoundTrip | test/python/apps/bitcoin_client/ledger_bitcoin/segwit_addr.py:114-136 | encode gives an address if and only if the prefix is legal, the version at most 16, the program legal and the length at most 90; decode then returns the same version and program; what the address is made of is SegwitVectors.AddressMeans |
| Segwit.OnlyEncodingsAreAddresses | test/python/apps/bitcoin_client/ledger_bitcoin/segwit_addr.py:114-136 | What decode accepts is, in lower case, what encode gives for it, which SegwitVectors.AddressMeans spells out |
| SegwitVectors.AddressMeans | test/python/apps/bitcoin_client/ledger_bitcoin/segwit_addr.py:28-136 | An address is its prefix, '1' and characters of the alphabet written out, for the version, the program's bits in groups of five and six more symbols, and the checksum over the expanded prefix and all symbols is 1 in version 0 and 0x2bc830a3 in versions 1 to 16 |
| SegwitVectors.NextIs | test/python/apps/bitcoin_client/ledger_bitcoin/segwit_addr.py:34-43 | One value of the checksum with the generator's five constants written out |
| SegwitVectors.Keyhash | test/python/apps/bitcoin_client/ledger_bitcoin/segwit_addr.py:114-128 | The version 0 address of BIP 173 decodes to its program |
| SegwitVectors.Shortest | test/python/apps/bitcoin_client/ledger_bitcoin/segwit_addr.py:114-128 | The version 16 address of BIP 350, in upper case, decodes to its two bytes |
| Segwit.StringRoundTrip | test/python/apps/bitcoin_client/ledger_bitcoin/segwit_addr.py:68-89 | The Bech32 string decodes to what it was made of if its prefix and length are legal, and to nothing of that prefix otherwise |
| Segwit.OnlyEncodingsDecode | test/python/apps/bitcoin_client/ledger_bitcoin/segwit_addr.py:73-89 | What decodes is, in lower case, an encoding |

## Left out

What the model takes as given:

- Cryptography, the coin applications, the trusted-name TLV parser (SDK code that is not part of this
  repository) and the random generator: parameters and inputs. Library calls are taken not to change the
  context.
- Screens, review titles, transport, logging, stack and memory checksums, profiling hooks, build switches that
  bypass checks (BYPASS_*, TESTING, FIXED_TLV_CHALLENGE), and the separate branches for the Nano S screen.
- Errors of hashing and of the key-derivation library, which cannot be told from success by their inputs.

How the model represents the code:

- Exchange.App: the context is one record value, reassigned field by field. The union of received chunks and
  decoded transaction is a tagged value, `Shared`, beside the byte array the chunks are copied to; that a
  command read from the union stays intact while it is decoded is by the local copy the code makes, and
  commands carry their data by value here.
- Exchange.App: printable texts are the C strings in their buffers, without what follows the terminator; the
  buffer of what is received, which fiat amounts are formatted in, is an array of its own beside its text.
- Exchange.App.FormatFiatAmount: a fiat amount that fills its buffer to the last character has no terminator;
  the text ends with the buffer here, where C would read on into the next field.
- Exchange.App.SetPartnerKey: a key refused by the library leaves the earlier partner key; what the library
  leaves in it is not modelled. It is written again before any use.
- Exchange.App.OnReviewChoice: the reply in a callback is taken as sent; the code ignores its outcome.
- Payloads.PaymentByField and ByField.ReviewByField: they are about payloads that are encodings of items, whose
  known fields have the wire type of their kind; other byte strings the decoder accepts are in
  FlowTheorems.SignedIsProposed and Review.ReviewIsProposed.
- MerkleTrees.MerkleTree.Set: a negative index, which the code refuses, does not exist here.
- ProtocolTables.TablesAreWellFormed: capacities follow the declared sizes; the alignment padding behind byte
  arrays is an assumption.
- Varint.Fast32Exactly: bit positions are unbounded; on the device their width only matters for encodings
  longer than ten bytes, which are not canonical.
- Pb and PbDecoder: required, optional, repeated, packed, oneof, pointer, callback and extension fields are
  left out, and so is proto2; the four tables hold singular proto3 fields only.
- Segwit: characters of a prefix are taken as 0 to 255, values and programs as bytes, and versions as below
  32, beyond which encode raises an IndexError. convertbits is modelled on natural numbers; a negative value
  is refused by the code and does not exist here.
- ClientCommands.ProofDelivered: the known trees are the lists of their leaves; that the tree object gives the
  proof and the leaf is proved in MerkleTrees.
- ClientCommands: raised exceptions are the response `Raised`; adding preimages, lists and mappings is left
  out, their tables are parameters.
- Splitting.ExchangeSplit: the replies are given (Splitting.ClientAndDevice gives them the device's statuses), and an
  exchange with an error status is taken to raise, as
  the transport library does by default.

What the model does not cover:

- A library application that is missing at START_SIGNING (`src/currency_lib_calls.c:170-214`): the call is the
  end of the model. That it exists is enforced by the checks before, as the code's own comment says: by
  FlowTheorems.ShownIsSigned the application and configuration handed over have given texts.
- `MerkleTree.copy`, map commitments, and the PSBT, transaction, key and RIPEMD modules of the helper client.
- The per-coin test clients and the test flows but the one of Conversation; of that, the trusted names a test may
  ask for.
- Compactness and timing: nothing is said of code size, stack use or run time.
