/** One round of the main loop (src/main.c) and the review callbacks (src/ui/validate_transaction_nbgl.c),
    as a step from one state of the device to the next, with the history of the flow beside it. */
module Device {
  import opened Common
  import opened Commands
  import opened Flow
  import opened Apdu

  // --- history ---

  // What has happened since the latest START_NEW_TRANSACTION: commands that succeeded, payout
  // addresses the coin application did not recognise, and the approval of the review.
  datatype Event =
    | Started(sub: Sub, id: Bytes)
    | Did(command: Command)
    | Strange(command: Command)
    | Approved(review: seq<Pair>)

  // --- state ---

  datatype Ui = Idle | WarningShown(pairs: seq<Pair>) | ReviewShown(pairs: seq<Pair>)

  // The device, the events of the flow in progress, and every APDU accepted so far.
  datatype World = World(
    context: Context, rx: Rx, ui: Ui, challenge: Word, log: seq<Event>, accepted: seq<Chunk>)

  // An APDU comes with the random bytes drawn for it, whether the reply could be sent, and the next
  // challenge; the other inputs are a failed reception, the user's answers, and an I/O reset.
  datatype Input =
    | Apdu(bytes: Bytes, rng: Random, sent: bool, roll: Word)
    | ReceptionFailed(roll: Word)
    | WarningChoice(confirm: bool)
    | ReviewChoice(confirm: bool)
    | IoReset(roll: Word)

  datatype Output = Replied(status: nat, data: Bytes) | Launched(request: Request)

  function Boot(challenge: Word): World { World(ZERO, NO_RX, Idle, challenge, [], []) }

  // --- steps ---

  // The coin application rejects the payout address of a command.
  predicate SeesForeign(p: Platform, c: Context, cmd: Command) {
    var m := MessageIn(c.shared);
    cmd.ins.CheckPayout? && c.sub.IsSwap() && Terminated(AddressOf(cmd.ins, m))
    && match ReadCheck(p, c.ledgerKey, m, cmd)
       case Refused(_) => false
       case Readable(check) => AddressVerdict(p, cmd.ins, m, check).Foreign?
  }

  function Noted(p: Platform, c: Context, cmd: Command, log: seq<Event>): seq<Event> {
    if SeesForeign(p, c, cmd) then log + [Strange(cmd)] else log
  }

  // The history after a reply.
  function Logged(p: Platform, before: Context, cmd: Command, after: Context, status: nat,
                  log: seq<Event>): seq<Event> {
    if cmd.ins.StartNew? then (if status == SUCCESS then [Started(cmd.sub, after.id)] else [])
    else if cmd.ins.GetVersion? || cmd.ins.GetChallenge? then log
    else if status == SUCCESS then Noted(p, before, cmd, log) + [Did(cmd)]
    else Noted(p, before, cmd, log)
  }

  // ui_validate_amounts: on a large screen a foreign payout address is warned about first.
  function Prompted(p: Platform, c: Context): Ui {
    if c.otherSeed && p.wallet then WarningShown(ReviewPairs(p, c)) else ReviewShown(ReviewPairs(p, c))
  }

  // A fatal error clears the context, not what was received.
  function Fatal(w: World, roll: Word): World { w.(context := ZERO, ui := Idle, challenge := roll, log := []) }

  function Dispatch(p: Platform, w: World, cmd: Command, rng: Random, sent: bool, roll: Word): (World, seq<Output>) {
    var challenge := if cmd.ins.TrustedName? then roll else w.challenge;
    match Handle(p, w.context, cmd, rng, w.challenge)
    case Reply(c, status, data) =>
      if !sent then (Fatal(w, roll), [])
      else
        var log := Logged(p, w.context, cmd, c, status, w.log);
        (w.(context := c, challenge := challenge, log := log), [Replied(status, data)])
    case Display(c) =>
      var log := Noted(p, w.context, cmd, w.log) + [Did(cmd)];
      (w.(context := c, ui := Prompted(p, c), challenge := challenge, log := log), [])
    case Missing(c) =>
      (w.(context := c, ui := Idle, challenge := roll, log := Noted(p, w.context, cmd, w.log)),
       [Replied(APPLICATION_NOT_INSTALLED, [])])
    case Launch(request) =>
      if !sent then (Fatal(w, roll), [])
      else (Boot(roll).(accepted := w.accepted), [Replied(SUCCESS, []), Launched(request)])
  }

  function Refusal(w: World, status: nat): (World, seq<Output>) {
    (w.(context := w.context.(state := Initial), ui := Idle, log := []), [Replied(status, [])])
  }

  function Step(p: Platform, w: World, i: Input): (World, seq<Output>) {
    match i
    case Apdu(bytes, rng, sent, roll) =>
      (match Accept(w.rx, w.context.shared, w.context.state, w.context.sub, bytes)
       case Rejected(status) => (w, if sent then [Replied(status, [])] else [])
       case More(rx, shared, chunk) =>
         (w.(rx := rx, context := w.context.(shared := shared), accepted := w.accepted + [chunk]),
          if sent then [Replied(SUCCESS, [])] else [])
       case Complete(rx, shared, chunk, cmd) =>
         var received := w.(rx := rx, context := w.context.(shared := shared), accepted := w.accepted + [chunk]);
         Dispatch(p, received, cmd, rng, sent, roll))
    case ReceptionFailed(roll) => (Fatal(w, roll), [])
    case WarningChoice(confirm) =>
      if !w.ui.WarningShown? then (w, [])
      else if confirm then (w.(ui := ReviewShown(w.ui.pairs)), [])
      else Refusal(w, USER_REFUSED_CROSS_SEED)
    case ReviewChoice(confirm) =>
      if !w.ui.ReviewShown? then (w, [])
      else if confirm then
        (w.(context := w.context.(state := WaitingSigning), ui := Idle, log := w.log + [Approved(w.ui.pairs)]),
         [Replied(SUCCESS, [])])
      else Refusal(w, if !p.wallet && w.context.otherSeed then USER_REFUSED_CROSS_SEED else USER_REFUSED_TRANSACTION)
    case IoReset(roll) => (w.(ui := Idle, challenge := roll), [])
  }

  function Run(p: Platform, boot: Word, inputs: seq<Input>): World {
    if inputs == [] then Boot(boot)
    else Step(p, Run(p, boot, inputs[..|inputs| - 1]), inputs[|inputs| - 1]).0
  }
}
