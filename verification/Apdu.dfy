/** APDU checking and the reception of split commands (src/apdu_parser.c). */
module Apdu {
  import opened Common
  import opened Commands
  import opened Flow

  // --- which instruction is welcome ---

  // Instructions of the other kind of flow.
  predicate OfOtherFlow(i: Ins, sub: Sub) {
    if i.AssetInDisplay? || i.AssetInNoDisplay? then sub.IsSwap()
    else (i.CheckPayout? || i.GetChallenge? || i.TrustedName? || i.RefundDisplay? || i.RefundNoDisplay?)
         && !sub.IsSwap()
  }

  // The state an instruction asks for; None when any will do.
  function RequiredState(i: Ins): Option<State> {
    match i
    case GetVersion => None
    case StartNew => None
    case SetPartner => Some(WaitingTransaction)
    case CheckPartner => Some(ProviderSet)
    case Process => Some(ProviderChecked)
    case CheckSignature => Some(TransactionReceived)
    case RefundDisplay => Some(PayoutChecked)
    case RefundNoDisplay => Some(PayoutChecked)
    case Prompt => Some(AllChecked)
    case StartSigning => Some(WaitingSigning)
    case _ => Some(SignatureChecked)
  }

  /** check_instruction: 0 exactly for the instructions of the flow in progress, in the state they ask
      for; during the review none is welcome, and during signing only a restart or the signing. */
  function InstructionStatus(code: byte, sub: Sub, state: State, flow: Sub): nat {
    match InsOf(code)
    case None => INVALID_INSTRUCTION
    case Some(i) =>
      if OfOtherFlow(i, sub) then INVALID_INSTRUCTION
      else if state.WaitingUser? || (state.WaitingSigning? && !i.StartNew? && !i.StartSigning?) then
        UNEXPECTED_INSTRUCTION
      else if !i.GetVersion? && !i.StartNew? && sub != flow then UNEXPECTED_INSTRUCTION
      else if RequiredState(i).Some? && RequiredState(i).value != state then UNEXPECTED_INSTRUCTION
      else 0
  }

  method CheckInstruction(code: byte, sub: Sub, state: State, flow: Sub) returns (status: nat)
    ensures status == InstructionStatus(code, sub, state, flow)
  {
    var other := ForOtherFlow(code, sub);
    if other {
      return INVALID_INSTRUCTION;
    }
    var known, checkContext, duringSigning, current := InstructionRules(code);
    hide InsOf, RequiredState, OfOtherFlow;
    if !known {
      return INVALID_INSTRUCTION;
    }
    if state == WaitingUser {
      return UNEXPECTED_INSTRUCTION;
    }
    if !duringSigning && state == WaitingSigning {
      return UNEXPECTED_INSTRUCTION;
    }
    if checkContext && sub != flow {
      return UNEXPECTED_INSTRUCTION;
    }
    if current.Some? && state != current.value {
      return UNEXPECTED_INSTRUCTION;
    }
    return 0;
  }

  // The checks in front of the switch.
  method ForOtherFlow(code: byte, sub: Sub) returns (other: bool)
    ensures other <==> InsOf(code).Some? && OfOtherFlow(InsOf(code).value, sub)
  {
    if (code == 0x0B || code == 0x0D) && sub.IsSwap() {
      return true;
    }
    if (code == 0x08 || code == 0x10 || code == 0x11) && !sub.IsSwap() {
      return true;
    }
    if (code == 0x09 || code == 0x0C) && !sub.IsSwap() {
      return true;
    }
    return false;
  }

  // The switch.
  method InstructionRules(code: byte) returns (known: bool, checkContext: bool, duringSigning: bool,
                          current: Option<State>)
    ensures match InsOf(code)
            case None => !known
            case Some(i) => known && current == RequiredState(i) && (checkContext <==> !i.GetVersion? && !i.StartNew?)
                            && (duringSigning <==> i.StartNew? || i.StartSigning?)
  {
    known, checkContext, duringSigning, current := true, false, false, None;
    match code {
      case 0x02 => checkContext := false;
      case 0x03 => duringSigning := true;
      case 0x04 => current, checkContext := Some(WaitingTransaction), true;
      case 0x05 => current, checkContext := Some(ProviderSet), true;
      case 0x06 => current, checkContext := Some(ProviderChecked), true;
      case 0x07 => current, checkContext := Some(TransactionReceived), true;
      case 0x10 => current, checkContext := Some(SignatureChecked), true;
      case 0x11 => current, checkContext := Some(SignatureChecked), true;
      case 0x08 => current, checkContext := Some(SignatureChecked), true;
      case 0x0B => current, checkContext := Some(SignatureChecked), true;
      case 0x0D => current, checkContext := Some(SignatureChecked), true;
      case 0x09 => current, checkContext := Some(PayoutChecked), true;
      case 0x0C => current, checkContext := Some(PayoutChecked), true;
      case 0x0F => current, checkContext := Some(AllChecked), true;
      case 0x0A => current, duringSigning, checkContext := Some(WaitingSigning), true, true;
      case _ => known := false;
    }
  }

  // --- headers ---

  // An APDU that passed every check: first and last tell whether it starts and ends a command.
  datatype Header = Header(ins: Ins, rate: byte, sub: Sub, first: bool, last: bool)

  datatype Heading = BadHeader(status: nat) | GoodHeader(header: Header)

  // The legacy code of the asset-in check is that of the payout check.
  function Modern(code: byte, sub: Sub): byte { if code == 0x08 && (sub.Sell? || sub.Fund?) then 0x0B else code }

  function ReadHeader(apdu: Bytes, state: State, flow: Sub): Heading {
    if |apdu| < 5 || apdu[4] != |apdu| - 5 then BadHeader(MALFORMED_APDU)
    else if apdu[0] != CLA then BadHeader(CLASS_NOT_SUPPORTED)
    else if apdu[2] > 1 then BadHeader(WRONG_P1)
    else match SubOf(apdu[3] % 16)
         case None => BadHeader(WRONG_P2_SUBCOMMAND)
         case Some(sub) =>
           var code := Modern(apdu[1], sub);
           var status := InstructionStatus(code, sub, state, flow);
           if status != 0 then BadHeader(status)
           else ReadExtension(code, apdu[2], sub, apdu[3] / 16)
  }

  // The upper half of P2: bit 0 extends an earlier APDU, bit 1 announces more.
  function ReadExtension(code: byte, rate: byte, sub: Sub, extension: nat): Heading {
    var first, last := extension % 2 == 0, extension / 2 % 2 == 0;
    match InsOf(code)
    case None => BadHeader(INVALID_INSTRUCTION)
    case Some(ins) =>
      if extension > 3 then BadHeader(WRONG_P2_EXTENSION)
      else if !(first && last) && (!sub.IsNg() || !ins.Process?) then BadHeader(WRONG_P2_EXTENSION)
      else GoodHeader(Header(ins, rate, sub, first, last))
  }

  // --- headers, byte by byte ---

  function FlowCode(sub: Sub): nat {
    match sub case Swap => 0 case Sell => 1 case Fund => 2 case SwapNg => 3 case SellNg => 4 case FundNg => 5
  }

  // The instruction codes, with the kinds of flow and the states they belong to. 0x08 is the payout check of a
  // swap, and the asset-in check with display of a legacy sell or fund.
  predicate Allowed(code: byte, sub: nat, state: State) {
    var swap := sub == 0 || sub == 3;
    match code
    case 0x02 => !state.WaitingUser? && !state.WaitingSigning?
    case 0x03 => !state.WaitingUser?
    case 0x04 => state.WaitingTransaction?
    case 0x05 => state.ProviderSet?
    case 0x06 => state.ProviderChecked?
    case 0x07 => state.TransactionReceived?
    case 0x08 => (swap || sub == 1 || sub == 2) && state.SignatureChecked?
    case 0x10 => swap && state.SignatureChecked?
    case 0x11 => swap && state.SignatureChecked?
    case 0x0B => !swap && state.SignatureChecked?
    case 0x0D => !swap && state.SignatureChecked?
    case 0x09 => swap && state.PayoutChecked?
    case 0x0C => swap && state.PayoutChecked?
    case 0x0F => state.AllChecked?
    case 0x0A => state.WaitingSigning?
    case _ => false
  }

  // What an instruction code stands for.
  predicate Named(code: byte, swap: bool, ins: Ins) {
    match ins
    case GetVersion => code == 0x02
    case StartNew => code == 0x03
    case SetPartner => code == 0x04
    case CheckPartner => code == 0x05
    case Process => code == 0x06
    case CheckSignature => code == 0x07
    case GetChallenge => code == 0x10
    case TrustedName => code == 0x11
    case CheckPayout => code == 0x08 && swap
    case AssetInDisplay => code == 0x0B || (code == 0x08 && !swap)
    case AssetInNoDisplay => code == 0x0D
    case RefundDisplay => code == 0x09
    case RefundNoDisplay => code == 0x0C
    case Prompt => code == 0x0F
    case StartSigning => code == 0x0A
  }

  // The bytes of a header that is accepted in this state of this flow.
  predicate WellFormedHeader(apdu: Bytes, state: State, flow: Sub) {
    && |apdu| >= 5 && apdu[4] as int == |apdu| - 5 && apdu[0] == 0xE0 && apdu[2] <= 1
    && var sub, extension := apdu[3] as int % 16, apdu[3] as int / 16;
       && sub <= 5 && extension <= 3 && Allowed(apdu[1], sub, state)
       && (apdu[1] != 0x02 && apdu[1] != 0x03 ==> sub == FlowCode(flow))
       && (extension != 0 ==> apdu[1] == 0x06 && sub >= 3)
  }

  /** Which headers are accepted: a complete APDU of class E0, rate 0 or 1, and one of the six subcommands, of an
      instruction for that kind of flow and this state, of the flow in progress but for GET_VERSION and
      START_NEW_TRANSACTION; extension bits come with the proposal of an NG flow only. */
  lemma HeaderExactly(apdu: Bytes, state: State, flow: Sub)
    ensures ReadHeader(apdu, state, flow).GoodHeader? <==> WellFormedHeader(apdu, state, flow)
  {
    hide InstructionStatus, InsOf, SubOf, Allowed;
    if |apdu| >= 5 && apdu[4] as int == |apdu| - 5 && apdu[0] == 0xE0 && apdu[2] <= 1 {
      SubCodes(apdu[3] as int % 16);
      if SubOf(apdu[3] as int % 16).Some? {
        var sub := SubOf(apdu[3] as int % 16).value;
        StatusExactly(apdu[1], sub, state, flow);
      }
    }
  }

  lemma SubCodes(code: nat)
    ensures SubOf(code).Some? <==> code <= 5
    ensures SubOf(code).Some? ==> FlowCode(SubOf(code).value) == code && (SubOf(code).value.IsNg() <==> code >= 3)
  {
  }

  lemma StatusExactly(code: byte, sub: Sub, state: State, flow: Sub)
    ensures InstructionStatus(Modern(code, sub), sub, state, flow) == 0 <==>
            Allowed(code, FlowCode(sub), state) && (code == 0x02 || code == 0x03 || FlowCode(sub) == FlowCode(flow))
    ensures InsOf(Modern(code, sub)).Some? && InsOf(Modern(code, sub)).value.Process? <==> code == 0x06
    ensures Allowed(code, FlowCode(sub), state) ==> InsOf(Modern(code, sub)).Some?
  {
    hide Allowed, InstructionStatus;
    AllowedIs(code, sub, state);
    KnownCodes(code, sub);
    StatusIs(Modern(code, sub), sub, state, flow);
    assert FlowCode(sub) == FlowCode(flow) <==> sub == flow;
  }

  // The table in terms of the instruction.
  lemma AllowedIs(code: byte, sub: Sub, state: State)
    ensures Allowed(code, FlowCode(sub), state) <==>
            match InsOf(Modern(code, sub))
            case None => false
            case Some(ins) =>
              !OfOtherFlow(ins, sub)
              && match RequiredState(ins)
                 case Some(s) => state == s
                 case None => !state.WaitingUser? && (ins.StartNew? || !state.WaitingSigning?)
  {
  }

  lemma KnownCodes(code: byte, sub: Sub)
    ensures InsOf(Modern(code, sub)).Some? && InsOf(Modern(code, sub)).value.Process? <==> code == 0x06
    ensures InsOf(Modern(code, sub)) == Some(GetVersion) <==> code == 0x02
    ensures InsOf(Modern(code, sub)) == Some(StartNew) <==> code == 0x03
  {
  }

  lemma StatusIs(code: byte, sub: Sub, state: State, flow: Sub)
    ensures InstructionStatus(code, sub, state, flow) == 0 <==>
            match InsOf(code)
            case None => false
            case Some(ins) =>
              && !OfOtherFlow(ins, sub) && (ins.GetVersion? || ins.StartNew? || sub == flow)
              && match RequiredState(ins)
                 case Some(s) => state == s
                 case None => !state.WaitingUser? && (ins.StartNew? || !state.WaitingSigning?)
  {
    hide InsOf, OfOtherFlow;
  }

  /** And what they mean. */
  lemma HeaderMeans(apdu: Bytes, state: State, flow: Sub)
    requires ReadHeader(apdu, state, flow).GoodHeader?
    ensures var h := ReadHeader(apdu, state, flow).header;
            && |apdu| >= 5 && h.rate == apdu[2] && FlowCode(h.sub) == apdu[3] as int % 16
            && Named(apdu[1], h.sub.IsSwap(), h.ins)
            && (h.first <==> apdu[3] as int / 16 % 2 == 0) && (h.last <==> apdu[3] as int / 32 % 2 == 0)
  {
    hide InstructionStatus, InsOf, SubOf, Named;
    SubCodes(apdu[3] as int % 16);
    var sub := SubOf(apdu[3] as int % 16).value;
    NamesExactly(apdu[1], sub);
    PayoutOfSwap(Modern(apdu[1], sub), sub, state, flow);
  }

  lemma NamesExactly(code: byte, sub: Sub)
    ensures match InsOf(Modern(code, sub))
            case None => true
            case Some(ins) => (ins.CheckPayout? ==> sub.IsSwap()) ==> Named(code, sub.IsSwap(), ins)
  {
  }

  lemma PayoutOfSwap(code: byte, sub: Sub, state: State, flow: Sub)
    requires InstructionStatus(code, sub, state, flow) == 0
    ensures InsOf(code).Some? && (InsOf(code).value.CheckPayout? ==> sub.IsSwap())
  {
  }

  /** The status words of headers that are refused, first reason first. */
  lemma HeaderRefusals(apdu: Bytes, state: State, flow: Sub)
    ensures var r := ReadHeader(apdu, state, flow);
            if |apdu| < 5 || apdu[4] as int != |apdu| - 5 then r == BadHeader(0x6E01)
            else if apdu[0] != 0xE0 then r == BadHeader(0x6E00)
            else if apdu[2] > 1 then r == BadHeader(0x6A86)
            else if apdu[3] as int % 16 > 5 then r == BadHeader(0x6A87)
            else r.BadHeader? ==> r.status == 0x6D00 || r.status == 0x6D01 || r.status == 0x6A88
  {
    hide InsOf, SubOf, OfOtherFlow, RequiredState;
    if |apdu| >= 4 { SubCodes(apdu[3] as int % 16); }
  }

  // --- reception ---

  // What is remembered of the last APDU received.
  datatype Rx = Rx(expecting: bool, instruction: byte, rate: byte, subcommand: byte, length: nat)

  const NO_RX: Rx := Rx(false, 0, 0, 0, 0)

  datatype Chunk = Chunk(header: Header, data: Bytes)

  datatype Reception =
    | Rejected(status: nat)
    | More(rx: Rx, shared: Shared, chunk: Chunk)
    | Complete(rx: Rx, shared: Shared, chunk: Chunk, command: Command)

  function ChunksIn(s: Shared): Bytes { if s.Chunks? then s.data else [] }

  predicate Matching(rx: Rx, h: Header) {
    rx.instruction == InsCode(h.ins) && rx.rate == h.rate && rx.subcommand == SubCode(h.sub)
  }

  function Receive(rx: Rx, shared: Shared, chunk: Chunk): Reception {
    var h, data := chunk.header, chunk.data;
    if h.first then
      var started := Rx(true, InsCode(h.ins), h.rate, SubCode(h.sub), |data|);
      if !h.last then More(started, Chunks(data), chunk)
      else Complete(started.(expecting := false), shared, chunk, Command(h.ins, h.rate, h.sub, data))
    else if !rx.expecting || !Matching(rx, h) || rx.length + |data| > RAW_TRANSACTION_SIZE then
      Rejected(INVALID_P2_EXTENSION)
    else
      var all := ChunksIn(shared) + data;
      var extended := rx.(length := rx.length + |data|);
      if !h.last then More(extended, Chunks(all), chunk)
      else Complete(extended.(expecting := false), Chunks(all), chunk, Command(h.ins, h.rate, h.sub, all))
  }

  /** check_apdu_validity. */
  function Accept(rx: Rx, shared: Shared, state: State, flow: Sub, apdu: Bytes): Reception {
    match ReadHeader(apdu, state, flow)
    case BadHeader(status) => Rejected(status)
    case GoodHeader(h) => Receive(rx, shared, Chunk(h, apdu[5..]))
  }
}
