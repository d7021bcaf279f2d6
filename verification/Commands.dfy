/** Instructions, flows and status words of the exchange protocol (src/commands.h, src/states.h,
    src/swap_errors.h). */
module Commands {
  import opened Common

  datatype Sub = Swap | Sell | Fund | SwapNg | SellNg | FundNg {
    predicate IsSwap() { Swap? || SwapNg? }
    predicate IsSell() { Sell? || SellNg? }
    predicate IsFund() { Fund? || FundNg? }
    predicate IsNg() { SwapNg? || SellNg? || FundNg? }
  }

  datatype Ins =
    | GetVersion | StartNew | SetPartner | CheckPartner | Process | CheckSignature | GetChallenge | TrustedName
    | CheckPayout | AssetInDisplay | AssetInNoDisplay | RefundDisplay | RefundNoDisplay | Prompt | StartSigning

  datatype State =
    | Initial | WaitingTransaction | ProviderSet | ProviderChecked | TransactionReceived | SignatureChecked
    | PayoutChecked | AllChecked | WaitingUser | WaitingSigning | SignFinished

  // A complete command.
  datatype Command = Command(ins: Ins, rate: byte, sub: Sub, data: Bytes)

  function SubOf(code: nat): (r: Option<Sub>)
    ensures r.Some? ==> SubCode(r.value) == code
  {
    match code
    case 0 => Some(Swap)
    case 1 => Some(Sell)
    case 2 => Some(Fund)
    case 3 => Some(SwapNg)
    case 4 => Some(SellNg)
    case 5 => Some(FundNg)
    case _ => None
  }

  function SubCode(s: Sub): byte {
    match s case Swap => 0 case Sell => 1 case Fund => 2 case SwapNg => 3 case SellNg => 4 case FundNg => 5
  }

  function InsOf(code: byte): (r: Option<Ins>)
    ensures r.Some? ==> InsCode(r.value) == code
  {
    match code
    case 0x02 => Some(GetVersion)
    case 0x03 => Some(StartNew)
    case 0x04 => Some(SetPartner)
    case 0x05 => Some(CheckPartner)
    case 0x06 => Some(Process)
    case 0x07 => Some(CheckSignature)
    case 0x10 => Some(GetChallenge)
    case 0x11 => Some(TrustedName)
    case 0x08 => Some(CheckPayout)
    case 0x0B => Some(AssetInDisplay)
    case 0x0D => Some(AssetInNoDisplay)
    case 0x09 => Some(RefundDisplay)
    case 0x0C => Some(RefundNoDisplay)
    case 0x0F => Some(Prompt)
    case 0x0A => Some(StartSigning)
    case _ => None
  }

  function InsCode(i: Ins): byte {
    match i
    case GetVersion => 0x02
    case StartNew => 0x03
    case SetPartner => 0x04
    case CheckPartner => 0x05
    case Process => 0x06
    case CheckSignature => 0x07
    case GetChallenge => 0x10
    case TrustedName => 0x11
    case CheckPayout => 0x08
    case AssetInDisplay => 0x0B
    case AssetInNoDisplay => 0x0D
    case RefundDisplay => 0x09
    case RefundNoDisplay => 0x0C
    case Prompt => 0x0F
    case StartSigning => 0x0A
  }

  const CLA: nat := 0xE0
  const RAW_TRANSACTION_SIZE: nat := 512

  const INCORRECT_COMMAND_DATA: nat := 0x6A80
  const DESERIALIZATION_FAILED: nat := 0x6A81
  const WRONG_TRANSACTION_ID: nat := 0x6A82
  const INVALID_ADDRESS: nat := 0x6A83
  const USER_REFUSED_TRANSACTION: nat := 0x6A84
  const INTERNAL_ERROR: nat := 0x6A85
  const WRONG_P1: nat := 0x6A86
  const WRONG_P2_SUBCOMMAND: nat := 0x6A87
  const WRONG_P2_EXTENSION: nat := 0x6A88
  const INVALID_P2_EXTENSION: nat := 0x6A89
  const AMOUNT_FORMATTING_FAILED: nat := 0x6A8B
  const APPLICATION_NOT_INSTALLED: nat := 0x6A8C
  const WRONG_EXTRA_ID_OR_EXTRA_DATA: nat := 0x6A8D
  const WRONG_TLV_CHALLENGE: nat := 0x6A8E
  const WRONG_TLV_CONTENT: nat := 0x6A8F
  const MISSING_TLV_CONTENT: nat := 0x6A90
  const WRONG_TRUSTED_NAME_TLV: nat := 0x6A91
  const USER_REFUSED_CROSS_SEED: nat := 0x6A92
  const CLASS_NOT_SUPPORTED: nat := 0x6E00
  const MALFORMED_APDU: nat := 0x6E01
  const INVALID_INSTRUCTION: nat := 0x6D00
  const UNEXPECTED_INSTRUCTION: nat := 0x6D01
  const DESCRIPTOR_NOT_USED: nat := 0x6D02
  const SIGN_VERIFICATION_FAIL: nat := 0x9D1A
  const SUCCESS: nat := 0x9000
}
