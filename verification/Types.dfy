/** Data the Blinker app works on: messages as they arrive on its pipe, the
    outputs it produces, and the part of its global structure that commands,
    ticks and housekeeping requests read or write. */
module Types {

  type uint8 = x: int | 0 <= x < 0x100
  type uint16 = x: int | 0 <= x < 0x1_0000
  type uint32 = x: int | 0 <= x < 0x1_0000_0000
  type int16 = x: int | -0x8000 <= x < 0x8000

  // Function codes of ground commands.
  const NOOP_CC: uint16 := 0
  const RESET_COUNTERS_CC: uint16 := 1
  const PROCESS_CC: uint16 := 2
  const DISPLAY_PARAM_CC: uint16 := 3
  const RESET_ALL_BLINKERS_CC: uint16 := 4
  const RESET_SPEC_BLINKER_CC: uint16 := 5
  const REPORT_SPEC_BLINKER_CC: uint16 := 6
  const ENABLE_SPEC_BLINKER_CC: uint16 := 7
  const DISABLE_SPEC_BLINKER_CC: uint16 := 8
  const ENABLE_ALL_BLINKERS_CC: uint16 := 9
  const DISABLE_ALL_BLINKERS_CC: uint16 := 10
  const SWAP_TWO_BLINKERS_CC: uint16 := 11

  /** Build-time parameters. `n` is the number of blinkers; `allBound` is the
      exclusive bound of the loops in the three "all" commands, which the source
      sets to n - 1 and whose event texts suggest n. Structure sizes and message
      IDs come from framework headers and stay symbolic. */
  datatype ConfigData = Config(
    n: nat, allBound: nat,
    cmdMid: uint32, hkMid: uint32, blinkMid: uint32,
    noArgsSize: nat, displaySize: nat, specSize: nat, swapSize: nat)
  {
    predicate Valid() {
      && 1 <= n <= 0x1_0000 && allBound <= n
      && cmdMid != hkMid && cmdMid != blinkMid && hkMid != blinkMid
    }

    predicate AsWritten() { allBound == n - 1 }

    predicate Intended() { allBound == n }
  }

  type Config = c: ConfigData | c.Valid()
    witness Config(8, 7, 0x1882, 0x1883, 0x0899, 8, 24, 12, 12)

  datatype Param = Param(valU32: uint32, valI16: int16, valStr: string)

  /** A message on the pipe. `word1` and `word2` are the two 16-bit words that
      follow the header of a specific-blinker or a swap command. */
  datatype Message = Message(mid: uint32, code: uint16, size: nat, word1: uint16, word2: uint16, param: Param)

  /** Housekeeping payload. */
  datatype Hk = Hk(errors: uint16, commands: uint16, statuses: seq<uint8>, counts: seq<uint32>)

  datatype State = State(
    counts: seq<uint16>, statuses: seq<uint8>, cmdCounter: uint8, errCounter: uint8, hk: Hk)

  /** One constructor for each format string the app passes to the event service. */
  datatype Event =
    | LengthError(mid: uint32, code: uint16, size: nat, expected: nat)
    | CodeError(code: uint16)
    | MidError(mid: uint32)
    | NumberError(i: uint16)
    | PairError(i: uint16, j: uint16)
    | NoopInfo
    | CountersReset
    | ParamInfo(p: Param)
    | AllReset
    | AllEnabled
    | AllDisabled
    | BlinkerReset(i: uint16)
    | BlinkerCount(i: uint16, count: uint16)
    | BlinkerEnabled(i: uint16)
    | BlinkerDisabled(i: uint16)
    | Swapped(i: uint16, j: uint16, count1: uint16, count2: uint16)
    | PipeReadError
    | PipeCreateError(status: int)
    | HkSubscribeError(status: int)
    | CmdSubscribeError(status: int)
    | TableRegisterError(status: int)
    | Initialized
  {
    /** Event type ERROR, as opposed to INFORMATION. */
    predicate IsError() {
      LengthError? || CodeError? || MidError? || NumberError? || PairError? || PipeReadError?
      || PipeCreateError? || HkSubscribeError? || CmdSubscribeError? || TableRegisterError?
    }

    /** The event ID; all the blinker reports share one. */
    function Id(): nat {
      match this
      case Initialized => 1
      case CodeError(_) => 2
      case NumberError(_) => 2
      case PairError(_, _) => 2
      case NoopInfo => 3
      case CountersReset => 4
      case MidError(_) => 5
      case LengthError(_, _, _, _) => 6
      case PipeReadError => 7
      case ParamInfo(_) => 8
      case PipeCreateError(_) => 9
      case HkSubscribeError(_) => 10
      case CmdSubscribeError(_) => 11
      case TableRegisterError(_) => 12
      case _ => 16
    }
  }

  /** The framework calls whose status `Init` checks. */
  datatype InitCall =
    EvsRegister | CreatePipe | SubscribeHk | SubscribeCmd | SubscribeBlink | TableRegister | TableLoad

  /** The order in which `Init` makes them. */
  const INIT_CALLS: seq<InitCall> :=
    [EvsRegister, CreatePipe, SubscribeHk, SubscribeCmd, SubscribeBlink, TableRegister, TableLoad]

  /** Run status of an app; the framework has more values than the app names. */
  datatype RunStatus = AppRun | AppError | Other(code: uint32)

  /** What the outside world sees, in order. */
  datatype Output = Sent(event: Event) | Telemetry(packet: Hk) | Called(call: InitCall)
}
