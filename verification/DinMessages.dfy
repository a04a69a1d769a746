/**
 The DIN SPEC 70121 messages exchanged by the EV (EVCC) and the charging
 station (SECC), reduced to the fields that steer either state machine.
 */
module DinMessages {
  import opened Common

  /** A protocol phase names a request/response pair and the state that handles it. */
  datatype Phase =
    | SessionSetup
    | ServiceDiscovery
    | ServicePaymentSelection
    | ContractAuthentication
    | ChargeParameterDiscovery
    | CableCheck
    | PreCharge
    | PowerDelivery
    | CurrentDemand
    | WeldingDetection
    | SessionStop

  datatype EnergyMode = AcSinglePhaseCore | AcThreePhaseCore | DcCore | DcExtended | DcComboCore | DcUnique

  datatype IsolationLevel = Invalid | Valid | Warning | Fault | NoImd

  datatype ResponseCode =
    | Ok
    | OkNewSessionEstablished
    | OkOldSessionJoined
    | Failed
    | FailedSequenceError
    | FailedUnknownSession
    | FailedServiceSelectionInvalid
    | FailedPaymentSelectionInvalid
    | FailedWrongEnergyTransferMode
  {
    /** True of the codes whose text contains "FAILED". */
    predicate Negative() {
      !Ok? && !OkNewSessionEstablished? && !OkOldSessionJoined?
    }
  }

  /** `UnrecognisedReq` is a body for which no failure response is registered, such as a response or an empty body. */
  datatype Request =
    | SessionSetupReq
    | ServiceDiscoveryReq
    | ServicePaymentSelectionReq(eim: bool, services: nat)
    | ContractAuthenticationReq
    | ChargeParameterDiscoveryReq(mode: EnergyMode)
    | CableCheckReq(evOk: bool)
    | PreChargeReq(evOk: bool, targetVoltage: real, targetCurrent: real)
    | PowerDeliveryReq(ready: bool, hasParameter: bool)
    | CurrentDemandReq(targetVoltage: real, targetCurrent: real)
    | WeldingDetectionReq
    | SessionStopReq
    | UnrecognisedReq
  {
    function Kind(): Option<Phase> {
      match this
      case SessionSetupReq => Some(SessionSetup)
      case ServiceDiscoveryReq => Some(ServiceDiscovery)
      case ServicePaymentSelectionReq(_, _) => Some(ServicePaymentSelection)
      case ContractAuthenticationReq => Some(ContractAuthentication)
      case ChargeParameterDiscoveryReq(_) => Some(ChargeParameterDiscovery)
      case CableCheckReq(_) => Some(CableCheck)
      case PreChargeReq(_, _, _) => Some(PreCharge)
      case PowerDeliveryReq(_, _) => Some(PowerDelivery)
      case CurrentDemandReq(_, _) => Some(CurrentDemand)
      case WeldingDetectionReq => Some(WeldingDetection)
      case SessionStopReq => Some(SessionStop)
      case UnrecognisedReq => None
    }
  }

  /** `schedules` counts the offered schedule tuples; zero stands for a missing or empty list. */
  datatype Response =
    | SessionSetupRes(code: ResponseCode)
    | ServiceDiscoveryRes(code: ResponseCode, eimOffered: bool, offeredMode: EnergyMode)
    | ServicePaymentSelectionRes(code: ResponseCode)
    | ContractAuthenticationRes(code: ResponseCode, finished: bool)
    | ChargeParameterDiscoveryRes(code: ResponseCode, finished: bool, schedules: nat)
    | CableCheckRes(code: ResponseCode, finished: bool, evseReady: bool, isolation: IsolationLevel)
    | PreChargeRes(code: ResponseCode, presentVoltage: real)
    | PowerDeliveryRes(code: ResponseCode)
    | CurrentDemandRes(code: ResponseCode, evseReady: bool)
    | WeldingDetectionRes(code: ResponseCode)
    | SessionStopRes(code: ResponseCode)
    | UnrecognisedRes
  {
    function Kind(): Option<Phase> {
      match this
      case SessionSetupRes(_) => Some(SessionSetup)
      case ServiceDiscoveryRes(_, _, _) => Some(ServiceDiscovery)
      case ServicePaymentSelectionRes(_) => Some(ServicePaymentSelection)
      case ContractAuthenticationRes(_, _) => Some(ContractAuthentication)
      case ChargeParameterDiscoveryRes(_, _, _) => Some(ChargeParameterDiscovery)
      case CableCheckRes(_, _, _, _) => Some(CableCheck)
      case PreChargeRes(_, _) => Some(PreCharge)
      case PowerDeliveryRes(_) => Some(PowerDelivery)
      case CurrentDemandRes(_, _) => Some(CurrentDemand)
      case WeldingDetectionRes(_) => Some(WeldingDetection)
      case SessionStopRes(_) => Some(SessionStop)
      case UnrecognisedRes => None
    }

    /** An answer that asks the EV to repeat its request. */
    predicate Ongoing() {
      (ContractAuthenticationRes? || ChargeParameterDiscoveryRes? || CableCheckRes?) && !finished
    }
  }

  /** A body together with the session identifier of its header. */
  datatype Message<T> = Message(sessionId: string, body: T)

  /** The minimal failure response registered for each request. */
  function FailedResponse(kind: Phase, code: ResponseCode): (r: Response)
    ensures r.Kind() == Some(kind) && r.code == code
  {
    match kind
    case SessionSetup => SessionSetupRes(code)
    case ServiceDiscovery => ServiceDiscoveryRes(code, true, DcExtended)
    case ServicePaymentSelection => ServicePaymentSelectionRes(code)
    case ContractAuthentication => ContractAuthenticationRes(code, true)
    case ChargeParameterDiscovery => ChargeParameterDiscoveryRes(code, true, 0)
    case CableCheck => CableCheckRes(code, true, false, Invalid)
    case PreCharge => PreChargeRes(code, 0.0)
    case PowerDelivery => PowerDeliveryRes(code)
    case CurrentDemand => CurrentDemandRes(code, false)
    case WeldingDetection => WeldingDetectionRes(code)
    case SessionStop => SessionStopRes(code)
  }

  /** What a state decided about its successor; `Stay` is a next state of None. */
  datatype Next = Stay | Goto(phase: Phase) | Terminate
}
