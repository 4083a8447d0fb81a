/** The events that travel from a SatelliteAgent to its SatelliteController. */
module EventVocabulary {
  import opened Wrappers

  datatype Interface =
    AuthTokenProvider | Energy | EvseManager | DcExternalDerate | Iso15118Extensions | RfidTokenProvider | System | UkRandomDelay

  datatype Variable =
    | ProvidedToken | EnergyFlowRequest
    | SessionEvent | Limits | EvInfo | CarManufacturer | Telemetry | Powermeter | PowermeterPublicKeyOcmf | EvseId
    | HwCapabilities | EnforcedLimits | WaitingForExternalReady | Ready | SelectedProtocol | SupportedEnergyTransferModes
    | PlugTemperatureC
    | Iso15118CertificateRequest | ChargingNeeds | ServiceRenegotiationSupported
    | FirmwareUpdateStatus | LogStatus
    | Countdown

  /** An id token carries the connectors it is for, if known; every other value is opaque. */
  datatype Value = Token(token: int, connectors: Option<seq<int>>) | Opaque(content: int)

  datatype Event = Event(interface: Interface, variable: Variable, value: Value)

  datatype ErrorEvent = Raise(error: int) | Clear(error: int)

  /** The variables the agent subscribes to and queues. */
  predicate Subscribed(e: Event) {
    match e.interface
    case AuthTokenProvider => e.variable.ProvidedToken? && e.value.Token?
    case Energy => e.variable.EnergyFlowRequest?
    case EvseManager =>
      e.variable in {SessionEvent, Limits, EvInfo, CarManufacturer, Telemetry, Powermeter, PowermeterPublicKeyOcmf, EvseId,
                     HwCapabilities, EnforcedLimits, WaitingForExternalReady, Ready, SelectedProtocol,
                     SupportedEnergyTransferModes}
    case DcExternalDerate => e.variable.PlugTemperatureC?
    case Iso15118Extensions =>
      e.variable in {Iso15118CertificateRequest, ChargingNeeds, EvInfo, ServiceRenegotiationSupported}
    case RfidTokenProvider => e.variable.ProvidedToken? && e.value.Token?
    case System => e.variable in {FirmwareUpdateStatus, LogStatus}
    case UkRandomDelay => e.variable.Countdown?
  }

  /** The tests by which the controller selects a publisher; an event that passes none is dropped. */
  predicate HasPublisher(e: Event) {
    var i, v := e.interface, e.variable;
    || (i == AuthTokenProvider && v == ProvidedToken)
    || (i == Energy && v == EnergyFlowRequest)
    || (i == EvseManager &&
        (v == SessionEvent || v == Limits || v == EvInfo || v == CarManufacturer || v == Telemetry || v == Powermeter
         || v == PowermeterPublicKeyOcmf || v == EvseId || v == HwCapabilities || v == EnforcedLimits
         || v == WaitingForExternalReady || v == Ready || v == SelectedProtocol || v == SupportedEnergyTransferModes))
    || (i == DcExternalDerate && v == PlugTemperatureC)
    || (i == Iso15118Extensions &&
        (v == Iso15118CertificateRequest || v == ChargingNeeds || v == EvInfo || v == ServiceRenegotiationSupported))
    || (i == RfidTokenProvider && v == ProvidedToken)
    || (i == System && (v == FirmwareUpdateStatus || v == LogStatus))
    || (i == UkRandomDelay && v == Countdown)
  }

  /** The interfaces that provide a variable. */
  function InterfacesOf(v: Variable): set<Interface> {
    match v
    case ProvidedToken => {AuthTokenProvider, RfidTokenProvider}
    case EnergyFlowRequest => {Energy}
    case EvInfo => {EvseManager, Iso15118Extensions}
    case SessionEvent | Limits | CarManufacturer | Telemetry | Powermeter | PowermeterPublicKeyOcmf | EvseId | HwCapabilities
       | EnforcedLimits | WaitingForExternalReady | Ready | SelectedProtocol | SupportedEnergyTransferModes => {EvseManager}
    case PlugTemperatureC => {DcExternalDerate}
    case Iso15118CertificateRequest | ChargingNeeds | ServiceRenegotiationSupported => {Iso15118Extensions}
    case FirmwareUpdateStatus | LogStatus => {System}
    case Countdown => {UkRandomDelay}
  }

  /** Both sides know the same variables of the same interfaces. */
  lemma SameVocabulary(e: Event)
    ensures HasPublisher(e) <==> e.interface in InterfacesOf(e.variable)
    ensures Subscribed(e) <==> e.interface in InterfacesOf(e.variable) && (e.variable == ProvidedToken ==> e.value.Token?)
  {}

  /** EVerest's mapping of a module, or of one of its implementations. */
  datatype Mapping = Mapping(evse: int, connector: Option<int>)

  datatype Mappings = Mappings(implementation: Option<Mapping>, ofModule: Option<Mapping>) {
    /** The connector that RFID tokens are for. */
    function ConnectorId(): Option<int> {
      match if implementation.Some? then implementation else ofModule
      case Some(m) => Some(m.connector.ValueOr(m.evse))
      case None => None
    }
  }

  /** Tokens of the RFID reader are published for the connector the controller is mapped to, unless they name
      connectors themselves. */
  function ForConnector(connector: Option<int>, e: Event): Event {
    if e.interface == RfidTokenProvider && e.value.Token? && connector.Some? && e.value.connectors.None? then
      e.(value := e.value.(connectors := Some([connector.value])))
    else e
  }
}
