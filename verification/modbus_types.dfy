/**
 The records the Modbus poller keeps and the abstract inverter it polls.

 Every quantity the inverter reports is a `real`: the model keeps the values
 but not their floating-point representation. The inverter itself is an
 oracle: each call it could make is answered by a field of `Device`.
 */
module ModbusTypes {

  /** How the gateway classifies an error it reports. */
  datatype Severity = Transient | Fatal | Shutdown

  /** An error reported by the gateway or by one of its getters. */
  datatype ModbusError = ModbusError(code: int, message: string, severity: Severity)

  datatype Option<T> = None | Some(value: T)

  /** A getter's answer: a value or the error it failed with. */
  datatype Result<T> = Ok(value: T) | Err(error: ModbusError)

  /** The answer of a call that yields nothing but may fail (`std::expected<void, ModbusError>`). */
  datatype Status = Done | Failed(error: ModbusError)

  // ---------------------------------------------------------------------
  // Snapshot records; every numeric field starts at zero
  // ---------------------------------------------------------------------

  /** One DC input (MPP tracker) of the inverter. */
  datatype Input = Input(dcVoltage: real, dcCurrent: real, dcPower: real, dcEnergy: real)

  /** One AC phase. */
  datatype Phase = Phase(acVoltage: real, acCurrent: real)

  /** Everything one successful values update reads. */
  datatype Values = Values(
    time: nat,                 // milliseconds since the epoch
    acEnergy: real,
    acPowerActive: real,
    acPowerApparent: real,
    acPowerReactive: real,
    acPowerFactor: real,
    phase1: Phase,
    phase2: Phase,
    phase3: Phase,
    acFrequency: real,
    dcPower: real,
    efficiency: real,
    input1: Input,
    input2: Input)

  /** The inverter's state: active state code, state text, active events in order. */
  datatype Events = Events(activeCode: int, state: string, events: seq<string>)

  const ZeroPhase: Phase := Phase(0.0, 0.0)
  const ZeroInput: Input := Input(0.0, 0.0, 0.0, 0.0)
  const ZeroValues: Values :=
    Values(0, 0.0, 0.0, 0.0, 0.0, 0.0, ZeroPhase, ZeroPhase, ZeroPhase, 0.0, 0.0, 0.0, ZeroInput, ZeroInput)

  // ---------------------------------------------------------------------
  // Documents: the structure of the JSON the poller hands to its callbacks
  // ---------------------------------------------------------------------

  datatype PhaseDoc = PhaseDoc(id: int, acVoltage: real, acCurrent: real)

  /** `dcEnergy` is `None` when the key is absent from the input object. */
  datatype InputDoc = InputDoc(id: int, dcVoltage: real, dcCurrent: real, dcPower: real, dcEnergy: Option<real>)

  datatype ValuesDoc = ValuesDoc(
    time: nat,
    acEnergy: real,
    acPowerActive: real,
    acPowerApparent: real,
    acPowerReactive: real,
    acPowerFactor: real,
    phases: seq<PhaseDoc>,
    acFrequency: real,
    dcPower: real,
    efficiency: real,
    inputs: seq<InputDoc>)

  datatype EventsDoc = EventsDoc(activeCode: int, state: string, events: seq<string>)

  // ---------------------------------------------------------------------
  // The inverter as an oracle
  // ---------------------------------------------------------------------

  datatype PhaseId = PhaseA | PhaseB | PhaseC

  datatype InputId = InputTotal | InputA | InputB

  /** The fallible measurement getters of the inverter. */
  datatype Getter =
    | AcEnergy
    | AcPowerActive
    | AcPowerApparent
    | AcPowerReactive
    | AcPowerFactor
    | AcVoltage(phase: PhaseId)
    | AcCurrent(phase: PhaseId)
    | AcFrequency
    | DcPower(input: InputId)
    | DcVoltage(input: InputId)
    | DcCurrent(input: InputId)
    | DcEnergy(input: InputId)

  /** The fallible identity getters whose values only go to the log. */
  datatype InfoGetter = Manufacturer | DeviceModel | SerialNumber | FwVersion | ModbusDeviceAddress

  /**
   What the inverter answers during one step of the poller: the SunSpec
   validation verdict, the identity getters, the register fetch, each
   measurement getter, the capability fields, and the event getters.
   */
  datatype Device = Device(
    valid: bool,
    info: InfoGetter -> Status,
    fetch: Status,
    read: Getter -> Result<real>,
    phases: int,
    inputs: int,
    hybrid: bool,
    activeCode: int,
    state: Result<string>,
    events: Result<seq<string>>)
}
