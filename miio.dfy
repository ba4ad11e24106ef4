/** The parts of the python-miio air-conditioning-companion library that the
    climate entity uses, seen from outside: its enums as closed datatypes,
    the status record it reads, the configuration frame it sends, and the
    device calls with their possible replies. */
module Miio {

  /** The device's own operation modes; the device has no "off" mode. */
  datatype OperationMode = Heat | Cool | Auto | Dehumidify | Ventilate

  /** Fan speeds, in the library's declaration order. */
  datatype FanSpeed = Low | Medium | High | Auto

  /** Swing positions offered to users (the library's "Unknown" members are
      never offered, so they are not part of this type). */
  datatype SwingMode = On | Off

  /** Display state carried in every configuration frame. */
  datatype Led = On | Off

  /** The hexadecimal air-conditioner model id the device reports. */
  type ModelId = string

  /** The fields of `status()` the climate entity reads. */
  datatype Status = Status(airConditionModel: ModelId, power: string, mode: OperationMode)

  /** One full configuration frame: the wire protocol has no partial form. */
  datatype Frame = Frame(
    model: ModelId,
    power: bool,
    mode: OperationMode,
    temperature: int,
    fan: FanSpeed,
    swing: SwingMode,
    led: Led)

  /** A call the entity makes on the device. */
  datatype Call =
    | TurnOn
    | TurnOff
    | SendConfiguration(frame: Frame)
    | SendCommand(command: string)
    | SendIrCode(model: ModelId, code: string)
    | Learn(slot: int)
    | LearnResult
    | LearnStop(slot: int)
    | QueryStatus

  /** The reply to a command: a result containing "ok", any other result,
      or a raised DeviceException. */
  datatype Response = Ok | NotOk | Raised

  /** The reply to one `learn_result` poll: the first element of the returned
      list, or an exception (a DeviceException, or an empty reply list). */
  datatype LearnReply = Message(text: string) | Raised

  /** The reply to `status()`. */
  datatype PollReply = Reported(status: Status) | Raised
}
