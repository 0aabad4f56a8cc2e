/** The message types of CANJagServer/CANJaguarServer.h.

    The source passes a command code and an untyped `Data` word; each command
    here carries its payload as typed fields instead. A payload the source
    passes by pointer is an `Option`, `None` standing for a NULL pointer. */
module Messages {
  import opened Wrappers
  import opened Ints
  import opened JaguarUtils

  /** `CAN_ID`. */
  type CanId = Int32

  /** The codes of `CANJagServerSendMessageType` that the model needs. */
  const GetCode: Uint32 := 3

  /** The command code of the placeholder reply the worker sends when a Get
      cannot be answered with a reading. */
  const GarbageCode: Uint32 := 0xFFFF_FFFF

  /** `SetCANJagMessage`. */
  datatype SetPayload = SetPayload(id: CanId, speed: real, syncGroup: Uint8)

  /** `ConfigCANJagMessage`, which is also `AddCANJagMessage`. */
  datatype ConfigPayload = ConfigPayload(id: CanId, config: ConfigInfo)

  /** `GetCANJagMessage`: a reading and the device it belongs to. */
  datatype GetPayload = GetPayload(id: CanId, speed: real)

  /** A `CANJagServerMessage` on the command queue, one variant per command code. */
  datatype Command =
    | Nop
    | Disable(id: CanId)
    | Enable(id: CanId)
    | Get(id: CanId)
    | Set(setting: Option<SetPayload>)
    | Add(addition: Option<ConfigPayload>)
    | Remove(id: CanId)
    | Config(configuration: Option<ConfigPayload>)
    | UpdateSyncGroup(group: Uint8)
    | Unrecognised(code: Uint32)

  /** A `CANJagServerMessage` on the response queue. */
  datatype Reply = Reply(command: Uint32, data: Option<GetPayload>)

  /** The placeholder reply: code 0xFFFFFFFF and a NULL payload. */
  function GarbageReply(): Reply
  {
    Reply(GarbageCode, None)
  }

  /** Whether the command owns a separately allocated payload that must be
      freed with it. */
  predicate HasPayload(c: Command)
  {
    match c
    case Set(p) => p.Some?
    case Add(p) => p.Some?
    case Config(p) => p.Some?
    case _ => false
  }
}
