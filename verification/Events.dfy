/** The data shared by the engine, the mixer and the playback code: server/engine.h. */
module Events {

  // An unsigned char field of a packet or an event.
  type Byte = x: int | 0 <= x < 256

  // EVENT: one sound request, as a client sent it. The sound is named, not carried.
  datatype Event = Event(kind: Byte, loc: Byte, prior: Byte, vol: Byte, dither: Byte,
                         flags: int, sound: seq<Byte>)

  // ENGINE_EVENT: an event stamped with a time in seconds.
  datatype EngineEvent = EngineEvent(event: Event, mixTime: real)

  // EVENT_TYPE
  const EVENT_T: Byte := 0
  const STATE_T: Byte := 1

  function Prior(e: EngineEvent): int {
    e.event.prior
  }
}
