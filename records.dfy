/** The rows the nsdebuglog parser produces and the time filter trims. */
module LogRecords {

  /** A row together with the instant (microseconds) of the line it came from. */
  datatype Stamped<T> = Stamped(ts: int, row: T)

  /** A tunnelled or bypassed flow: process, destination host and destination address. */
  datatype Flow = Flow(process: string, host: string, addr: string)

  /** One round-trip-time sample to a PoP. */
  datatype Rtt = Rtt(pop: string, ip: string, millis: nat)
}
