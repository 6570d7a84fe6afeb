/** The event the BLE sniffer publishes, and the abstract clock its times come from. */
module BleEvent {

  /** An instant on an abstract, monotone clock; 0 plays Go's zero `time.Time`. */
  type Time = nat

  /** An instant the clock actually returns: never the zero time. */
  type Tick = t: Time | t > 0 witness 1

  datatype SnifferEvent = SnifferEvent(
    packetTime: Time,
    protocol: string,
    source: string,
    destination: string,
    message: string,
    data: string)
}
