/**
 * send_rate: pack the millisecond count as `<I` and publish it, retained, on
 * the rate topic. The connection flag and the publish call are the MQTT
 * client's; here they are a parameter and the returned publication.
 */
module RateControl {
  import opened Wrappers
  import opened LittleEndian
  import opened StructFormat
  import opened Topics

  /** The arguments of `client.publish(topic, payload, retain=...)`. */
  datatype Publication = Publication(topic: string, payload: seq<byte>, retain: bool)

  datatype SendOutcome =
    | Published(pub: Publication)
    | NotConnected
    | PackFailed(error: StructError)   // struct.error from pack: nothing is published

  /** send_rate with the connection test it evidently intends (`is_connected()`). */
  function SendRate(connected: bool, ms: int): (r: SendOutcome)
    ensures r.Published? <==> connected && 0 <= ms < TWO_32
    ensures !connected ==> r == NotConnected
    ensures connected && !(0 <= ms < TWO_32) ==> r == PackFailed(ArgumentOutOfRange(ms))
    ensures r.Published? ==> r.pub.topic == RATE_TOPIC && r.pub.retain
    ensures r.Published? ==> |r.pub.payload| == 4 && Word32FromLE(r.pub.payload) == ms
  {
    if !connected then NotConnected
    else
      match PackUInt32(ms)
      case Success(bytes) => Published(Publication(RATE_TOPIC, bytes, true))
      case Failure(e) => PackFailed(e)
  }

  /**
   * send_rate as written. The guard `if self.client.is_connected:` tests the
   * bound method object without calling it, and a method object is always
   * truthy, so the guard always passes and `connected` is never consulted.
   */
  function SendRateAsWritten(connected: bool, ms: int): (r: SendOutcome)
    ensures r.Published? <==> 0 <= ms < TWO_32
    ensures !(0 <= ms < TWO_32) ==> r == PackFailed(ArgumentOutOfRange(ms))
    ensures r.Published? ==> r.pub.topic == RATE_TOPIC && r.pub.retain
    ensures r.Published? ==> |r.pub.payload| == 4 && Word32FromLE(r.pub.payload) == ms
  {
    match PackUInt32(ms)
    case Success(bytes) => Published(Publication(RATE_TOPIC, bytes, true))
    case Failure(e) => PackFailed(e)
  }

  /** The as-written guard lets a publish through while disconnected; the intended one does not. */
  lemma GuardIgnoresConnection()
    ensures SendRateAsWritten(false, 2500).Published?
    ensures SendRate(false, 2500) == NotConnected
    ensures SendRateAsWritten(false, -1) == PackFailed(ArgumentOutOfRange(-1))
  {
  }

  /** As written, the connection state never changes what send_rate does. */
  lemma AsWrittenIgnoresConnection(ms: int)
    ensures SendRateAsWritten(false, ms) == SendRateAsWritten(true, ms)
  {
  }

  /** While connected the two agree on every millisecond count. */
  lemma GuardAgreesWhenConnected(ms: int)
    ensures SendRateAsWritten(true, ms) == SendRate(true, ms)
  {
  }

  /** The published bytes decode back to the count: 2500 ms is C4 09 00 00. */
  lemma RateCommandExample()
    ensures SendRate(true, 2500) == Published(Publication(RATE_TOPIC, [0xC4, 0x09, 0x00, 0x00], true))
    ensures SendRate(true, -1) == PackFailed(ArgumentOutOfRange(-1))
    ensures SendRate(true, TWO_32) == PackFailed(ArgumentOutOfRange(TWO_32))
  {
  }
}
