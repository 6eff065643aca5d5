/** Domain model of RouteScope: flows, counters, attributions and the arithmetic the ledger rests on (src/domain.rs). */
module Domain {

  datatype Option<+T> = None | Some(value: T)

  /** An interned string. Numbers follow the order of the strings, so 0 is the empty one. */
  type Text = nat

  const EMPTY: Text := 0

  type FlowId = Text
  type Mac = Text        // already normalised; normalisation refuses the empty MAC
  type DomainName = Text // already normalised

  const MIN_I64: int := -0x8000_0000_0000_0000
  const MAX_I64: int := 0x7FFF_FFFF_FFFF_FFFF
  const MAX_U64: int := 0xFFFF_FFFF_FFFF_FFFF

  /** Milliseconds, an `i64` in the program. */
  type Timestamp = t: int | MIN_I64 <= t <= MAX_I64

  /** A cumulative kernel counter, a `u64` in the program. */
  type Counter = c: nat | c <= MAX_U64

  function Saturate(x: int): Timestamp {
    if x < MIN_I64 then MIN_I64 else if x > MAX_I64 then MAX_I64 else x
  }

  /** The device scope of a domain deletion: one MAC, or every MAC. */
  predicate InScope(scope: Option<Mac>, mac: Mac) { scope == None || scope == Some(mac) }

  /** An address column: a parseable IPv4 address, or any other text (the empty string included). */
  datatype Ip = V4(bits: nat) | Other(text: Text)

  datatype Source = Dns | Sni | UnknownSource
  datatype Confidence = High | Low | UnknownConfidence

  datatype Attribution = Attribution(
    domain: DomainName, source: Source, confidence: Confidence,
    associatedAt: Timestamp, expiresAt: Option<Timestamp>)

  /** A DNS binding resolved to a device, to be applied to flows already stored. */
  datatype Binding = Binding(clientMac: Mac, targetIp: Ip, attribution: Attribution)

  datatype Protocol = Tcp | Udp | OtherProtocol(name: Text)
  datatype Direction = Upload | Download | Bidirectional
  datatype ConnectionState = New | Established | Closing | Closed | UnknownState

  /** The columns that the first insert fixes for the life of a row. */
  datatype Endpoints = Endpoints(
    protocol: Protocol, direction: Direction, lanInterface: Text, wanInterface: Text,
    clientMac: Mac, clientIp: Ip, clientPort: nat, destinationIp: Ip, destinationPort: nat)

  datatype NatFields = NatFields(
    sourceIp: Option<Ip>, sourcePort: Option<nat>, destinationIp: Option<Ip>, destinationPort: Option<nat>)

  datatype Counters = Counters(upload: Counter, download: Counter, packets: Counter)

  datatype Flow = Flow(
    flowId: FlowId, firstSeen: Timestamp, lastSeen: Timestamp,
    endpoints: Endpoints, translation: NatFields, counters: Counters,
    domain: Option<Attribution>, state: ConnectionState)
  {
    function Mac(): Mac { endpoints.clientMac }
  }

  /** The two directions bytes are counted in. */
  datatype Lane = Up | Down

  /** A pair of byte counts. Sums of bytes are mathematical naturals. */
  datatype Bytes = Bytes(up: nat, down: nat) {
    function In(lane: Lane): nat { if lane == Up then up else down }
  }

  const NO_BYTES := Bytes(0, 0)

  function Plus(a: Bytes, b: Bytes): Bytes { Bytes(a.up + b.up, a.down + b.down) }

  predicate Leq(a: Bytes, b: Bytes) { a.up <= b.up && a.down <= b.down }

  function Minus(a: Bytes, b: Bytes): Bytes
    requires Leq(b, a)
  {
    Bytes(a.up - b.up, a.down - b.down)
  }

  function BytesOf(c: Counters): Bytes { Bytes(c.upload, c.download) }

  predicate AllOrNone(n: NatFields) {
    var present := [n.sourceIp.Some?, n.sourcePort.Some?, n.destinationIp.Some?, n.destinationPort.Some?];
    true in present ==> false !in present
  }

  predicate ValidFlow(f: Flow) {
    && f.flowId != EMPTY
    && f.Mac() != EMPTY
    && f.endpoints.clientIp != Other(EMPTY) && f.endpoints.destinationIp != Other(EMPTY)
    && f.endpoints.protocol != OtherProtocol(EMPTY)
    && f.firstSeen <= f.lastSeen
    && AllOrNone(f.translation)
  }

  /** The increase since `previous`; None when any counter went down (a counter reset). */
  function DeltaFrom(current: Counters, previous: Counters): (delta: Option<Counters>)
    ensures delta.Some? <==>
              current.upload >= previous.upload && current.download >= previous.download
                  && current.packets >= previous.packets
    ensures delta.Some? ==> Plus(BytesOf(previous), BytesOf(delta.value)) == BytesOf(current)
  {
    if current.upload < previous.upload || current.download < previous.download || current.packets < previous.packets
    then None
    else Some(Counters(current.upload - previous.upload, current.download - previous.download,
                       current.packets - previous.packets))
  }

  /** The start of the UTC minute holding `ts`. */
  function FloorToMinute(ts: int): (minute: int)
    ensures minute % 60_000 == 0 && minute <= ts < minute + 60_000
  {
    ts - ts % 60_000
  }

  /** A half-open deletion interval. */
  datatype TimeRange = TimeRange(from: Timestamp, to: Timestamp) {
    predicate Contains(t: int) { from <= t < to }
  }

  /** A missing bound is open, a request without bounds or with a negative or empty interval is refused. */
  function NewTimeRange(from: Option<Timestamp>, to: Option<Timestamp>): (range: Option<TimeRange>)
    ensures range.Some? ==> 0 <= range.value.from < range.value.to
    ensures range.Some? ==> range.value.from == (if from.Some? then from.value else 0)
    ensures range.Some? ==> range.value.to == (if to.Some? then to.value else 0x7FFF_FFFF_FFFF_FFFF)
    ensures range.None? <==>
              || (from.None? && to.None?)
              || (exists t: Timestamp :: (from == Some(t) || to == Some(t)) && t < 0)
              || (from.Some? && to.Some? && to.value <= from.value)
              || from == Some(MAX_I64) || to == Some(0)
  {
    if from.None? && to.None? then None
    else if (from.Some? && from.value < 0) || (to.Some? && to.value < 0) then
      assert exists t: Timestamp :: (from == Some(t) || to == Some(t)) && t < 0 by {
        var t := if from.Some? && from.value < 0 then from.value else to.value;
        assert (from == Some(t) || to == Some(t)) && t < 0;
      }
      None
    else
      var lo: Timestamp := if from.Some? then from.value else 0;
      var hi: Timestamp := if to.Some? then to.value else MAX_I64;
      if lo >= hi then None else Some(TimeRange(lo, hi))
  }
}
