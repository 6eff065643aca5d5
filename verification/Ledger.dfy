/** The traffic ledger as values: the five tables of src/storage.rs and what each transaction makes of them. */
module Ledger {
  import opened Domain
  import opened Attributions

  datatype Device = Device(displayName: Option<Text>, currentIp: Option<Ip>)

  /** Primary keys of the contribution, device-minute and domain-minute tables. */
  datatype SliceKey = SliceKey(flow: FlowId, minute: int)
  datatype DeviceMinute = DeviceMinute(mac: Mac, minute: int)
  datatype DomainMinute = DomainMinute(mac: Mac, domain: DomainName, minute: int)

  /** A row of flow_minute_contributions: what one flow was charged in one minute. */
  datatype Slice = Slice(mac: Mac, bytes: Bytes, attribution: Option<Attribution>)

  datatype DomainRow = DomainRow(bytes: Bytes, source: Source, confidence: Confidence)

  type Slices = map<SliceKey, Slice>
  type DomainTable = map<DomainMinute, DomainRow>

  datatype State = State(
    devices: map<Mac, Device>,
    flows: map<FlowId, Flow>,
    slices: Slices,
    deviceMinutes: map<DeviceMinute, Bytes>,
    domainMinutes: DomainTable)

  const EMPTY_LEDGER := State(map[], map[], map[], map[], map[])

  datatype LedgerError = InvalidFlow | CounterTooLarge | CounterReset | Unbalanced

  datatype Result<+T> = Ok(value: T) | Err(error: LedgerError) {
    predicate IsFailure() { Err? }
    function PropagateFailure<U>(): Result<U>
      requires Err?
    {
      Err(error)
    }
    function Extract(): T
      requires Ok?
    {
      value
    }
  }

  // ----- single-row updates -----

  function Touched(devices: map<Mac, Device>, mac: Mac, ip: Ip): map<Mac, Device> {
    devices[mac := Device(if mac in devices then devices[mac].displayName else None, Some(ip))]
  }

  function WithDeviceBytes(table: map<DeviceMinute, Bytes>, key: DeviceMinute, b: Bytes): map<DeviceMinute, Bytes> {
    table[key := if key in table then Plus(table[key], b) else b]
  }

  function DomainBytes(table: DomainTable, key: DomainMinute): Bytes {
    if key in table then table[key].bytes else NO_BYTES
  }

  function WithDomainBytes(table: DomainTable, mac: Mac, a: Attribution, minute: int, b: Bytes): DomainTable {
    var key := DomainMinute(mac, a.domain, minute);
    table[key := DomainRow(Plus(DomainBytes(table, key), b), a.source, a.confidence)]
  }

  /** The subtraction updates exactly one row or fails. */
  predicate CanSubtract(table: DomainTable, key: DomainMinute, b: Bytes) {
    key in table && Leq(b, table[key].bytes)
  }

  function WithoutDomainBytes(table: DomainTable, key: DomainMinute, b: Bytes): DomainTable
    requires CanSubtract(table, key, b)
  {
    var left := Minus(table[key].bytes, b);
    if left == NO_BYTES then table - {key} else table[key := table[key].(bytes := left)]
  }

  function WithSlice(slices: Slices, key: SliceKey, mac: Mac, b: Bytes, a: Option<Attribution>): Slices {
    slices[key := if key in slices then Slice(slices[key].mac, Plus(slices[key].bytes, b), a) else Slice(mac, b, a)]
  }

  predicate HasSlices(slices: Slices, id: FlowId) {
    exists k :: k in slices && k.flow == id
  }

  /** A flow of the older schema has no slices; its whole counters become one unattributed slice. */
  function WithBaseline(slices: Slices, id: FlowId, mac: Mac, row: Flow): Slices {
    if row.domain.Some? || BytesOf(row.counters) == NO_BYTES || HasSlices(slices, id) then slices
    else WithSlice(slices, SliceKey(id, FloorToMinute(row.lastSeen)), mac, BytesOf(row.counters), None)
  }

  // ----- moving a flow's bytes to another domain -----

  function DomainOf(s: Slice): Option<DomainName> {
    if s.attribution.Some? then Some(s.attribution.value.domain) else None
  }

  /** What a slice must be able to take out of the books before it moves to `a`. */
  predicate CanMove(table: DomainTable, mac: Mac, a: Attribution, minute: int, s: Slice) {
    s.attribution.Some? && s.attribution.value.domain != a.domain
    ==> CanSubtract(table, DomainMinute(mac, s.attribution.value.domain, minute), s.bytes)
  }

  /** One slice of one minute: subtract from its old domain, add to the new one, or only re-tag the row. */
  function Move(table: DomainTable, mac: Mac, a: Attribution, minute: int, s: Slice): DomainTable
    requires CanMove(table, mac, a, minute, s)
  {
    if DomainOf(s) != Some(a.domain) then
      var left :=
        if s.attribution.Some?
        then WithoutDomainBytes(table, DomainMinute(mac, s.attribution.value.domain, minute), s.bytes)
        else table;
      WithDomainBytes(left, mac, a, minute, s.bytes)
    else
      var key := DomainMinute(mac, a.domain, minute);
      if key in table then table[key := table[key].(source := a.source, confidence := a.confidence)] else table
  }

  function SlicesOf(slices: Slices, id: FlowId): Slices {
    map k | k in slices && k.flow == id :: slices[k]
  }

  predicate CanMoveAll(table: DomainTable, mac: Mac, a: Attribution, part: Slices) {
    forall k :: k in part ==> CanMove(table, mac, a, k.minute, part[k])
  }

  /**
   * The table after every slice of `part` moved to `a`, row by row. The slices belong to one flow, so
   * no two share a minute and each row depends on one slice at most.
   */
  function Moved(table: DomainTable, mac: Mac, a: Attribution, id: FlowId, part: Slices): DomainTable
    requires CanMoveAll(table, mac, a, part)
  {
    var touched := set k | k in part :: DomainMinute(mac, a.domain, k.minute);
    map key | key in table.Keys + touched && key in MovedAt(table, mac, a, id, part, key)
      :: MovedAt(table, mac, a, id, part, key)[key]
  }

  function MovedAt(table: DomainTable, mac: Mac, a: Attribution, id: FlowId, part: Slices,
      key: DomainMinute): DomainTable
    requires CanMoveAll(table, mac, a, part)
  {
    var k := SliceKey(id, key.minute);
    if k in part then Move(table, mac, a, key.minute, part[k]) else table
  }

  function Relabelled(slices: Slices, id: FlowId, a: Attribution): Slices {
    map k | k in slices :: if k.flow == id then slices[k].(attribution := Some(a)) else slices[k]
  }

  /** Give a stored flow, its slices and its domain minutes the attribution `a`. */
  function Reattribute(s: State, id: FlowId, mac: Mac, a: Attribution): Result<State>
    requires id in s.flows
  {
    var slices := WithBaseline(s.slices, id, mac, s.flows[id]);
    var part := SlicesOf(slices, id);
    if CanMoveAll(s.domainMinutes, mac, a, part) then
      Ok(s.(flows := s.flows[id := s.flows[id].(domain := Some(a))],
            slices := Relabelled(slices, id, a),
            domainMinutes := Moved(s.domainMinutes, mac, a, id, part)))
    else
      Err(Unbalanced)
  }

  // ----- upsert -----

  function Coalesce<T>(a: Option<T>, b: Option<T>): Option<T> { if a.Some? then a else b }

  function CoalesceNat(a: NatFields, b: NatFields): NatFields {
    NatFields(Coalesce(a.sourceIp, b.sourceIp), Coalesce(a.sourcePort, b.sourcePort),
              Coalesce(a.destinationIp, b.destinationIp), Coalesce(a.destinationPort, b.destinationPort))
  }

  /** ON CONFLICT(flow_id): first_seen and the endpoints stay, the rest follows the snapshot. */
  function Merged(stored: Flow, f: Flow, domain: Option<Attribution>): Flow {
    stored.(lastSeen := f.lastSeen, counters := f.counters, domain := domain, state := f.state,
            translation := CoalesceNat(f.translation, stored.translation))
  }

  predicate Fits(c: Counters) { c.upload <= MAX_I64 && c.download <= MAX_I64 && c.packets <= MAX_I64 }

  /** Only attributed bytes reach the domain table. */
  function WithCredit(table: DomainTable, mac: Mac, domain: Option<Attribution>, minute: int, b: Bytes): DomainTable {
    if domain.Some? then WithDomainBytes(table, mac, domain.value, minute, b) else table
  }

  /** Charge an increase to the snapshot's minute: device row, slice and, when attributed, domain row. */
  function Charge(s: State, f: Flow, domain: Option<Attribution>, delta: Bytes): State {
    var minute := FloorToMinute(f.lastSeen);
    s.(deviceMinutes := WithDeviceBytes(s.deviceMinutes, DeviceMinute(f.Mac(), minute), delta),
       slices := WithSlice(s.slices, SliceKey(f.flowId, minute), f.Mac(), delta, domain),
       domainMinutes := WithCredit(s.domainMinutes, f.Mac(), domain, minute, delta))
  }

  /** A snapshot without new bytes charges nothing. */
  function ChargeIncrease(s: State, f: Flow, domain: Option<Attribution>, delta: Bytes): State {
    if delta == NO_BYTES then s else Charge(s, f, domain, delta)
  }

  function StoreRow(s: State, f: Flow, domain: Option<Attribution>): State {
    s.(flows := s.flows[f.flowId :=
      if f.flowId in s.flows then Merged(s.flows[f.flowId], f, domain) else f.(domain := domain)])
  }

  function StoredDomain(s: State, id: FlowId): Option<Attribution> {
    if id in s.flows then s.flows[id].domain else None
  }

  function Increase(s: State, f: Flow): Option<Counters> {
    if f.flowId in s.flows then DeltaFrom(f.counters, s.flows[f.flowId].counters) else Some(f.counters)
  }

  /** The attribution a flow has once the snapshot is stored. */
  function KeptDomain(s: State, f: Flow): Option<Attribution> {
    Effective(StoredDomain(s, f.flowId), f.domain)
  }

  /** The device row is touched and, when the snapshot changes a stored attribution, the flow reattributed. */
  function Relabel(s: State, f: Flow): Result<State> {
    var domain := KeptDomain(s, f);
    var touched := s.(devices := Touched(s.devices, f.Mac(), f.endpoints.clientIp));
    if f.flowId in s.flows && domain.Some? && domain != s.flows[f.flowId].domain
    then Reattribute(touched, f.flowId, f.Mac(), domain.value)
    else Ok(touched)
  }

  /** The snapshot changes the attribution of its stored flow. */
  predicate Relabels(s: State, f: Flow) {
    f.flowId in s.flows && KeptDomain(s, f).Some? && KeptDomain(s, f) != s.flows[f.flowId].domain
  }

  /** An attribution of the flow would lay down a baseline first. */
  predicate BaselineDue(s: State, id: FlowId) {
    id in s.flows && s.flows[id].domain.None? && !HasSlices(s.slices, id)
  }

  function UpsertFlow(s: State, f: Flow): Result<State> {
    if !Fits(f.counters) then Err(CounterTooLarge)
    else
      var delta := Increase(s, f);
      if delta.None? then Err(CounterReset)
      else
        var relabelled :- Relabel(s, f);
        Ok(ChargeIncrease(StoreRow(relabelled, f, KeptDomain(s, f)), f, KeptDomain(s, f), BytesOf(delta.value)))
  }

  function UpsertAll(s: State, fs: seq<Flow>): Result<State>
    decreases |fs|
  {
    if fs == [] then Ok(s)
    else
      var next :- UpsertFlow(s, fs[0]);
      UpsertAll(next, fs[1..])
  }

  function UpsertFlows(s: State, fs: seq<Flow>): Result<State> {
    if exists i :: 0 <= i < |fs| && !ValidFlow(fs[i]) then Err(InvalidFlow) else UpsertAll(s, fs)
  }

  // ----- backfill -----

  predicate Matches(b: Binding, row: Flow) {
    && row.Mac() == b.clientMac && row.endpoints.destinationIp == b.targetIp
    && row.lastSeen >= b.attribution.associatedAt
    && row.firstSeen < (if b.attribution.expiresAt.Some? then b.attribution.expiresAt.value else MAX_I64)
  }

  function Matching(s: State, b: Binding): set<FlowId> {
    set id | id in s.flows && Matches(b, s.flows[id])
  }

  /** A ledger and the number of flows a backfill updated. */
  datatype Tally = Tally(state: State, updated: nat)

  predicate Improves(s: State, b: Binding, id: FlowId) {
    id in s.flows && Effective(s.flows[id].domain, Some(b.attribution)) != s.flows[id].domain
  }

  function BackfillFlow(s: State, b: Binding, id: FlowId): Result<Tally> {
    if Improves(s, b, id) then
      var next :- Reattribute(s, id, b.clientMac, Effective(s.flows[id].domain, Some(b.attribution)).value);
      Ok(Tally(next, 1))
    else
      Ok(Tally(s, 0))
  }

  /** The flows one binding matched, in the order the query returned them. */
  datatype Work = Work(binding: Binding, rows: seq<FlowId>)

  ghost predicate Enumerates(rows: seq<FlowId>, ids: set<FlowId>) {
    && (forall i, j :: 0 <= i < j < |rows| ==> rows[i] != rows[j])
    && (forall id :: id in ids <==> id in rows)
  }

  /** The transaction carries exactly the drained bindings, in order. */
  ghost predicate Carries(work: seq<Work>, bindings: seq<Binding>) {
    |work| == |bindings| && forall i :: 0 <= i < |work| ==> work[i].binding == bindings[i]
  }

  function BackfillRows(s: State, b: Binding, rows: seq<FlowId>): Result<Tally>
    decreases |rows|
  {
    if rows == [] then Ok(Tally(s, 0))
    else
      var first :- BackfillFlow(s, b, rows[0]);
      var rest :- BackfillRows(first.state, b, rows[1..]);
      Ok(Tally(rest.state, first.updated + rest.updated))
  }

  function BackfillAll(s: State, work: seq<Work>): Result<Tally>
    decreases |work|
  {
    if work == [] then Ok(Tally(s, 0))
    else
      var first :- BackfillRows(s, work[0].binding, work[0].rows);
      var rest :- BackfillAll(first.state, work[1..]);
      Ok(Tally(rest.state, first.updated + rest.updated))
  }

  // ----- deletion and expiry -----

  datatype Deleted = Deleted(
    devices: nat, flows: nat, redacted: nat, deviceMinutes: nat, domainMinutes: nat, slices: nat)

  predicate IsAbout(a: Option<Attribution>, d: DomainName) { a.Some? && a.value.domain == d }

  predicate Overlaps(f: Flow, range: TimeRange) { f.firstSeen < range.to && f.lastSeen >= range.from }

  // The rows each WHERE clause selects.

  function FlowsOfDevice(flows: map<FlowId, Flow>, mac: Mac): set<FlowId> {
    set id | id in flows && flows[id].Mac() == mac
  }

  function FlowsAbout(flows: map<FlowId, Flow>, scope: Option<Mac>, d: DomainName): set<FlowId> {
    set id | id in flows && InScope(scope, flows[id].Mac()) && IsAbout(flows[id].domain, d)
  }

  function FlowsIn(flows: map<FlowId, Flow>, range: TimeRange): set<FlowId> {
    set id | id in flows && Overlaps(flows[id], range)
  }

  function FlowsBefore(flows: map<FlowId, Flow>, cutoff: int): set<FlowId> {
    set id | id in flows && flows[id].lastSeen < cutoff
  }

  function MinutesBefore(table: map<DeviceMinute, Bytes>, cutoff: int): set<DeviceMinute> {
    set k | k in table && k.minute < cutoff
  }

  function DomainsBefore(table: DomainTable, cutoff: int): set<DomainMinute> {
    set k | k in table && k.minute < cutoff
  }

  function SlicesBefore(slices: Slices, cutoff: int): set<SliceKey> {
    set k | k in slices && k.minute < cutoff
  }

  /** The contributions a flow deletion cascades to. */
  function Cascade(slices: Slices, ids: set<FlowId>): set<SliceKey> {
    set k | k in slices && k.flow in ids
  }

  function SlicesOfDevice(slices: Slices, mac: Mac): set<SliceKey> {
    set k | k in slices && slices[k].mac == mac
  }

  function SlicesAbout(slices: Slices, scope: Option<Mac>, d: DomainName): set<SliceKey> {
    set k | k in slices && InScope(scope, slices[k].mac) && IsAbout(slices[k].attribution, d)
  }

  function SlicesIn(slices: Slices, range: TimeRange): set<SliceKey> {
    set k | k in slices && range.Contains(k.minute)
  }

  function MinutesOfDevice(table: map<DeviceMinute, Bytes>, mac: Mac): set<DeviceMinute> {
    set k | k in table && k.mac == mac
  }

  function MinutesIn(table: map<DeviceMinute, Bytes>, range: TimeRange): set<DeviceMinute> {
    set k | k in table && range.Contains(k.minute)
  }

  function DomainsOfDevice(table: DomainTable, mac: Mac): set<DomainMinute> {
    set k | k in table && k.mac == mac
  }

  function DomainsAbout(table: DomainTable, scope: Option<Mac>, d: DomainName): set<DomainMinute> {
    set k | k in table && InScope(scope, k.mac) && k.domain == d
  }

  function DomainsIn(table: DomainTable, range: TimeRange): set<DomainMinute> {
    set k | k in table && range.Contains(k.minute)
  }

  /** DELETE FROM flows, with the cascade into the contribution table. */
  function WithoutFlows(s: State, ids: set<FlowId>): State {
    s.(flows := s.flows - ids, slices := s.slices - Cascade(s.slices, ids))
  }

  function DeleteDevice(s: State, mac: Mac): Option<State> {
    if mac !in s.devices then None
    else
      var trimmed := s.(deviceMinutes := s.deviceMinutes - MinutesOfDevice(s.deviceMinutes, mac),
                        domainMinutes := s.domainMinutes - DomainsOfDevice(s.domainMinutes, mac));
      var rest := WithoutFlows(trimmed, FlowsOfDevice(s.flows, mac));
      Some(rest.(devices := s.devices - {mac}))
  }

  function DeviceReport(s: State, mac: Mac): Deleted {
    Deleted(1, |FlowsOfDevice(s.flows, mac)|, 0, |MinutesOfDevice(s.deviceMinutes, mac)|,
            |DomainsOfDevice(s.domainMinutes, mac)|, |SlicesOfDevice(s.slices, mac)|)
  }

  function Redacted(flows: map<FlowId, Flow>, ids: set<FlowId>): map<FlowId, Flow> {
    map id | id in flows :: if id in ids then flows[id].(domain := None) else flows[id]
  }

  function DeleteDomain(s: State, scope: Option<Mac>, d: DomainName): State {
    s.(slices := s.slices - SlicesAbout(s.slices, scope, d),
       domainMinutes := s.domainMinutes - DomainsAbout(s.domainMinutes, scope, d),
       flows := Redacted(s.flows, FlowsAbout(s.flows, scope, d)))
  }

  function DomainReport(s: State, scope: Option<Mac>, d: DomainName): Deleted {
    Deleted(0, 0, |FlowsAbout(s.flows, scope, d)|, 0,
            |DomainsAbout(s.domainMinutes, scope, d)|, |SlicesAbout(s.slices, scope, d)|)
  }

  function DeleteRange(s: State, range: TimeRange): State {
    var trimmed := s.(deviceMinutes := s.deviceMinutes - MinutesIn(s.deviceMinutes, range),
                      domainMinutes := s.domainMinutes - DomainsIn(s.domainMinutes, range),
                      slices := s.slices - SlicesIn(s.slices, range));
    WithoutFlows(trimmed, FlowsIn(s.flows, range))
  }

  function RangeReport(s: State, range: TimeRange): Deleted {
    Deleted(0, |FlowsIn(s.flows, range)|, 0, |MinutesIn(s.deviceMinutes, range)|, |DomainsIn(s.domainMinutes, range)|,
            |SlicesIn(s.slices, range) + Cascade(s.slices, FlowsIn(s.flows, range))|)
  }

  // The four autocommitted statements of delete_expired_data.

  function ExpireFlows(s: State, cutoff: int): State {
    WithoutFlows(s, FlowsBefore(s.flows, cutoff))
  }

  function ExpireDeviceMinutes(s: State, cutoff: int): State {
    s.(deviceMinutes := s.deviceMinutes - MinutesBefore(s.deviceMinutes, cutoff))
  }

  function ExpireSlices(s: State, cutoff: int): State {
    s.(slices := s.slices - SlicesBefore(s.slices, cutoff))
  }

  function ExpireDomainMinutes(s: State, cutoff: int): State {
    s.(domainMinutes := s.domainMinutes - DomainsBefore(s.domainMinutes, cutoff))
  }

  /** Expiry interrupted after its first `done` statements; four of them are all. */
  function Expire(s: State, flowCutoff: int, cutoff: int, done: nat): State {
    var s1 := if done >= 1 then ExpireFlows(s, flowCutoff) else s;
    var s2 := if done >= 2 then ExpireDeviceMinutes(s1, cutoff) else s1;
    var s3 := if done >= 3 then ExpireSlices(s2, cutoff) else s2;
    if done >= 4 then ExpireDomainMinutes(s3, cutoff) else s3
  }
}
