/** What every stored flow row keeps: its own key, a whole or absent NAT mapping, and an order the pages can follow. */
module StoredRows {
  import opened Domain
  import opened Sequences
  import opened Ledger
  import opened LedgerInvariant
  import opened LedgerRuns
  import opened AttributionHistory
  import opened Books
  import Paging = FlowPaging
  import PagingWalks

  predicate WellKeyed(id: FlowId, row: Flow) {
    row.flowId == id != EMPTY && row.Mac() != EMPTY && AllOrNone(row.translation)
  }

  ghost predicate RowsKept(flows: map<FlowId, Flow>) { forall id :: id in flows ==> WellKeyed(id, flows[id]) }

  lemma MergedIsWellKeyed(stored: Flow, f: Flow, d: Option<Attribution>)
    requires WellKeyed(f.flowId, stored) && ValidFlow(f)
    ensures WellKeyed(f.flowId, Merged(stored, f, d))
  {}

  lemma UpsertFlowKeepsRows(s: State, f: Flow)
    requires RowsKept(s.flows) && ValidFlow(f) && UpsertFlow(s, f).Ok?
    ensures RowsKept(UpsertFlow(s, f).value.flows)
  {
    UpsertFlowDomains(s, f);
    if f.flowId in s.flows {
      MergedIsWellKeyed(s.flows[f.flowId], f, KeptDomain(s, f));
    }
    UpsertedRow(s, f);
  }

  /** What the snapshot knows, and otherwise what was known. */
  predicate IsLatest<T(==)>(was: Option<T>, told: Option<T>, now: Option<T>) {
    (told.Some? ==> now == told) && (told.None? ==> now == was)
  }

  /** The device of a snapshot is known afterwards, under its latest address and the name it had; no other changes. */
  lemma UpsertedDevice(s: State, f: Flow, mac: Mac)
    requires UpsertFlow(s, f).Ok?
    ensures var t := UpsertFlow(s, f).value;
            if mac == f.endpoints.clientMac then
              && mac in t.devices && t.devices[mac].currentIp == Some(f.endpoints.clientIp)
              && t.devices[mac].displayName == if mac in s.devices then s.devices[mac].displayName else None
            else
              (mac in t.devices <==> mac in s.devices) && (mac in t.devices ==> t.devices[mac] == s.devices[mac])
  {
    UpsertTouches(s, f);
  }

  lemma UpsertTouches(s: State, f: Flow)
    requires UpsertFlow(s, f).Ok?
    ensures UpsertFlow(s, f).value.devices == Touched(s.devices, f.Mac(), f.endpoints.clientIp)
  {
    var stored := StoreRow(Relabel(s, f).value, f, KeptDomain(s, f));
    assert stored.devices == Touched(s.devices, f.Mac(), f.endpoints.clientIp);
    assert UpsertFlow(s, f).value == ChargeIncrease(stored, f, KeptDomain(s, f), BytesOf(Increase(s, f).value));
  }

  lemma MergedRow(was: Flow, f: Flow, d: Option<Attribution>)
    ensures var row := Merged(was, f, d);
            && row.lastSeen == f.lastSeen && row.counters == f.counters && row.state == f.state
            && row.flowId == was.flowId && row.endpoints == was.endpoints && row.firstSeen == was.firstSeen
            && IsLatest(was.translation.sourceIp, f.translation.sourceIp, row.translation.sourceIp)
            && IsLatest(was.translation.sourcePort, f.translation.sourcePort, row.translation.sourcePort)
            && IsLatest(was.translation.destinationIp, f.translation.destinationIp, row.translation.destinationIp)
            && IsLatest(was.translation.destinationPort, f.translation.destinationPort, row.translation.destinationPort)
  {}

  /** The stored row after a snapshot: who it is stays, what it counts follows, and a mapping once known is not lost. */
  lemma UpsertedRow(s: State, f: Flow)
    requires UpsertFlow(s, f).Ok?
    ensures f.flowId in UpsertFlow(s, f).value.flows
    ensures var row := UpsertFlow(s, f).value.flows[f.flowId];
            && row.lastSeen == f.lastSeen && row.counters == f.counters && row.state == f.state
            && (f.flowId in s.flows ==>
                  var was := s.flows[f.flowId];
                  && row.flowId == was.flowId && row.endpoints == was.endpoints && row.firstSeen == was.firstSeen
                  && IsLatest(was.translation.sourceIp, f.translation.sourceIp, row.translation.sourceIp)
                  && IsLatest(was.translation.sourcePort, f.translation.sourcePort, row.translation.sourcePort)
                  && IsLatest(was.translation.destinationIp, f.translation.destinationIp, row.translation.destinationIp)
                  && IsLatest(was.translation.destinationPort, f.translation.destinationPort,
                             row.translation.destinationPort))
            && (f.flowId !in s.flows ==> row == f)
            && (forall id :: id in s.flows && id != f.flowId ==>
                  id in UpsertFlow(s, f).value.flows && UpsertFlow(s, f).value.flows[id] == s.flows[id])
  {
    UpsertFlowDomains(s, f);
    UpsertStores(s, f);
    if f.flowId in s.flows {
      MergedRow(s.flows[f.flowId], f, KeptDomain(s, f));
    }
  }

  // ----- the aggregates -----

  /** The minute a snapshot is booked in. */
  function MinuteOf(f: Flow): int { f.lastSeen - f.lastSeen % 60_000 }

  function MeteredIn(table: map<DeviceMinute, Bytes>, mac: Mac, minute: int): Bytes {
    var k := DeviceMinute(mac, minute);
    if k in table then table[k] else Bytes(0, 0)
  }

  /** What one device minute gains, when a table may have been charged once. */
  ghost predicate Gains(before: map<DeviceMinute, Bytes>, after: map<DeviceMinute, Bytes>, charged: DeviceMinute,
      known: Counters, current: Counters, k: DeviceMinute)
  {
    var was, now := MeteredIn(before, k.mac, k.minute), MeteredIn(after, k.mac, k.minute);
    if k == charged then
      now.up + known.upload == was.up + current.upload && now.down + known.download == was.down + current.download
    else now == was
  }

  lemma ChargedOnce(before: map<DeviceMinute, Bytes>, after: map<DeviceMinute, Bytes>, charged: DeviceMinute,
      delta: Bytes, known: Counters, current: Counters, k: DeviceMinute)
    requires Plus(BytesOf(known), delta) == BytesOf(current)
    requires after == WithDeviceBytes(before, charged, delta) || (after == before && delta == NO_BYTES)
    ensures Gains(before, after, charged, known, current, k)
  {
    MeterAdds(before, charged, delta, k.mac, k.minute);
  }

  function KnownCounters(s: State, id: FlowId): Counters {
    if id in s.flows then s.flows[id].counters else Counters(0, 0, 0)
  }

  /** A snapshot adds what its counters rose by to its device's current minute, and to no other. */
  lemma UpsertMeters(s: State, f: Flow, k: DeviceMinute)
    requires UpsertFlow(s, f).Ok?
    ensures Gains(s.deviceMinutes, UpsertFlow(s, f).value.deviceMinutes,
                  DeviceMinute(f.endpoints.clientMac, MinuteOf(f)), KnownCounters(s, f.flowId), f.counters, k)
  {
    UpsertMetersOnce(s, f);
    IncreaseAdds(s, f);
    ChargedOnce(s.deviceMinutes, UpsertFlow(s, f).value.deviceMinutes, DeviceMinute(f.Mac(), MinuteOf(f)),
        BytesOf(Increase(s, f).value), KnownCounters(s, f.flowId), f.counters, k);
  }

  lemma IncreaseAdds(s: State, f: Flow)
    requires Increase(s, f).Some?
    ensures Plus(BytesOf(KnownCounters(s, f.flowId)), BytesOf(Increase(s, f).value)) == BytesOf(f.counters)
  {}

  lemma UpsertMetersOnce(s: State, f: Flow)
    requires UpsertFlow(s, f).Ok?
    ensures Increase(s, f).Some?
    ensures var before, after, delta := s.deviceMinutes, UpsertFlow(s, f).value.deviceMinutes,
                                        BytesOf(Increase(s, f).value);
            || after == WithDeviceBytes(before, DeviceMinute(f.Mac(), MinuteOf(f)), delta)
            || (after == before && delta == NO_BYTES)
  {
    var stored, minute := StoreRow(Relabel(s, f).value, f, KeptDomain(s, f)), FloorToMinute(f.lastSeen);
    assert minute == MinuteOf(f);
    assert stored.deviceMinutes == s.deviceMinutes;
    assert UpsertFlow(s, f).value == ChargeIncrease(stored, f, KeptDomain(s, f), BytesOf(Increase(s, f).value));
  }

  lemma MeterAdds(table: map<DeviceMinute, Bytes>, key: DeviceMinute, b: Bytes, mac: Mac, minute: int)
    ensures MeteredIn(WithDeviceBytes(table, key, b), mac, minute)
         == if key == DeviceMinute(mac, minute) then Plus(MeteredIn(table, mac, minute), b)
            else MeteredIn(table, mac, minute)
  {}

  /** A subtraction takes exactly the bytes, drops the row when none are left, and leaves tags and other rows alone. */
  lemma SubtractionIsExact(table: DomainTable, key: DomainMinute, b: Bytes, k: DomainMinute)
    requires CanSubtract(table, key, b)
    ensures var t := WithoutDomainBytes(table, key, b);
            if k != key then (k in t <==> k in table) && (k in t ==> t[k] == table[k])
            else
              && (k in t <==> table[k].bytes != b)
              && (k in t ==> Plus(t[k].bytes, b) == table[k].bytes)
              && (k in t ==> t[k].source == table[k].source && t[k].confidence == table[k].confidence)
  {}

  /** A contribution adds up, takes the newest attribution and keeps its first device; no other one changes. */
  lemma ContributionIsExact(slices: Slices, key: SliceKey, mac: Mac, b: Bytes, a: Option<Attribution>, k: SliceKey)
    ensures var t := WithSlice(slices, key, mac, b, a);
            if k != key then (k in t <==> k in slices) && (k in t ==> t[k] == slices[k])
            else
              && k in t && t[k].attribution == a
              && t[k].mac == (if k in slices then slices[k].mac else mac)
              && t[k].bytes.up == b.up + (if k in slices then slices[k].bytes.up else 0)
              && t[k].bytes.down == b.down + (if k in slices then slices[k].bytes.down else 0)
  {}

  /** New bytes of an attributed flow are booked under the tags of its attribution. */
  lemma CreditIsTagged(s: State, f: Flow)
    requires UpsertFlow(s, f).Ok? && KeptDomain(s, f).Some? && BytesOf(Increase(s, f).value) != NO_BYTES
    ensures var a := KeptDomain(s, f).value;
            var k := DomainMinute(f.endpoints.clientMac, a.domain, MinuteOf(f));
            && k in UpsertFlow(s, f).value.domainMinutes
            && UpsertFlow(s, f).value.domainMinutes[k].source == a.source
            && UpsertFlow(s, f).value.domainMinutes[k].confidence == a.confidence
  {
    var stored, d := StoreRow(Relabel(s, f).value, f, KeptDomain(s, f)), KeptDomain(s, f);
    var delta := BytesOf(Increase(s, f).value);
    assert UpsertFlow(s, f).value.domainMinutes
        == WithCredit(stored.domainMinutes, f.Mac(), d, FloorToMinute(f.lastSeen), delta);
  }

  /** A new attribution tags the domain minutes of all the flow's contributions. */
  lemma ReattributionIsTagged(s: State, id: FlowId, mac: Mac, a: Attribution, k: SliceKey)
    requires id in s.flows && Reattribute(s, id, mac, a).Ok?
    requires k in Reattribute(s, id, mac, a).value.slices && k.flow == id
    ensures var t, row := Reattribute(s, id, mac, a).value, DomainMinute(mac, a.domain, k.minute);
            row in t.domainMinutes ==>
              t.domainMinutes[row].source == a.source && t.domainMinutes[row].confidence == a.confidence
  {
    MovedRow(s.domainMinutes, mac, a, id, SlicesOf(WithBaseline(s.slices, id, mac, s.flows[id]), id),
        DomainMinute(mac, a.domain, k.minute));
  }

  lemma {:induction false} UpsertAllKeepsRows(s: State, fs: seq<Flow>)
    requires RowsKept(s.flows) && UpsertAll(s, fs).Ok? && (forall i :: 0 <= i < |fs| ==> ValidFlow(fs[i]))
    ensures RowsKept(UpsertAll(s, fs).value.flows)
    decreases |fs|
  {
    if fs != [] {
      UpsertFlowKeepsRows(s, fs[0]);
      UpsertAllKeepsRows(UpsertFlow(s, fs[0]).value, fs[1..]);
    }
  }

  lemma SameRowsKept(s: State, t: State)
    requires RowsKept(s.flows) && SameRows(s, t)
    ensures RowsKept(t.flows)
  {}

  lemma StepKeepsRows(s: State, step: Step)
    requires RowsKept(s.flows)
    ensures RowsKept(Apply(s, step).flows)
  {
    match step {
      case Upsert(flows) =>
        if UpsertFlows(s, flows).Ok? {
          UpsertAllKeepsRows(s, flows);
        }
      case Backfill(work) =>
        if BackfillAll(s, work).Ok? {
          BackfillAllTouchesOnlyDomains(s, work);
          SameRowsKept(s, BackfillAll(s, work).value.state);
        }
      case DropDevice(_) =>
      case DropDomain(scope, domain) =>
        var t := Apply(s, step);
        forall id | id in t.flows ensures WellKeyed(id, t.flows[id]) {
          assert WellKeyed(id, s.flows[id]);
        }
      case DropRange(_) =>
      case Expiry(_, _, _) =>
    }
  }

  /** In every run each row stays under its own, non-empty id, with a MAC and a NAT mapping that is whole or absent. */
  lemma {:induction false} EveryRunKeepsRows(s: State, steps: seq<Step>)
    requires RowsKept(s.flows)
    ensures RowsKept(Run(s, steps).flows)
    decreases |steps|
  {
    if steps != [] {
      StepKeepsRows(s, steps[0]);
      EveryRunKeepsRows(Apply(s, steps[0]), steps[1..]);
    }
  }

  /** So the flow table of every reachable ledger has exactly one newest-first order, as the pages assume. */
  lemma ReachableTablesArePaged(s: State, steps: seq<Step>) returns (table: seq<Flow>)
    requires RowsKept(s.flows)
    ensures Paging.Arranges(table, Run(s, steps).flows)
    ensures forall other :: Paging.Arranges(other, Run(s, steps).flows) ==> other == table
    ensures forall mac :: PagingWalks.Named(Paging.DeviceRows(table, mac))
  {
    var flows := Run(s, steps).flows;
    EveryRunKeepsRows(s, steps);
    table := Paging.ArrangementExists(flows);
    forall other | Paging.Arranges(other, flows) ensures other == table {
      Paging.DescendingIsUnique(other, table);
    }
    forall mac ensures PagingWalks.Named(Paging.DeviceRows(table, mac)) {
      forall f | f in Paging.DeviceRows(table, mac) ensures f.flowId != EMPTY {
        FilterMember((g: Flow) => g.Mac() == mac, table, f);
        assert WellKeyed(f.flowId, flows[f.flowId]);
      }
    }
  }
}
