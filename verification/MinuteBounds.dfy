/**
 * What a device minute has to spare: its metered bytes beyond those attributed to domains and those its
 * contributions still hold unattributed. The legacy baseline, and nothing else, draws on it.
 */
module MinuteBounds {
  import opened Domain
  import opened Sums
  import opened Attributions
  import opened Ledger
  import opened Totals
  import opened LedgerInvariant
  import opened LedgerRuns
  import opened AttributionHistory
  import opened Books

  function DomainRowsIn(table: DomainTable, k: DeviceMinute, lane: Lane): map<DomainMinute, nat> {
    map key | key in table && key.mac == k.mac && key.minute == k.minute :: table[key].bytes.In(lane)
  }

  ghost function Attributed(table: DomainTable, k: DeviceMinute, lane: Lane): nat { Sum(DomainRowsIn(table, k, lane)) }

  function LooseSlices(slices: Slices): Slices { map j | j in slices && slices[j].attribution.None? :: slices[j] }

  ghost function Unattributed(slices: Slices, k: DeviceMinute, lane: Lane): nat {
    Total(LooseSlices(slices), ByDevice(k), lane)
  }

  ghost function Slack(s: State, k: DeviceMinute, lane: Lane): int {
    Metered(s.deviceMinutes, k, lane) - Attributed(s.domainMinutes, k, lane) - Unattributed(s.slices, k, lane)
  }

  /** In every minute, domains and unattributed contributions together are within what the device metered. */
  ghost predicate Within(s: State) { forall k, lane :: Slack(s, k, lane) >= 0 }

  /** In particular no domain minute exceeds its device minute. */
  lemma WithinBoundsDomains(s: State, key: DomainMinute, lane: Lane)
    requires Within(s)
    ensures Booked(s.domainMinutes, key, lane) <= Metered(s.deviceMinutes, DeviceMinute(key.mac, key.minute), lane)
  {
    var k := DeviceMinute(key.mac, key.minute);
    assert Slack(s, k, lane) >= 0;
    if key in s.domainMinutes {
      EntryWithinSum(DomainRowsIn(s.domainMinutes, k, lane), key);
    }
  }

  // ----- the two sums under single changes -----

  /** What a row adds to the sum of a device minute. */
  function RowBytes(table: DomainTable, key: DomainMinute, k: DeviceMinute, lane: Lane): nat {
    if key.mac == k.mac && key.minute == k.minute then Booked(table, key, lane) else 0
  }

  lemma AttributedDiffersAt(t: DomainTable, u: DomainTable, key: DomainMinute, k: DeviceMinute, lane: Lane)
    requires t - {key} == u - {key}
    ensures Attributed(t, k, lane) + RowBytes(u, key, k, lane) == Attributed(u, k, lane) + RowBytes(t, key, k, lane)
  {
    var a, b := DomainRowsIn(t, k, lane), DomainRowsIn(u, k, lane);
    forall j | j != key ensures j in t <==> j in u ensures j in t ==> t[j] == u[j] {
      assert j in t <==> j in t - {key};
      assert j in u <==> j in u - {key};
      assert j in t ==> t[j] == (t - {key})[j];
      assert j in u ==> u[j] == (u - {key})[j];
    }
    assert a - {key} == b - {key};
    SumsDifferAt(a, b, key);
  }

  lemma CreditAttributed(table: DomainTable, mac: Mac, a: Attribution, minute: int, b: Bytes, k: DeviceMinute,
      lane: Lane)
    ensures Attributed(WithDomainBytes(table, mac, a, minute, b), k, lane)
         == Attributed(table, k, lane) + if k == DeviceMinute(mac, minute) then b.In(lane) else 0
  {
    var key := DomainMinute(mac, a.domain, minute);
    var next := WithDomainBytes(table, mac, a, minute, b);
    assert next - {key} == table - {key};
    AttributedDiffersAt(next, table, key, k, lane);
  }

  lemma DebitAttributed(table: DomainTable, key: DomainMinute, b: Bytes, k: DeviceMinute, lane: Lane)
    requires CanSubtract(table, key, b)
    ensures Attributed(WithoutDomainBytes(table, key, b), k, lane)
          + (if k == DeviceMinute(key.mac, key.minute) then b.In(lane) else 0)
         == Attributed(table, k, lane)
  {
    var next := WithoutDomainBytes(table, key, b);
    assert next - {key} == table - {key};
    AttributedDiffersAt(next, table, key, k, lane);
  }

  /** A move attributes what was not attributed before, and no more. */
  lemma MoveAttributed(table: DomainTable, mac: Mac, a: Attribution, minute: int, s: Slice, k: DeviceMinute, lane: Lane)
    requires CanMove(table, mac, a, minute, s)
    ensures Attributed(Move(table, mac, a, minute, s), k, lane)
         == Attributed(table, k, lane)
          + if k == DeviceMinute(mac, minute) && s.attribution.None? then s.bytes.In(lane) else 0
  {
    var key := DomainMinute(mac, a.domain, minute);
    if DomainOf(s) == Some(a.domain) {
      var next := Move(table, mac, a, minute, s);
      assert next - {key} == table - {key};
      AttributedDiffersAt(next, table, key, k, lane);
    } else if s.attribution.Some? {
      var from := DomainMinute(mac, s.attribution.value.domain, minute);
      DebitAttributed(table, from, s.bytes, k, lane);
      CreditAttributed(WithoutDomainBytes(table, from, s.bytes), mac, a, minute, s.bytes, k, lane);
    } else {
      CreditAttributed(table, mac, a, minute, s.bytes, k, lane);
    }
  }

  /** The unattributed bytes of one flow in one minute. */
  function LooseOf(slices: Slices, id: FlowId, mac: Mac, k: DeviceMinute, lane: Lane): nat {
    var j := SliceKey(id, k.minute);
    if j in slices && slices[j].attribution.None? && mac == k.mac then slices[j].bytes.In(lane) else 0
  }

  lemma MovedAttributed(table: DomainTable, mac: Mac, a: Attribution, id: FlowId, slices: Slices, k: DeviceMinute,
      lane: Lane)
    requires CanMoveAll(table, mac, a, SlicesOf(slices, id))
    ensures Attributed(Moved(table, mac, a, id, SlicesOf(slices, id)), k, lane)
         == Attributed(table, k, lane) + LooseOf(slices, id, mac, k, lane)
  {
    var part := SlicesOf(slices, id);
    var j := SliceKey(id, k.minute);
    var all := Moved(table, mac, a, id, part);
    var at := if j in part then Move(table, mac, a, k.minute, part[j]) else table;
    forall key: DomainMinute | key.minute == k.minute
      ensures key in all <==> key in at
      ensures key in all ==> all[key] == at[key]
    {
      MovedRow(table, mac, a, id, part, key);
    }
    assert DomainRowsIn(all, k, lane) == DomainRowsIn(at, k, lane);
    if j in part {
      MoveAttributed(table, mac, a, k.minute, part[j], k, lane);
    }
  }

  /** The contributions of the flow carry its MAC. */
  ghost predicate SlicesUnder(slices: Slices, id: FlowId, mac: Mac) {
    forall j :: j in slices && j.flow == id ==> slices[j].mac == mac
  }

  lemma RelabelledLoose(slices: Slices, id: FlowId, mac: Mac, a: Attribution, k: DeviceMinute, lane: Lane)
    requires SlicesUnder(slices, id, mac)
    ensures Unattributed(slices, k, lane)
         == Unattributed(Relabelled(slices, id, a), k, lane) + LooseOf(slices, id, mac, k, lane)
  {
    var before, after, j := LooseSlices(slices), LooseSlices(Relabelled(slices, id, a)), SliceKey(id, k.minute);
    forall i | i != j ensures SameShare(before, after, ByDevice(k), i) {}
    TotalsDifferAt(before, after, ByDevice(k), lane, j);
  }

  lemma LooseAfterSlice(slices: Slices, key: SliceKey, mac: Mac, b: Bytes, a: Option<Attribution>, k: DeviceMinute,
      lane: Lane)
    requires key in slices ==> slices[key].mac == mac && slices[key].attribution == a
    ensures Unattributed(WithSlice(slices, key, mac, b, a), k, lane)
         == Unattributed(slices, k, lane) + if a.None? && k == DeviceMinute(mac, key.minute) then b.In(lane) else 0
  {
    var next := WithSlice(slices, key, mac, b, a);
    if a.None? {
      assert LooseSlices(next) == WithSlice(LooseSlices(slices), key, mac, b, None);
      TotalAfterSlice(LooseSlices(slices), key, mac, b, None, ByDevice(k), lane);
    } else {
      assert LooseSlices(next) == LooseSlices(slices);
    }
  }

  // ----- the baseline draws on the slack -----

  /** What the baseline would book in the minute if the flow were attributed now. */
  function Due(s: State, id: FlowId, k: DeviceMinute, lane: Lane): nat {
    if BaselineDue(s, id) && k == DeviceMinute(s.flows[id].Mac(), FloorToMinute(s.flows[id].lastSeen))
    then BytesOf(s.flows[id].counters).In(lane)
    else 0
  }

  lemma BaselineLoose(s: State, id: FlowId, k: DeviceMinute, lane: Lane)
    requires id in s.flows
    ensures Unattributed(WithBaseline(s.slices, id, s.flows[id].Mac(), s.flows[id]), k, lane)
         == Unattributed(s.slices, k, lane) + Due(s, id, k, lane)
  {
    var row := s.flows[id];
    if row.domain.None? && BytesOf(row.counters) != NO_BYTES && !HasSlices(s.slices, id) {
      LooseAfterSlice(s.slices, SliceKey(id, FloorToMinute(row.lastSeen)), row.Mac(), BytesOf(row.counters), None, k,
          lane);
    }
  }

  /** Attributing a flow draws exactly its due baseline, whatever its contributions held before. */
  lemma ReattributeDraws(owner: Owner, s: State, id: FlowId, a: Attribution, k: DeviceMinute, lane: Lane)
    requires Coherent(owner, s) && id in s.flows
    ensures Reattribute(s, id, owner(id), a).Ok?
    ensures Slack(Reattribute(s, id, owner(id), a).value, k, lane) == Slack(s, k, lane) - Due(s, id, k, lane)
  {
    var mac := owner(id);
    ReattributeNeverAborts(s, id, mac, a);
    var base := WithBaseline(s.slices, id, mac, s.flows[id]);
    assert SlicesUnder(base, id, mac);
    BaselineLoose(s, id, k, lane);
    MovedAttributed(s.domainMinutes, mac, a, id, base, k, lane);
    RelabelledLoose(base, id, mac, a, k, lane);
  }

  lemma ChargeDraws(s: State, f: Flow, domain: Option<Attribution>, delta: Bytes, k: DeviceMinute, lane: Lane)
    requires Agrees(s, f, domain)
    ensures Slack(ChargeIncrease(s, f, domain, delta), k, lane) == Slack(s, k, lane)
  {
    if delta != NO_BYTES {
      var minute := FloorToMinute(f.lastSeen);
      LooseAfterSlice(s.slices, SliceKey(f.flowId, minute), f.Mac(), delta, domain, k, lane);
      if domain.Some? {
        CreditAttributed(s.domainMinutes, f.Mac(), domain.value, minute, delta, k, lane);
      }
    }
  }

  function UpsertDraws(s: State, f: Flow, k: DeviceMinute, lane: Lane): nat {
    if Relabels(s, f) then Due(s, f.flowId, k, lane) else 0
  }

  /** The device table has no part in any of this. */
  lemma DevicesDoNotMatter(owner: Owner, s: State, devices: map<Mac, Device>, id: FlowId, k: DeviceMinute, lane: Lane)
    requires Coherent(owner, s) && s.devices.Keys <= devices.Keys
    ensures var t := s.(devices := devices);
            Coherent(owner, t) && Slack(t, k, lane) == Slack(s, k, lane) && Due(t, id, k, lane) == Due(s, id, k, lane)
  {}

  lemma RelabelDraws(owner: Owner, s: State, f: Flow, k: DeviceMinute, lane: Lane)
    requires Coherent(owner, s) && f.Mac() == owner(f.flowId)
    ensures Relabel(s, f).Ok?
    ensures Slack(Relabel(s, f).value, k, lane) == Slack(s, k, lane) - UpsertDraws(s, f, k, lane)
  {
    var devices := Touched(s.devices, f.Mac(), f.endpoints.clientIp);
    var touched := s.(devices := devices);
    DevicesDoNotMatter(owner, s, devices, f.flowId, k, lane);
    if Relabels(s, f) {
      ReattributeDraws(owner, touched, f.flowId, KeptDomain(s, f).value, k, lane);
    }
  }

  lemma UpsertFlowDraws(owner: Owner, s: State, f: Flow, k: DeviceMinute, lane: Lane)
    requires Coherent(owner, s) && f.Mac() == owner(f.flowId) && UpsertFlow(s, f).Ok?
    ensures Slack(UpsertFlow(s, f).value, k, lane) == Slack(s, k, lane) - UpsertDraws(s, f, k, lane)
  {
    RelabelDraws(owner, s, f, k, lane);
    RelabelCoherent(owner, s, f);
    RelabelIsChargeable(owner, s, f);
    var relabelled, domain, delta := Relabel(s, f).value, KeptDomain(s, f), BytesOf(Increase(s, f).value);
    StoreRowOwned(owner, relabelled, f, domain, delta);
    ChargeDraws(StoreRow(relabelled, f, domain), f, domain, delta, k, lane);
  }

  // ----- transactions -----

  function UpsertAllDraws(s: State, fs: seq<Flow>, k: DeviceMinute, lane: Lane): nat
    decreases |fs|
  {
    if fs == [] || UpsertFlow(s, fs[0]).Err? then 0
    else UpsertDraws(s, fs[0], k, lane) + UpsertAllDraws(UpsertFlow(s, fs[0]).value, fs[1..], k, lane)
  }

  lemma {:induction false} UpsertAllDrawn(owner: Owner, s: State, fs: seq<Flow>, k: DeviceMinute, lane: Lane)
    requires Coherent(owner, s) && OwnedBatch(owner, fs) && UpsertAll(s, fs).Ok?
    ensures Slack(UpsertAll(s, fs).value, k, lane) == Slack(s, k, lane) - UpsertAllDraws(s, fs, k, lane)
    decreases |fs|
  {
    if fs != [] {
      UpsertFlowDraws(owner, s, fs[0], k, lane);
      UpsertFlowCoherent(owner, s, fs[0]);
      UpsertAllDrawn(owner, UpsertFlow(s, fs[0]).value, fs[1..], k, lane);
    }
  }

  function BackfillRowsDraw(s: State, b: Binding, rows: seq<FlowId>, k: DeviceMinute, lane: Lane): nat
    decreases |rows|
  {
    if rows == [] || BackfillFlow(s, b, rows[0]).Err? then 0
    else
      (if Improves(s, b, rows[0]) then Due(s, rows[0], k, lane) else 0) +
      BackfillRowsDraw(BackfillFlow(s, b, rows[0]).value.state, b, rows[1..], k, lane)
  }

  lemma {:induction false} BackfillRowsDrawn(owner: Owner, s: State, b: Binding, rows: seq<FlowId>, k: DeviceMinute,
      lane: Lane)
    requires Coherent(owner, s) && (forall id :: id in rows ==> id in Matching(s, b))
    ensures BackfillRows(s, b, rows).Ok?
    ensures Slack(BackfillRows(s, b, rows).value.state, k, lane)
        == Slack(s, k, lane) - BackfillRowsDraw(s, b, rows, k, lane)
    decreases |rows|
  {
    if rows != [] {
      var id := rows[0];
      assert id in rows && id in Matching(s, b);
      BackfillFlowCoherent(owner, s, b, id);
      if Improves(s, b, id) {
        ReattributeDraws(owner, s, id, Effective(s.flows[id].domain, Some(b.attribution)).value, k, lane);
      }
      var next := BackfillFlow(s, b, id).value.state;
      SameRowsMatch(s, next, b);
      forall j | j in rows[1..] ensures j in Matching(next, b) {
        assert j in rows;
      }
      BackfillRowsDrawn(owner, next, b, rows[1..], k, lane);
    }
  }

  function BackfillAllDraws(s: State, work: seq<Work>, k: DeviceMinute, lane: Lane): nat
    decreases |work|
  {
    if work == [] || BackfillRows(s, work[0].binding, work[0].rows).Err? then 0
    else
      BackfillRowsDraw(s, work[0].binding, work[0].rows, k, lane) +
      BackfillAllDraws(BackfillRows(s, work[0].binding, work[0].rows).value.state, work[1..], k, lane)
  }

  lemma {:induction false} BackfillAllDrawn(owner: Owner, s: State, work: seq<Work>, k: DeviceMinute, lane: Lane)
    requires Coherent(owner, s) && FaithfulWork(s, work)
    ensures BackfillAll(s, work).Ok?
    ensures Slack(BackfillAll(s, work).value.state, k, lane) == Slack(s, k, lane) - BackfillAllDraws(s, work, k, lane)
    decreases |work|
  {
    if work != [] {
      var w := work[0];
      assert Enumerates(w.rows, Matching(s, w.binding));
      BackfillRowsDrawn(owner, s, w.binding, w.rows, k, lane);
      BackfillRowsCoherent(owner, s, w.binding, w.rows);
      var next := BackfillRows(s, w.binding, w.rows).value.state;
      assert FaithfulWork(s, work[1..]);
      SameRowsFaithful(s, next, work[1..]);
      BackfillAllDrawn(owner, next, work[1..], k, lane);
    }
  }

  /** What the baselines of a step draw from a minute. */
  function StepDraws(s: State, step: Step, k: DeviceMinute, lane: Lane): nat {
    match step
    case Upsert(flows) => if UpsertFlows(s, flows).Ok? then UpsertAllDraws(s, flows, k, lane) else 0
    case Backfill(work) => if BackfillAll(s, work).Ok? then BackfillAllDraws(s, work, k, lane) else 0
    case _ => 0
  }

  lemma StepDrawn(owner: Owner, s: State, step: Step, k: DeviceMinute, lane: Lane)
    requires Coherent(owner, s) && Legal(owner, s, step) && (step.Upsert? || step.Backfill?)
    ensures Slack(Apply(s, step), k, lane) == Slack(s, k, lane) - StepDraws(s, step, k, lane)
  {
    match step
    case Upsert(flows) =>
      if UpsertFlows(s, flows).Ok? {
        UpsertAllDrawn(owner, s, flows, k, lane);
      }
    case Backfill(work) => BackfillAllDrawn(owner, s, work, k, lane);
  }

  function RunDraws(s: State, steps: seq<Step>, k: DeviceMinute, lane: Lane): nat
    decreases |steps|
  {
    if steps == [] then 0 else StepDraws(s, steps[0], k, lane) + RunDraws(Apply(s, steps[0]), steps[1..], k, lane)
  }

  lemma {:induction false} RunDrawn(owner: Owner, s: State, steps: seq<Step>, k: DeviceMinute, lane: Lane)
    requires Coherent(owner, s) && LegalRun(owner, s, steps) && Additive(steps)
    ensures Slack(Run(s, steps), k, lane) == Slack(s, k, lane) - RunDraws(s, steps, k, lane)
    decreases |steps|
  {
    if steps != [] {
      StepDrawn(owner, s, steps[0], k, lane);
      StepCoherent(owner, s, steps[0]);
      assert Additive(steps[1..]);
      RunDrawn(owner, Apply(s, steps[0]), steps[1..], k, lane);
    }
  }

  /**
   * From any coherent ledger, writes and backfills end within the meters iff their baselines drew no more than was
   * to spare.
   */
  lemma RunEndsWithin(owner: Owner, s: State, steps: seq<Step>)
    requires Coherent(owner, s) && LegalRun(owner, s, steps) && Additive(steps)
    ensures Within(Run(s, steps)) <==> forall k, lane :: RunDraws(s, steps, k, lane) <= Slack(s, k, lane)
  {
    forall k, lane ensures Slack(Run(s, steps), k, lane) == Slack(s, k, lane) - RunDraws(s, steps, k, lane) {
      RunDrawn(owner, s, steps, k, lane);
    }
  }

  // ----- deletions and expiry draw nothing -----

  /** Nothing is booked in the minute. */
  ghost predicate Unbooked(s: State, k: DeviceMinute) {
    && (forall key :: key in s.domainMinutes ==> !(key.mac == k.mac && key.minute == k.minute))
    && (forall j :: j in s.slices ==> !Selected(ByDevice(k), j, s.slices[j]))
  }

  /** `t` keeps a part of the bookings of `s`, and the meter of each minute in which something is booked. */
  ghost predicate Prunes(s: State, t: State) {
    && (forall key :: key in t.domainMinutes ==> key in s.domainMinutes && t.domainMinutes[key] == s.domainMinutes[key])
    && (forall j :: j in t.slices ==> j in s.slices && t.slices[j] == s.slices[j])
    && (forall k, lane :: Metered(t.deviceMinutes, k, lane) == Metered(s.deviceMinutes, k, lane) || Unbooked(t, k))
  }

  lemma BareHasNoBytes(s: State, k: DeviceMinute, lane: Lane)
    requires Unbooked(s, k)
    ensures Attributed(s.domainMinutes, k, lane) == 0 && Unattributed(s.slices, k, lane) == 0
  {
    assert DomainRowsIn(s.domainMinutes, k, lane) == map[];
    NothingSelected(LooseSlices(s.slices), ByDevice(k), lane);
  }

  lemma PrunedIsWithin(s: State, t: State)
    requires Within(s) && Prunes(s, t)
    ensures Within(t)
  {
    forall k, lane ensures Slack(t, k, lane) >= 0 {
      if Metered(t.deviceMinutes, k, lane) == Metered(s.deviceMinutes, k, lane) {
        SumOfPart(DomainRowsIn(t.domainMinutes, k, lane), DomainRowsIn(s.domainMinutes, k, lane));
        FewerSlices(LooseSlices(t.slices), LooseSlices(s.slices), ByDevice(k), lane);
        assert Slack(s, k, lane) >= 0;
      } else {
        BareHasNoBytes(t, k, lane);
      }
    }
  }

  /** Deletions, and expiry that stops before the device minutes or runs to its end. */
  predicate Prunable(step: Step) {
    step.DropDevice? || step.DropDomain? || step.DropRange? || (step.Expiry? && (step.done <= 1 || step.done >= 4))
  }

  lemma DropDevicePrunes(owner: Owner, s: State, mac: Mac)
    requires Coherent(owner, s) && mac in s.devices
    ensures Prunes(s, DeleteDevice(s, mac).value)
  {
    var t := DeleteDevice(s, mac).value;
    forall k, lane ensures Metered(t.deviceMinutes, k, lane) == Metered(s.deviceMinutes, k, lane) || Unbooked(t, k) {
      if k.mac == mac {
        assert forall j :: j in t.slices ==> t.slices[j].mac != mac;
      }
    }
  }

  lemma DropRangePrunes(s: State, range: TimeRange)
    ensures Prunes(s, DeleteRange(s, range))
  {
    var t := DeleteRange(s, range);
    forall k, lane ensures Metered(t.deviceMinutes, k, lane) == Metered(s.deviceMinutes, k, lane) || Unbooked(t, k) {
      if range.Contains(k.minute) {
        assert forall j :: j in t.slices ==> j.minute != k.minute;
      }
    }
  }

  lemma ExpiryPrunes(s: State, flowCutoff: int, cutoff: int, done: nat)
    requires done <= 1 || done >= 4
    ensures Prunes(s, Expire(s, flowCutoff, cutoff, done))
  {
    var t := Expire(s, flowCutoff, cutoff, done);
    if done >= 4 {
      forall k, lane ensures Metered(t.deviceMinutes, k, lane) == Metered(s.deviceMinutes, k, lane) || Unbooked(t, k) {
        if k.minute < cutoff {
          assert forall j :: j in t.slices ==> j.minute != k.minute;
        }
      }
    }
  }

  lemma PrunableKeepsWithin(owner: Owner, s: State, step: Step)
    requires Coherent(owner, s) && Within(s) && Prunable(step)
    ensures Within(Apply(s, step))
  {
    match step
    case DropDevice(mac) =>
      if mac in s.devices {
        DropDevicePrunes(owner, s, mac);
        PrunedIsWithin(s, Apply(s, step));
      }
    case DropDomain(scope, d) =>
      assert Prunes(s, DeleteDomain(s, scope, d));
      PrunedIsWithin(s, DeleteDomain(s, scope, d));
    case DropRange(range) =>
      DropRangePrunes(s, range);
      PrunedIsWithin(s, DeleteRange(s, range));
    case Expiry(flowCutoff, cutoff, done) =>
      ExpiryPrunes(s, flowCutoff, cutoff, done);
      PrunedIsWithin(s, Expire(s, flowCutoff, cutoff, done));
  }

  /**
   * Deleting the old device minutes alone, as interrupted expiry does, keeps the bound iff nothing is booked so far
   * back.
   */
  lemma MetersExpireWithin(s: State, cutoff: int)
    requires Within(s)
    ensures Within(ExpireDeviceMinutes(s, cutoff))
       <==> forall k: DeviceMinute, lane :: k.minute < cutoff ==>
              Attributed(s.domainMinutes, k, lane) == 0 && Unattributed(s.slices, k, lane) == 0
  {
    var t := ExpireDeviceMinutes(s, cutoff);
    forall k: DeviceMinute, lane
      ensures Slack(t, k, lane)
           == if k.minute < cutoff then 0 - Attributed(s.domainMinutes, k, lane) - Unattributed(s.slices, k, lane)
              else Slack(s, k, lane)
    {}
    if Within(t) {
      forall k: DeviceMinute, lane | k.minute < cutoff
        ensures Attributed(s.domainMinutes, k, lane) == 0 && Unattributed(s.slices, k, lane) == 0
      {
        assert Slack(t, k, lane) >= 0;
      }
    }
  }

  // ----- whole runs -----

  /** What the bound needs of a step: covered baselines, and nothing booked where a cut-off cleanup removed meters. */
  ghost predicate Covers(s: State, step: Step) {
    match step
    case Expiry(flowCutoff, cutoff, done) =>
      done == 2 || done == 3 ==>
        forall k: DeviceMinute, lane :: k.minute < cutoff ==>
          && Attributed(s.domainMinutes, k, lane) == 0
          && (done == 2 ==> Unattributed(ExpireFlows(s, flowCutoff).slices, k, lane) == 0)
    case _ => forall k, lane :: StepDraws(s, step, k, lane) <= Slack(s, k, lane)
  }

  lemma OldSlicesGone(s: State, cutoff: int, k: DeviceMinute, lane: Lane)
    requires Within(s)
    ensures var t := ExpireSlices(ExpireDeviceMinutes(s, cutoff), cutoff);
            && (k.minute < cutoff ==> Slack(t, k, lane) == 0 - Attributed(s.domainMinutes, k, lane))
            && (k.minute >= cutoff ==> Slack(t, k, lane) >= 0)
  {
    var t := ExpireSlices(ExpireDeviceMinutes(s, cutoff), cutoff);
    if k.minute < cutoff {
      NothingSelected(LooseSlices(t.slices), ByDevice(k), lane);
    } else {
      FewerSlices(LooseSlices(t.slices), LooseSlices(s.slices), ByDevice(k), lane);
      assert Slack(s, k, lane) >= 0;
    }
  }

  /** A cleanup stopped after the device minutes, or after the contributions, and before the domain minutes. */
  lemma InterruptedWithin(s: State, flowCutoff: int, cutoff: int, done: nat)
    requires Within(s) && (done == 2 || done == 3)
    ensures Within(Expire(s, flowCutoff, cutoff, done)) <==> Covers(s, Expiry(flowCutoff, cutoff, done))
  {
    var s1 := ExpireFlows(s, flowCutoff);
    ExpiryPrunes(s, flowCutoff, cutoff, 1);
    PrunedIsWithin(s, s1);
    if done == 2 {
      MetersExpireWithin(s1, cutoff);
    } else {
      var t := Expire(s, flowCutoff, cutoff, 3);
      forall k: DeviceMinute, lane
        ensures k.minute < cutoff ==> Slack(t, k, lane) == 0 - Attributed(s.domainMinutes, k, lane)
        ensures k.minute >= cutoff ==> Slack(t, k, lane) >= 0
      {
        OldSlicesGone(s1, cutoff, k, lane);
      }
      if Within(t) {
        forall k: DeviceMinute, lane | k.minute < cutoff ensures Attributed(s.domainMinutes, k, lane) == 0 {
          assert Slack(t, k, lane) >= 0;
        }
      }
    }
  }

  /** One step keeps the bound exactly when it meets that need. */
  lemma StepWithin(owner: Owner, s: State, step: Step)
    requires Coherent(owner, s) && Within(s) && Legal(owner, s, step)
    ensures Within(Apply(s, step)) <==> Covers(s, step)
  {
    if Prunable(step) {
      PrunableKeepsWithin(owner, s, step);
    } else if step.Expiry? {
      InterruptedWithin(s, step.flowCutoff, step.cutoff, step.done);
    } else {
      forall k, lane ensures Slack(Apply(s, step), k, lane) == Slack(s, k, lane) - StepDraws(s, step, k, lane) {
        StepDrawn(owner, s, step, k, lane);
      }
    }
  }

  ghost predicate Affordable(s: State, steps: seq<Step>)
    decreases |steps|
  {
    steps == [] || (Covers(s, steps[0]) && Affordable(Apply(s, steps[0]), steps[1..]))
  }

  ghost predicate AlwaysWithin(s: State, steps: seq<Step>)
    decreases |steps|
  {
    Within(s) && (steps == [] || AlwaysWithin(Apply(s, steps[0]), steps[1..]))
  }

  /** Through any run, every state keeps the bound exactly when every step meets its need. */
  lemma {:induction false} RunStaysWithin(owner: Owner, s: State, steps: seq<Step>)
    requires Coherent(owner, s) && Within(s) && LegalRun(owner, s, steps)
    ensures AlwaysWithin(s, steps) <==> Affordable(s, steps)
    decreases |steps|
  {
    if steps != [] {
      StepWithin(owner, s, steps[0]);
      StepCoherent(owner, s, steps[0]);
      if Within(Apply(s, steps[0])) {
        RunStaysWithin(owner, Apply(s, steps[0]), steps[1..]);
      }
    }
  }
}
