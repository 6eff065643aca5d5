/** Exact books: in runs of writes and backfills from an empty database every aggregate is a sum of contributions. */
module Books {
  import opened Domain
  import opened Attributions
  import opened Sums
  import opened Ledger
  import opened Totals
  import opened LedgerInvariant
  import opened LedgerRuns

  /** The bytes a device is charged in a minute. */
  function Metered(table: map<DeviceMinute, Bytes>, key: DeviceMinute, lane: Lane): nat {
    if key in table then table[key].In(lane) else 0
  }

  ghost predicate DomainsExact(s: State) {
    forall key, lane :: Surplus(s.domainMinutes, s.slices, key, lane) == 0
  }

  ghost predicate DevicesExact(s: State) {
    forall key, lane :: Metered(s.deviceMinutes, key, lane) == Total(s.slices, ByDevice(key), lane)
  }

  ghost predicate FlowsExact(s: State) {
    forall id, lane :: id in s.flows ==> Total(s.slices, ByFlow(id), lane) == BytesOf(s.flows[id].counters).In(lane)
  }

  ghost predicate Exact(owner: Owner, s: State) {
    Coherent(owner, s) && DomainsExact(s) && DevicesExact(s) && FlowsExact(s)
  }

  lemma EmptyIsExact(owner: Owner)
    ensures Exact(owner, EMPTY_LEDGER)
  {}

  /** With exact books a flow without contributions has carried no bytes: the baseline cannot fire. */
  lemma BaselineIsDead(s: State, id: FlowId, mac: Mac)
    requires FlowsExact(s) && id in s.flows
    ensures WithBaseline(s.slices, id, mac, s.flows[id]) == s.slices
  {
    if !HasSlices(s.slices, id) {
      forall lane ensures BytesOf(s.flows[id].counters).In(lane) == 0 {
        NothingSelected(s.slices, ByFlow(id), lane);
      }
      assert BytesOf(s.flows[id].counters).In(Up) == 0 && BytesOf(s.flows[id].counters).In(Down) == 0;
    }
  }

  lemma ReattributeExact(owner: Owner, s: State, id: FlowId, a: Attribution)
    requires Exact(owner, s) && id in s.flows
    ensures Reattribute(s, id, owner(id), a).Ok? && Exact(owner, Reattribute(s, id, owner(id), a).value)
  {
    ReattributeCoherent(owner, s, id, owner(id), a);
    BaselineIsDead(s, id, owner(id));
    forall sel: Selector, lane | !sel.ByDomain? {
      RelabelKeepsTotals(s.slices, id, a, sel, lane);
    }
  }

  lemma ChargeDevices(s: State, f: Flow, domain: Option<Attribution>, delta: Bytes)
    requires DevicesExact(s) && Agrees(s, f, domain)
    ensures DevicesExact(Charge(s, f, domain, delta))
  {
    forall key, lane {
      ChargeTotal(s, f, domain, delta, ByDevice(key), lane);
    }
  }

  /** The stored counters are ahead of the contributions by the increase still to be charged. */
  ghost predicate Awaits(s: State, f: Flow, delta: Bytes) {
    && f.flowId in s.flows
    && (forall lane ::
          Total(s.slices, ByFlow(f.flowId), lane) + delta.In(lane) == BytesOf(s.flows[f.flowId].counters).In(lane))
    && (forall id, lane :: id in s.flows && id != f.flowId ==>
          Total(s.slices, ByFlow(id), lane) == BytesOf(s.flows[id].counters).In(lane))
  }

  lemma ChargeFlows(s: State, f: Flow, domain: Option<Attribution>, delta: Bytes)
    requires Agrees(s, f, domain) && Awaits(s, f, delta)
    ensures FlowsExact(Charge(s, f, domain, delta))
  {
    var t := Charge(s, f, domain, delta);
    forall id, lane | id in t.flows
      ensures Total(t.slices, ByFlow(id), lane) == BytesOf(t.flows[id].counters).In(lane)
    {
      ChargeTotal(s, f, domain, delta, ByFlow(id), lane);
    }
  }

  lemma StoreRowAwaits(owner: Owner, s: State, f: Flow, domain: Option<Attribution>, delta: Bytes)
    requires Exact(owner, s) && Chargeable(owner, s, f, domain, delta)
    ensures Awaits(StoreRow(s, f, domain), f, delta)
  {}

  lemma ChargeExact(owner: Owner, s: State, f: Flow, domain: Option<Attribution>, delta: Bytes)
    requires Exact(owner, s) && Chargeable(owner, s, f, domain, delta)
    ensures Exact(owner, ChargeIncrease(StoreRow(s, f, domain), f, domain, delta))
  {
    var s1 := StoreRow(s, f, domain);
    ChargeCoherent(owner, s, f, domain, delta);
    StoreRowOwned(owner, s, f, domain, delta);
    StoreRowAwaits(owner, s, f, domain, delta);
    if delta != NO_BYTES {
      ChargeDevices(s1, f, domain, delta);
      ChargeFlows(s1, f, domain, delta);
    }
  }

  lemma UpsertFlowExact(owner: Owner, s: State, f: Flow)
    requires Exact(owner, s) && f.Mac() == owner(f.flowId)
    ensures Relabel(s, f).Ok? && Exact(owner, Relabel(s, f).value)
    ensures UpsertFlow(s, f).Ok? ==> Exact(owner, UpsertFlow(s, f).value)
  {
    var domain := KeptDomain(s, f);
    var touched := s.(devices := Touched(s.devices, f.Mac(), f.endpoints.clientIp));
    assert Exact(owner, touched);
    if f.flowId in s.flows && domain.Some? && domain != s.flows[f.flowId].domain {
      ReattributeExact(owner, touched, f.flowId, domain.value);
    }
    if Fits(f.counters) && Increase(s, f).Some? {
      RelabelIsChargeable(owner, s, f);
      ChargeExact(owner, Relabel(s, f).value, f, domain, BytesOf(Increase(s, f).value));
    }
  }

  lemma {:induction false} UpsertAllExact(owner: Owner, s: State, fs: seq<Flow>)
    requires Exact(owner, s) && OwnedBatch(owner, fs)
    ensures UpsertAll(s, fs).Ok? ==> Exact(owner, UpsertAll(s, fs).value)
    decreases |fs|
  {
    if fs != [] && UpsertFlow(s, fs[0]).Ok? {
      UpsertFlowExact(owner, s, fs[0]);
      UpsertAllExact(owner, UpsertFlow(s, fs[0]).value, fs[1..]);
    }
  }

  lemma BackfillFlowExact(owner: Owner, s: State, b: Binding, id: FlowId)
    requires Exact(owner, s) && id in Matching(s, b)
    ensures BackfillFlow(s, b, id).Ok?
    ensures var t := BackfillFlow(s, b, id).value.state; Exact(owner, t) && SameRows(s, t)
  {
    if Improves(s, b, id) {
      ReattributeExact(owner, s, id, Effective(s.flows[id].domain, Some(b.attribution)).value);
    }
  }

  lemma {:induction false} BackfillRowsExact(owner: Owner, s: State, b: Binding, rows: seq<FlowId>)
    requires Exact(owner, s) && (forall id :: id in rows ==> id in Matching(s, b))
    ensures BackfillRows(s, b, rows).Ok?
    ensures var t := BackfillRows(s, b, rows).value.state; Exact(owner, t) && SameRows(s, t)
    decreases |rows|
  {
    if rows != [] {
      BackfillFlowExact(owner, s, b, rows[0]);
      var next := BackfillFlow(s, b, rows[0]).value.state;
      SameRowsMatch(s, next, b);
      BackfillRowsExact(owner, next, b, rows[1..]);
    }
  }

  lemma {:induction false} BackfillAllExact(owner: Owner, s: State, work: seq<Work>)
    requires Exact(owner, s) && FaithfulWork(s, work)
    ensures BackfillAll(s, work).Ok?
    ensures var t := BackfillAll(s, work).value.state; Exact(owner, t) && SameRows(s, t)
    decreases |work|
  {
    if work != [] {
      assert Enumerates(work[0].rows, Matching(s, work[0].binding));
      BackfillRowsExact(owner, s, work[0].binding, work[0].rows);
      var next := BackfillRows(s, work[0].binding, work[0].rows).value.state;
      SameRowsFaithful(s, next, work);
      assert FaithfulWork(next, work[1..]);
      BackfillAllExact(owner, next, work[1..]);
    }
  }

  /** A history of snapshots and backfills only. */
  predicate Additive(steps: seq<Step>) {
    forall i :: 0 <= i < |steps| ==> steps[i].Upsert? || steps[i].Backfill?
  }

  lemma {:induction false} BooksStayExact(owner: Owner, s: State, steps: seq<Step>)
    requires Exact(owner, s) && Additive(steps) && LegalRun(owner, s, steps)
    ensures Exact(owner, Run(s, steps))
    decreases |steps|
  {
    if steps != [] {
      match steps[0] {
        case Upsert(flows) => UpsertAllExact(owner, s, flows);
        case Backfill(work) => BackfillAllExact(owner, s, work);
      }
      assert Additive(steps[1..]);
      BooksStayExact(owner, Apply(s, steps[0]), steps[1..]);
    }
  }

  /** From an empty database: device and domain minutes are sums of contributions, each flow's contributions
      add up to its counters, and the legacy baseline is dead code. */
  lemma ExactBooks(owner: Owner, steps: seq<Step>)
    requires Additive(steps) && LegalRun(owner, EMPTY_LEDGER, steps)
    ensures var t := Run(EMPTY_LEDGER, steps);
            && (forall key, lane :: Booked(t.domainMinutes, key, lane) == Total(t.slices, ByDomain(key), lane))
            && (forall key, lane :: Metered(t.deviceMinutes, key, lane) == Total(t.slices, ByDevice(key), lane))
            && (forall id, lane :: id in t.flows ==>
                  Total(t.slices, ByFlow(id), lane) == BytesOf(t.flows[id].counters).In(lane))
            && (forall id, mac :: id in t.flows ==> WithBaseline(t.slices, id, mac, t.flows[id]) == t.slices)
  {
    EmptyIsExact(owner);
    BooksStayExact(owner, EMPTY_LEDGER, steps);
    var t := Run(EMPTY_LEDGER, steps);
    forall key, lane ensures Booked(t.domainMinutes, key, lane) == Total(t.slices, ByDomain(key), lane) {
      assert Surplus(t.domainMinutes, t.slices, key, lane) == 0;
    }
    forall id, mac | id in t.flows {
      BaselineIsDead(t, id, mac);
    }
  }

  /** A device is never charged less in a minute than any of its domains. */
  lemma DomainWithinDevice(owner: Owner, steps: seq<Step>, key: DomainMinute, lane: Lane)
    requires Additive(steps) && LegalRun(owner, EMPTY_LEDGER, steps)
    ensures var t := Run(EMPTY_LEDGER, steps);
            Booked(t.domainMinutes, key, lane) <= Metered(t.deviceMinutes, DeviceMinute(key.mac, key.minute), lane)
  {
    ExactBooks(owner, steps);
    var t := Run(EMPTY_LEDGER, steps);
    var device := DeviceMinute(key.mac, key.minute);
    SumOfPart(Part(t.slices, ByDomain(key), lane), Part(t.slices, ByDevice(device), lane));
  }

  // ----- conservation: what a device is charged is what its flows counted -----

  function MinutesOf(s: State, mac: Mac, lane: Lane): map<DeviceMinute, nat> {
    map k | k in s.deviceMinutes && k.mac == mac :: s.deviceMinutes[k].In(lane)
  }

  function CountersOf(s: State, mac: Mac, lane: Lane): map<FlowId, nat> {
    map id | id in s.flows && s.flows[id].Mac() == mac :: BytesOf(s.flows[id].counters).In(lane)
  }

  ghost predicate Conserved(s: State) {
    forall mac, lane :: Sum(MinutesOf(s, mac, lane)) == Sum(CountersOf(s, mac, lane))
  }

  lemma StoreRowCounters(owner: Owner, s: State, f: Flow, domain: Option<Attribution>, delta: Bytes, mac: Mac,
      lane: Lane)
    requires FlowsOwned(owner, s) && Chargeable(owner, s, f, domain, delta)
    ensures Sum(CountersOf(StoreRow(s, f, domain), mac, lane))
         == Sum(CountersOf(s, mac, lane)) + if f.Mac() == mac then delta.In(lane) else 0
  {
    var m, n := CountersOf(s, mac, lane), CountersOf(StoreRow(s, f, domain), mac, lane);
    assert m - {f.flowId} == n - {f.flowId};
    SumsDifferAt(m, n, f.flowId);
  }

  lemma ChargeMinutes(s: State, f: Flow, domain: Option<Attribution>, delta: Bytes, mac: Mac, lane: Lane)
    ensures Sum(MinutesOf(Charge(s, f, domain, delta), mac, lane))
         == Sum(MinutesOf(s, mac, lane)) + if f.Mac() == mac then delta.In(lane) else 0
  {
    var key := DeviceMinute(f.Mac(), FloorToMinute(f.lastSeen));
    var m, n := MinutesOf(s, mac, lane), MinutesOf(Charge(s, f, domain, delta), mac, lane);
    assert m - {key} == n - {key};
    SumsDifferAt(m, n, key);
  }

  lemma ChargeConserves(owner: Owner, s: State, f: Flow, domain: Option<Attribution>, delta: Bytes)
    requires FlowsOwned(owner, s) && Conserved(s) && Chargeable(owner, s, f, domain, delta)
    ensures Conserved(ChargeIncrease(StoreRow(s, f, domain), f, domain, delta))
  {
    var s1 := StoreRow(s, f, domain);
    var t := ChargeIncrease(s1, f, domain, delta);
    forall mac, lane ensures Sum(MinutesOf(t, mac, lane)) == Sum(CountersOf(t, mac, lane)) {
      StoreRowCounters(owner, s, f, domain, delta, mac, lane);
      assert MinutesOf(s1, mac, lane) == MinutesOf(s, mac, lane);
      if delta != NO_BYTES {
        ChargeMinutes(s1, f, domain, delta, mac, lane);
        assert CountersOf(t, mac, lane) == CountersOf(s1, mac, lane);
      }
    }
  }

  lemma RelabelConserves(s: State, f: Flow)
    requires Conserved(s) && Relabel(s, f).Ok?
    ensures Conserved(Relabel(s, f).value)
  {
    SameRowsConserved(s, Relabel(s, f).value);
  }

  lemma UpsertFlowConserves(owner: Owner, s: State, f: Flow)
    requires Exact(owner, s) && Conserved(s) && f.Mac() == owner(f.flowId) && UpsertFlow(s, f).Ok?
    ensures Conserved(UpsertFlow(s, f).value)
  {
    UpsertFlowExact(owner, s, f);
    RelabelIsChargeable(owner, s, f);
    RelabelConserves(s, f);
    ChargeConserves(owner, Relabel(s, f).value, f, KeptDomain(s, f), BytesOf(Increase(s, f).value));
  }

  lemma {:induction false} UpsertAllConserves(owner: Owner, s: State, fs: seq<Flow>)
    requires Exact(owner, s) && Conserved(s) && OwnedBatch(owner, fs) && UpsertAll(s, fs).Ok?
    ensures Conserved(UpsertAll(s, fs).value)
    decreases |fs|
  {
    if fs != [] {
      UpsertFlowConserves(owner, s, fs[0]);
      UpsertFlowExact(owner, s, fs[0]);
      UpsertAllConserves(owner, UpsertFlow(s, fs[0]).value, fs[1..]);
    }
  }

  lemma {:induction false} BackfillRowsTouchOnlyDomains(s: State, b: Binding, rows: seq<FlowId>)
    requires BackfillRows(s, b, rows).Ok?
    ensures var t := BackfillRows(s, b, rows).value.state;
            t.deviceMinutes == s.deviceMinutes && t.devices == s.devices && SameRows(s, t)
    decreases |rows|
  {
    if rows != [] {
      BackfillRowsTouchOnlyDomains(BackfillFlow(s, b, rows[0]).value.state, b, rows[1..]);
    }
  }

  lemma {:induction false} BackfillAllTouchesOnlyDomains(s: State, work: seq<Work>)
    requires BackfillAll(s, work).Ok?
    ensures var t := BackfillAll(s, work).value.state;
            t.deviceMinutes == s.deviceMinutes && t.devices == s.devices && SameRows(s, t)
    decreases |work|
  {
    if work != [] {
      BackfillRowsTouchOnlyDomains(s, work[0].binding, work[0].rows);
      BackfillAllTouchesOnlyDomains(BackfillRows(s, work[0].binding, work[0].rows).value.state, work[1..]);
    }
  }

  lemma SameRowsConserved(s: State, t: State)
    requires Conserved(s) && t.deviceMinutes == s.deviceMinutes && SameRows(s, t)
    ensures Conserved(t)
  {
    forall id | id in s.flows
      ensures s.flows[id].Mac() == t.flows[id].Mac() && s.flows[id].counters == t.flows[id].counters
    {
      assert s.flows[id].(domain := None) == t.flows[id].(domain := None);
    }
    forall mac, lane ensures Sum(MinutesOf(t, mac, lane)) == Sum(CountersOf(t, mac, lane)) {
      assert MinutesOf(t, mac, lane) == MinutesOf(s, mac, lane);
      assert CountersOf(t, mac, lane) == CountersOf(s, mac, lane);
    }
  }

  lemma {:induction false} RunConserves(owner: Owner, s: State, steps: seq<Step>)
    requires Exact(owner, s) && Conserved(s) && Additive(steps) && LegalRun(owner, s, steps)
    ensures Conserved(Run(s, steps))
    decreases |steps|
  {
    if steps != [] {
      BooksStayExact(owner, s, steps[..1]);
      match steps[0] {
        case Upsert(flows) =>
          UpsertAllExact(owner, s, flows);
          if UpsertFlows(s, flows).Ok? {
            UpsertAllConserves(owner, s, flows);
          }
        case Backfill(work) =>
          BackfillAllExact(owner, s, work);
          BackfillAllTouchesOnlyDomains(s, work);
          SameRowsConserved(s, Apply(s, steps[0]));
      }
      assert Additive(steps[1..]);
      RunConserves(owner, Apply(s, steps[0]), steps[1..]);
    }
  }

  /** Over every run, each device's minutes add up to the latest cumulative counters of its flows. */
  lemma DevicesMatchCounters(owner: Owner, steps: seq<Step>, mac: Mac, lane: Lane)
    requires Additive(steps) && LegalRun(owner, EMPTY_LEDGER, steps)
    ensures var t := Run(EMPTY_LEDGER, steps); Sum(MinutesOf(t, mac, lane)) == Sum(CountersOf(t, mac, lane))
  {
    EmptyIsExact(owner);
    assert Conserved(EMPTY_LEDGER) by {
      forall m, l ensures Sum(MinutesOf(EMPTY_LEDGER, m, l)) == Sum(CountersOf(EMPTY_LEDGER, m, l)) {
        assert MinutesOf(EMPTY_LEDGER, m, l) == map[] && CountersOf(EMPTY_LEDGER, m, l) == map[];
      }
    }
    RunConserves(owner, EMPTY_LEDGER, steps);
  }
}
