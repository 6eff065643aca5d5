/**
 * The ledger's invariant and its preservation by every transaction: contributions belong to their flow,
 * stay within its counters, and are covered by the domain aggregates, so a reattribution never aborts.
 */
module LedgerInvariant {
  import opened Domain
  import opened Attributions
  import opened Ledger
  import opened Totals

  /** The device a flow id belongs to: collectors embed the MAC in the id. */
  type Owner = FlowId -> Mac

  ghost predicate FlowsOwned(owner: Owner, s: State) {
    forall id :: id in s.flows ==>
      && s.flows[id].Mac() == owner(id)
      && s.flows[id].Mac() in s.devices
      && Fits(s.flows[id].counters)
  }

  /** Each contribution agrees with its flow in MAC and in the whole attribution record, and is not empty. */
  ghost predicate SlicesOwned(s: State) {
    forall k :: k in s.slices ==>
      && k.flow in s.flows
      && s.slices[k].mac == s.flows[k.flow].Mac()
      && s.slices[k].attribution == s.flows[k.flow].domain
      && s.slices[k].bytes != NO_BYTES
  }

  /** A flow's contributions add up to no more than its cumulative counters. */
  ghost predicate WithinCounters(s: State) {
    forall id, lane :: id in s.flows ==> Total(s.slices, ByFlow(id), lane) <= BytesOf(s.flows[id].counters).In(lane)
  }

  /** The bytes an aggregate row holds, none when the row is missing. */
  function Booked(table: DomainTable, key: DomainMinute, lane: Lane): nat { DomainBytes(table, key).In(lane) }

  /** What no contribution accounts for in an aggregate. */
  ghost function Surplus(table: DomainTable, slices: Slices, key: DomainMinute, lane: Lane): int {
    Booked(table, key, lane) - Total(slices, ByDomain(key), lane)
  }

  /** Each aggregate holds at least the sum of its contributions. */
  ghost predicate Covered(s: State) {
    forall key, lane :: Surplus(s.domainMinutes, s.slices, key, lane) >= 0
  }

  ghost predicate Coherent(owner: Owner, s: State) {
    FlowsOwned(owner, s) && SlicesOwned(s) && WithinCounters(s) && Covered(s)
  }

  ghost predicate SameSurplus(s: State, t: State) {
    forall key, lane :: Surplus(t.domainMinutes, t.slices, key, lane) == Surplus(s.domainMinutes, s.slices, key, lane)
  }

  // ----- the domain table under moves -----

  /** What `b` bytes charged to the domain `d` of a device minute are to one aggregate. */
  function Holds(mac: Mac, minute: int, d: Option<DomainName>, b: Bytes, key: DomainMinute, lane: Lane): nat {
    if key.mac == mac && key.minute == minute && d == Some(key.domain) then b.In(lane) else 0
  }

  lemma MoveBytes(table: DomainTable, mac: Mac, a: Attribution, minute: int, s: Slice, key: DomainMinute, lane: Lane)
    requires CanMove(table, mac, a, minute, s)
    ensures Booked(Move(table, mac, a, minute, s), key, lane) + Holds(mac, minute, DomainOf(s), s.bytes, key, lane)
         == Booked(table, key, lane) + Holds(mac, minute, Some(a.domain), s.bytes, key, lane)
  {}

  /** The table of `Moved` is read row by row from `MovedAt`. */
  lemma MovedRow(table: DomainTable, mac: Mac, a: Attribution, id: FlowId, part: Slices, key: DomainMinute)
    requires CanMoveAll(table, mac, a, part)
    requires forall k :: k in part ==> k.flow == id
    ensures var at := MovedAt(table, mac, a, id, part, key);
            var all := Moved(table, mac, a, id, part);
            && (key in all <==> key in at)
            && (key in all ==> all[key] == at[key])
  {}

  // ----- reattribution -----

  ghost predicate Reattributable(s: State, id: FlowId, mac: Mac) {
    id in s.flows && mac == s.flows[id].Mac() && SlicesOwned(s) && Covered(s)
  }

  lemma BaselineOwned(s: State, id: FlowId, mac: Mac)
    requires Reattributable(s, id, mac)
    ensures var base := WithBaseline(s.slices, id, mac, s.flows[id]);
            SlicesOwned(s.(slices := base)) && Covered(s.(slices := base))
  {
    var base := WithBaseline(s.slices, id, mac, s.flows[id]);
    forall key, lane ensures Surplus(s.domainMinutes, base, key, lane) >= 0 {
      BaselineKeepsDomainTotals(s.slices, id, mac, s.flows[id], key, lane);
      assert Surplus(s.domainMinutes, s.slices, key, lane) >= 0;
    }
  }

  /** The books always cover what a reattribution subtracts. */
  lemma ReattributeNeverAborts(s: State, id: FlowId, mac: Mac, a: Attribution)
    requires Reattributable(s, id, mac)
    ensures Reattribute(s, id, mac, a).Ok?
  {
    BaselineOwned(s, id, mac);
    var base := WithBaseline(s.slices, id, mac, s.flows[id]);
    var t := s.(slices := base);
    var part := SlicesOf(base, id);
    forall k | k in part
      ensures CanMove(s.domainMinutes, mac, a, k.minute, part[k])
    {
      if part[k].attribution.Some? {
        var key := DomainMinute(mac, part[k].attribution.value.domain, k.minute);
        assert t.slices[k].mac == mac && t.slices[k].bytes != NO_BYTES;
        forall lane ensures part[k].bytes.In(lane) <= Booked(t.domainMinutes, key, lane) {
          ShareWithinTotal(base, ByDomain(key), lane, k);
          assert Surplus(t.domainMinutes, t.slices, key, lane) >= 0;
        }
        assert part[k].bytes.In(Up) <= Booked(t.domainMinutes, key, Up);
        assert part[k].bytes.In(Down) <= Booked(t.domainMinutes, key, Down);
      }
    }
  }

  /** The slice a flow has in a minute of `slices`, seen by one aggregate. */
  function HeldIn(slices: Slices, id: FlowId, mac: Mac, key: DomainMinute, lane: Lane): nat {
    var k := SliceKey(id, key.minute);
    if k in slices then Holds(mac, key.minute, DomainOf(slices[k]), slices[k].bytes, key, lane) else 0
  }

  lemma MovedBytes(table: DomainTable, mac: Mac, a: Attribution, id: FlowId, slices: Slices, key: DomainMinute,
      lane: Lane)
    requires CanMoveAll(table, mac, a, SlicesOf(slices, id))
    ensures Booked(Moved(table, mac, a, id, SlicesOf(slices, id)), key, lane) + HeldIn(slices, id, mac, key, lane)
         == Booked(table, key, lane) + HeldIn(Relabelled(slices, id, a), id, mac, key, lane)
  {
    var part := SlicesOf(slices, id);
    var k := SliceKey(id, key.minute);
    MovedRow(table, mac, a, id, part, key);
    if k in slices {
      MoveBytes(table, mac, a, key.minute, part[k], key, lane);
    }
  }

  lemma MoveKeepsSurplus(table: DomainTable, mac: Mac, a: Attribution, id: FlowId, slices: Slices, key: DomainMinute,
      lane: Lane)
    requires CanMoveAll(table, mac, a, SlicesOf(slices, id))
    requires forall k :: k in slices && k.flow == id ==> slices[k].mac == mac
    ensures Surplus(Moved(table, mac, a, id, SlicesOf(slices, id)), Relabelled(slices, id, a), key, lane)
         == Surplus(table, slices, key, lane)
  {
    RelabelMovesShare(slices, id, a, key, lane);
    MovedBytes(table, mac, a, id, slices, key, lane);
  }

  lemma ReattributeSurplus(s: State, id: FlowId, mac: Mac, a: Attribution)
    requires Reattributable(s, id, mac) && Reattribute(s, id, mac, a).Ok?
    ensures SameSurplus(s, Reattribute(s, id, mac, a).value)
  {
    var base := WithBaseline(s.slices, id, mac, s.flows[id]);
    var t := Reattribute(s, id, mac, a).value;
    forall key, lane
      ensures Surplus(t.domainMinutes, t.slices, key, lane) == Surplus(s.domainMinutes, s.slices, key, lane)
    {
      BaselineKeepsDomainTotals(s.slices, id, mac, s.flows[id], key, lane);
      MoveKeepsSurplus(s.domainMinutes, mac, a, id, base, key, lane);
    }
  }

  lemma ReattributeOwned(owner: Owner, s: State, id: FlowId, mac: Mac, a: Attribution)
    requires FlowsOwned(owner, s) && Reattributable(s, id, mac) && Reattribute(s, id, mac, a).Ok?
    ensures var t := Reattribute(s, id, mac, a).value; FlowsOwned(owner, t) && SlicesOwned(t)
  {}

  lemma BaselineTotal(s: State, id: FlowId, mac: Mac, j: FlowId, lane: Lane)
    requires id in s.flows
    ensures var base := WithBaseline(s.slices, id, mac, s.flows[id]);
            Total(base, ByFlow(j), lane) == Total(s.slices, ByFlow(j), lane)
            || (j == id && Total(base, ByFlow(j), lane) == BytesOf(s.flows[id].counters).In(lane))
  {
    var row := s.flows[id];
    if WithBaseline(s.slices, id, mac, row) != s.slices {
      TotalAfterSlice(s.slices, SliceKey(id, FloorToMinute(row.lastSeen)), mac, BytesOf(row.counters), None, ByFlow(j),
          lane);
      if j == id {
        NothingSelected(s.slices, ByFlow(id), lane);
      }
    }
  }

  lemma ReattributeWithin(s: State, id: FlowId, mac: Mac, a: Attribution)
    requires id in s.flows && WithinCounters(s) && Reattribute(s, id, mac, a).Ok?
    ensures WithinCounters(Reattribute(s, id, mac, a).value)
  {
    var base := WithBaseline(s.slices, id, mac, s.flows[id]);
    var t := Reattribute(s, id, mac, a).value;
    forall j, lane | j in t.flows ensures Total(t.slices, ByFlow(j), lane) <= BytesOf(t.flows[j].counters).In(lane) {
      BaselineTotal(s, id, mac, j, lane);
      RelabelKeepsTotals(base, id, a, ByFlow(j), lane);
    }
  }

  lemma ReattributeCoherent(owner: Owner, s: State, id: FlowId, mac: Mac, a: Attribution)
    requires Coherent(owner, s) && id in s.flows && mac == owner(id)
    ensures Reattribute(s, id, mac, a).Ok?
    ensures var t := Reattribute(s, id, mac, a).value; Coherent(owner, t) && SameSurplus(s, t)
  {
    ReattributeNeverAborts(s, id, mac, a);
    ReattributeOwned(owner, s, id, mac, a);
    ReattributeSurplus(s, id, mac, a);
    ReattributeWithin(s, id, mac, a);
  }

  // ----- storing the row and charging the increase -----

  /** The conditions under which a snapshot's row is stored and its increase charged. */
  ghost predicate Chargeable(owner: Owner, s: State, f: Flow, domain: Option<Attribution>, delta: Bytes) {
    && f.Mac() == owner(f.flowId) && f.Mac() in s.devices && Fits(f.counters)
    && (f.flowId in s.flows ==>
          && s.flows[f.flowId].domain == domain
          && Plus(BytesOf(s.flows[f.flowId].counters), delta) == BytesOf(f.counters))
    && (f.flowId !in s.flows ==> delta == BytesOf(f.counters))
  }

  /** The contributions of the charged flow are as the row now stored has them. */
  ghost predicate Agrees(s: State, f: Flow, domain: Option<Attribution>) {
    forall k :: k in s.slices && k.flow == f.flowId ==> s.slices[k].mac == f.Mac() && s.slices[k].attribution == domain
  }

  lemma StoreRowOwned(owner: Owner, s: State, f: Flow, domain: Option<Attribution>, delta: Bytes)
    requires FlowsOwned(owner, s) && SlicesOwned(s) && Chargeable(owner, s, f, domain, delta)
    ensures var t := StoreRow(s, f, domain);
            && FlowsOwned(owner, t) && SlicesOwned(t) && Agrees(t, f, domain)
            && f.flowId in t.flows && t.flows[f.flowId].Mac() == f.Mac()
            && t.flows[f.flowId].domain == domain && t.flows[f.flowId].counters == f.counters
  {}

  lemma StoreRowWithin(owner: Owner, s: State, f: Flow, domain: Option<Attribution>, delta: Bytes)
    requires SlicesOwned(s) && WithinCounters(s) && Chargeable(owner, s, f, domain, delta)
    ensures WithinCounters(StoreRow(s, f, domain))
    ensures forall lane :: Total(s.slices, ByFlow(f.flowId), lane) + delta.In(lane) <= BytesOf(f.counters).In(lane)
  {}

  lemma ChargeOwned(owner: Owner, s: State, f: Flow, domain: Option<Attribution>, delta: Bytes)
    requires FlowsOwned(owner, s) && SlicesOwned(s) && delta != NO_BYTES
    requires f.flowId in s.flows && s.flows[f.flowId].Mac() == f.Mac() && s.flows[f.flowId].domain == domain
    ensures FlowsOwned(owner, Charge(s, f, domain, delta)) && SlicesOwned(Charge(s, f, domain, delta))
  {}

  lemma CreditBytes(table: DomainTable, mac: Mac, domain: Option<Attribution>, minute: int, b: Bytes,
      key: DomainMinute, lane: Lane)
    ensures Booked(WithCredit(table, mac, domain, minute, b), key, lane)
         == Booked(table, key, lane)
          + Holds(mac, minute, if domain.Some? then Some(domain.value.domain) else None, b, key, lane)
  {}

  lemma ChargeTotal(s: State, f: Flow, domain: Option<Attribution>, delta: Bytes, sel: Selector, lane: Lane)
    requires Agrees(s, f, domain)
    ensures Total(Charge(s, f, domain, delta).slices, sel, lane)
         == Total(s.slices, sel, lane)
          + Gain(sel, lane, SliceKey(f.flowId, FloorToMinute(f.lastSeen)), Slice(f.Mac(), delta, domain))
  {
    TotalAfterSlice(s.slices, SliceKey(f.flowId, FloorToMinute(f.lastSeen)), f.Mac(), delta, domain, sel, lane);
  }

  lemma ChargeSurplus(s: State, f: Flow, domain: Option<Attribution>, delta: Bytes)
    requires Agrees(s, f, domain)
    ensures SameSurplus(s, Charge(s, f, domain, delta))
  {
    var t := Charge(s, f, domain, delta);
    forall key, lane
      ensures Surplus(t.domainMinutes, t.slices, key, lane) == Surplus(s.domainMinutes, s.slices, key, lane)
    {
      ChargeTotal(s, f, domain, delta, ByDomain(key), lane);
      CreditBytes(s.domainMinutes, f.Mac(), domain, FloorToMinute(f.lastSeen), delta, key, lane);
    }
  }

  lemma ChargeWithin(s: State, f: Flow, domain: Option<Attribution>, delta: Bytes)
    requires WithinCounters(s) && Agrees(s, f, domain) && f.flowId in s.flows
    requires forall lane :: Total(s.slices, ByFlow(f.flowId), lane) + delta.In(lane) <= BytesOf(f.counters).In(lane)
    requires BytesOf(s.flows[f.flowId].counters) == BytesOf(f.counters)
    ensures WithinCounters(Charge(s, f, domain, delta))
  {
    forall id, lane {
      ChargeTotal(s, f, domain, delta, ByFlow(id), lane);
    }
  }

  lemma ChargeCoherent(owner: Owner, s: State, f: Flow, domain: Option<Attribution>, delta: Bytes)
    requires Coherent(owner, s) && Chargeable(owner, s, f, domain, delta)
    ensures var t := ChargeIncrease(StoreRow(s, f, domain), f, domain, delta); Coherent(owner, t) && SameSurplus(s, t)
  {
    var s1 := StoreRow(s, f, domain);
    StoreRowOwned(owner, s, f, domain, delta);
    StoreRowWithin(owner, s, f, domain, delta);
    if delta != NO_BYTES {
      ChargeOwned(owner, s1, f, domain, delta);
      ChargeSurplus(s1, f, domain, delta);
      ChargeWithin(s1, f, domain, delta);
    }
  }

  // ----- the transactions -----

  lemma RelabelCoherent(owner: Owner, s: State, f: Flow)
    requires Coherent(owner, s) && f.Mac() == owner(f.flowId)
    ensures Relabel(s, f).Ok?
    ensures Coherent(owner, Relabel(s, f).value) && SameSurplus(s, Relabel(s, f).value)
  {
    var domain := KeptDomain(s, f);
    var touched := s.(devices := Touched(s.devices, f.Mac(), f.endpoints.clientIp));
    assert Coherent(owner, touched) && SameSurplus(s, touched);
    if f.flowId in s.flows && domain.Some? && domain != s.flows[f.flowId].domain {
      ReattributeCoherent(owner, touched, f.flowId, f.Mac(), domain.value);
    }
  }

  lemma RelabelIsChargeable(owner: Owner, s: State, f: Flow)
    requires Coherent(owner, s) && f.Mac() == owner(f.flowId) && Fits(f.counters)
    requires Increase(s, f).Some? && Relabel(s, f).Ok?
    ensures Chargeable(owner, Relabel(s, f).value, f, KeptDomain(s, f), BytesOf(Increase(s, f).value))
  {}

  lemma UpsertFlowCoherent(owner: Owner, s: State, f: Flow)
    requires Coherent(owner, s) && f.Mac() == owner(f.flowId)
    ensures UpsertFlow(s, f) != Err(Unbalanced)
    ensures UpsertFlow(s, f).Ok? ==> Coherent(owner, UpsertFlow(s, f).value) && SameSurplus(s, UpsertFlow(s, f).value)
  {
    RelabelCoherent(owner, s, f);
    if Fits(f.counters) && Increase(s, f).Some? {
      RelabelIsChargeable(owner, s, f);
      ChargeCoherent(owner, Relabel(s, f).value, f, KeptDomain(s, f), BytesOf(Increase(s, f).value));
    }
  }

  ghost predicate OwnedBatch(owner: Owner, fs: seq<Flow>) {
    forall i :: 0 <= i < |fs| ==> fs[i].Mac() == owner(fs[i].flowId)
  }

  lemma {:induction false} UpsertAllCoherent(owner: Owner, s: State, fs: seq<Flow>)
    requires Coherent(owner, s) && OwnedBatch(owner, fs)
    ensures UpsertAll(s, fs) != Err(Unbalanced)
    ensures UpsertAll(s, fs).Ok? ==> Coherent(owner, UpsertAll(s, fs).value) && SameSurplus(s, UpsertAll(s, fs).value)
    decreases |fs|
  {
    if fs != [] {
      UpsertFlowCoherent(owner, s, fs[0]);
      if UpsertFlow(s, fs[0]).Ok? {
        var next := UpsertFlow(s, fs[0]).value;
        UpsertAllCoherent(owner, next, fs[1..]);
      }
    }
  }

  /** A backfill leaves every matching column of every flow alone. */
  ghost predicate SameRows(s: State, t: State) {
    && s.flows.Keys == t.flows.Keys
    && forall id :: id in s.flows ==> s.flows[id].(domain := None) == t.flows[id].(domain := None)
  }

  lemma BackfillFlowCoherent(owner: Owner, s: State, b: Binding, id: FlowId)
    requires Coherent(owner, s) && id in Matching(s, b)
    ensures BackfillFlow(s, b, id).Ok?
    ensures var t := BackfillFlow(s, b, id).value.state; Coherent(owner, t) && SameSurplus(s, t) && SameRows(s, t)
  {
    if Improves(s, b, id) {
      ReattributeCoherent(owner, s, id, b.clientMac, Effective(s.flows[id].domain, Some(b.attribution)).value);
    }
  }

  lemma SameRowsMatch(s: State, t: State, b: Binding)
    requires SameRows(s, t)
    ensures Matching(s, b) == Matching(t, b)
  {}

  lemma {:induction false} BackfillRowsCoherent(owner: Owner, s: State, b: Binding, rows: seq<FlowId>)
    requires Coherent(owner, s) && (forall id :: id in rows ==> id in Matching(s, b))
    ensures BackfillRows(s, b, rows).Ok?
    ensures var t := BackfillRows(s, b, rows).value.state; Coherent(owner, t) && SameSurplus(s, t) && SameRows(s, t)
    decreases |rows|
  {
    if rows != [] {
      BackfillFlowCoherent(owner, s, b, rows[0]);
      var next := BackfillFlow(s, b, rows[0]).value.state;
      SameRowsMatch(s, next, b);
      BackfillRowsCoherent(owner, next, b, rows[1..]);
    }
  }

  /** The database returned, for each binding, rows that match it. */
  ghost predicate FaithfulWork(s: State, work: seq<Work>) {
    forall i :: 0 <= i < |work| ==> Enumerates(work[i].rows, Matching(s, work[i].binding))
  }

  lemma SameRowsFaithful(s: State, t: State, work: seq<Work>)
    requires SameRows(s, t) && FaithfulWork(s, work)
    ensures FaithfulWork(t, work)
  {}

  lemma {:induction false} BackfillAllCoherent(owner: Owner, s: State, work: seq<Work>)
    requires Coherent(owner, s) && FaithfulWork(s, work)
    ensures BackfillAll(s, work).Ok?
    ensures var t := BackfillAll(s, work).value.state; Coherent(owner, t) && SameSurplus(s, t) && SameRows(s, t)
    decreases |work|
  {
    if work != [] {
      assert Enumerates(work[0].rows, Matching(s, work[0].binding));
      BackfillRowsCoherent(owner, s, work[0].binding, work[0].rows);
      var next := BackfillRows(s, work[0].binding, work[0].rows).value.state;
      SameRowsFaithful(s, next, work);
      assert FaithfulWork(next, work[1..]);
      BackfillAllCoherent(owner, next, work[1..]);
    }
  }

  // ----- deletion and expiry only drop contributions the aggregates may outlive -----

  /** `t` keeps a part of the contributions of `s`, and every aggregate that a kept one needs. */
  ghost predicate Trims(s: State, t: State) {
    && (forall k :: k in t.slices ==> k in s.slices && t.slices[k] == s.slices[k])
    && (forall k, d :: k in t.slices && DomainOf(t.slices[k]) == Some(d) ==>
          var key := DomainMinute(t.slices[k].mac, d, k.minute);
          DomainBytes(t.domainMinutes, key) == DomainBytes(s.domainMinutes, key))
  }

  lemma TrimmedIsCovered(s: State, t: State)
    requires Covered(s) && Trims(s, t)
    ensures Covered(t)
  {
    forall key, lane ensures Surplus(t.domainMinutes, t.slices, key, lane) >= 0 {
      if k :| k in t.slices && Selected(ByDomain(key), k, t.slices[k]) {
        FewerSlices(t.slices, s.slices, ByDomain(key), lane);
        assert Surplus(s.domainMinutes, s.slices, key, lane) >= 0;
      } else {
        NothingSelected(t.slices, ByDomain(key), lane);
      }
    }
  }

  lemma TrimmedIsWithin(s: State, t: State)
    requires WithinCounters(s) && Trims(s, t)
    requires forall id :: id in t.flows ==> id in s.flows && t.flows[id].counters == s.flows[id].counters
    ensures WithinCounters(t)
  {
    forall id, lane {
      FewerSlices(t.slices, s.slices, ByFlow(id), lane);
    }
  }

  lemma WithoutFlowsCoherent(owner: Owner, s: State, ids: set<FlowId>)
    requires Coherent(owner, s)
    ensures Coherent(owner, WithoutFlows(s, ids))
  {
    var t := WithoutFlows(s, ids);
    TrimmedIsCovered(s, t);
    TrimmedIsWithin(s, t);
  }

  /** What a deletion must keep besides trimming. */
  ghost predicate KeepsOwnership(s: State, t: State) {
    && (forall id :: id in t.flows ==> id in s.flows && t.flows[id].(domain := None) == s.flows[id].(domain := None))
    && (forall id :: id in t.flows ==> t.flows[id].Mac() in t.devices)
    && (forall k :: k in t.slices ==> k.flow in t.flows && t.flows[k.flow].domain == s.flows[k.flow].domain)
  }

  lemma TrimmedIsCoherent(owner: Owner, s: State, t: State)
    requires Coherent(owner, s) && Trims(s, t) && KeepsOwnership(s, t)
    ensures Coherent(owner, t)
  {
    TrimmedIsCovered(s, t);
    forall id | id in t.flows
      ensures t.flows[id].counters == s.flows[id].counters && t.flows[id].Mac() == s.flows[id].Mac()
    {
      assert t.flows[id].(domain := None) == s.flows[id].(domain := None);
    }
    TrimmedIsWithin(s, t);
  }

  lemma DeleteDeviceCoherent(owner: Owner, s: State, mac: Mac)
    requires Coherent(owner, s) && mac in s.devices
    ensures Coherent(owner, DeleteDevice(s, mac).value)
  {
    var t := DeleteDevice(s, mac).value;
    assert Trims(s, t);
    assert KeepsOwnership(s, t);
    TrimmedIsCoherent(owner, s, t);
  }

  lemma DeleteDomainTrims(s: State, scope: Option<Mac>, d: DomainName)
    ensures Trims(s, DeleteDomain(s, scope, d))
  {}

  lemma DeleteDomainKeepsOwnership(owner: Owner, s: State, scope: Option<Mac>, d: DomainName)
    requires FlowsOwned(owner, s) && SlicesOwned(s)
    ensures KeepsOwnership(s, DeleteDomain(s, scope, d))
  {
    var t := DeleteDomain(s, scope, d);
    forall k | k in t.slices ensures k.flow in t.flows && t.flows[k.flow].domain == s.flows[k.flow].domain {
      assert k in s.slices && s.slices[k].attribution == s.flows[k.flow].domain;
    }
  }

  lemma DeleteDomainCoherent(owner: Owner, s: State, scope: Option<Mac>, d: DomainName)
    requires Coherent(owner, s)
    ensures Coherent(owner, DeleteDomain(s, scope, d))
  {
    DeleteDomainKeepsOwnership(owner, s, scope, d);
    DeleteDomainTrims(s, scope, d);
    TrimmedIsCoherent(owner, s, DeleteDomain(s, scope, d));
  }

  lemma DeleteRangeCoherent(owner: Owner, s: State, range: TimeRange)
    requires Coherent(owner, s)
    ensures Coherent(owner, DeleteRange(s, range))
  {
    var t := DeleteRange(s, range);
    assert Trims(s, t);
    assert KeepsOwnership(s, t);
    TrimmedIsCoherent(owner, s, t);
  }

  lemma ExpireSlicesCoherent(owner: Owner, s: State, cutoff: int)
    requires Coherent(owner, s)
    ensures Coherent(owner, ExpireSlices(s, cutoff))
  {
    var t := ExpireSlices(s, cutoff);
    assert KeepsOwnership(s, t);
    TrimmedIsCoherent(owner, s, t);
  }

  lemma ExpireDomainMinutesCoherent(owner: Owner, s: State, cutoff: int)
    requires Coherent(owner, s) && (forall k :: k in s.slices ==> k.minute >= cutoff)
    ensures Coherent(owner, ExpireDomainMinutes(s, cutoff))
  {
    var t := ExpireDomainMinutes(s, cutoff);
    assert KeepsOwnership(s, t);
    assert Trims(s, t);
    TrimmedIsCoherent(owner, s, t);
  }

  /** Stopping the untransacted expiry after any of its statements leaves the invariant intact. */
  lemma ExpireCoherent(owner: Owner, s: State, flowCutoff: int, cutoff: int, done: nat)
    requires Coherent(owner, s)
    ensures Coherent(owner, Expire(s, flowCutoff, cutoff, done))
  {
    WithoutFlowsCoherent(owner, s, FlowsBefore(s.flows, flowCutoff));
    var s1 := if done >= 1 then ExpireFlows(s, flowCutoff) else s;
    var s2 := if done >= 2 then ExpireDeviceMinutes(s1, cutoff) else s1;
    assert Coherent(owner, s2);
    ExpireSlicesCoherent(owner, s2, cutoff);
    ExpireDomainMinutesCoherent(owner, ExpireSlices(s2, cutoff), cutoff);
  }
}
