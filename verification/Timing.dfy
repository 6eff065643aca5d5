/** When a flow learns its domain does not matter: late attribution leaves the same books as timely attribution. */
module Timing {
  import opened Domain
  import opened Attributions
  import opened Ledger
  import opened Totals
  import opened LedgerInvariant
  import opened LedgerRuns
  import opened Books

  function Bare(f: Flow): Flow { f.(domain := None) }

  /** Equal up to attributions and the aggregates derived from them. */
  ghost predicate SameTraffic(s: State, t: State) {
    && s.devices == t.devices && s.deviceMinutes == t.deviceMinutes
    && SameRows(s, t)
    && s.slices.Keys == t.slices.Keys
    && (forall k :: k in s.slices ==> s.slices[k].mac == t.slices[k].mac && s.slices[k].bytes == t.slices[k].bytes)
  }

  lemma SameTrafficJoins(s: State, t: State, u: State)
    requires SameTraffic(s, u) && SameTraffic(t, u)
    ensures SameTraffic(s, t)
  {}

  lemma ReattributeTraffic(s: State, id: FlowId, mac: Mac, a: Attribution)
    requires FlowsExact(s) && id in s.flows && Reattribute(s, id, mac, a).Ok?
    ensures SameTraffic(s, Reattribute(s, id, mac, a).value)
  {
    BaselineIsDead(s, id, mac);
  }

  lemma RelabelTraffic(s: State, f: Flow)
    requires FlowsExact(s) && Relabel(s, f).Ok?
    ensures SameTraffic(s.(devices := Touched(s.devices, f.Mac(), f.endpoints.clientIp)), Relabel(s, f).value)
  {
    var domain := KeptDomain(s, f);
    var touched := s.(devices := Touched(s.devices, f.Mac(), f.endpoints.clientIp));
    if f.flowId in s.flows && domain.Some? && domain != s.flows[f.flowId].domain {
      ReattributeTraffic(touched, f.flowId, f.Mac(), domain.value);
    }
  }

  lemma StoreRowTraffic(s: State, t: State, f: Flow, g: Flow, d: Option<Attribution>, e: Option<Attribution>)
    requires SameTraffic(s, t) && Bare(f) == Bare(g)
    ensures SameTraffic(StoreRow(s, f, d), StoreRow(t, g, e))
  {}

  lemma SliceTraffic(a: Slices, b: Slices, key: SliceKey, mac: Mac, delta: Bytes, d: Option<Attribution>,
      e: Option<Attribution>)
    requires a.Keys == b.Keys && (forall k :: k in a ==> a[k].mac == b[k].mac && a[k].bytes == b[k].bytes)
    ensures var x, y := WithSlice(a, key, mac, delta, d), WithSlice(b, key, mac, delta, e);
            x.Keys == y.Keys && (forall k :: k in x ==> x[k].mac == y[k].mac && x[k].bytes == y[k].bytes)
  {}

  lemma ChargeTraffic(s: State, t: State, f: Flow, g: Flow, d: Option<Attribution>, e: Option<Attribution>,
      delta: Bytes)
    requires SameTraffic(s, t) && Bare(f) == Bare(g)
    ensures SameTraffic(ChargeIncrease(s, f, d, delta), ChargeIncrease(t, g, e, delta))
  {
    assert f.Mac() == g.Mac() && f.flowId == g.flowId && f.lastSeen == g.lastSeen by {
      assert g == f.(domain := g.domain);
    }
    var key := SliceKey(f.flowId, FloorToMinute(f.lastSeen));
    SliceTraffic(s.slices, t.slices, key, f.Mac(), delta, d, e);
    if delta != NO_BYTES {
      var x, y := Charge(s, f, d, delta), Charge(t, g, e, delta);
      assert x.slices == WithSlice(s.slices, key, f.Mac(), delta, d)
          && y.slices == WithSlice(t.slices, key, f.Mac(), delta, e);
      assert x.flows == s.flows && y.flows == t.flows;
    }
  }

  lemma SameIncrease(s: State, t: State, f: Flow, g: Flow)
    requires SameRows(s, t) && Bare(f) == Bare(g)
    ensures Increase(s, f) == Increase(t, g)
  {}

  lemma RelabelsTraffic(s: State, t: State, f: Flow, g: Flow)
    requires FlowsExact(s) && FlowsExact(t) && SameTraffic(s, t) && Bare(f) == Bare(g)
    requires Relabel(s, f).Ok? && Relabel(t, g).Ok?
    ensures SameTraffic(Relabel(s, f).value, Relabel(t, g).value)
  {
    assert g == f.(domain := g.domain);
    var s0 := s.(devices := Touched(s.devices, f.Mac(), f.endpoints.clientIp));
    var t0 := t.(devices := Touched(t.devices, g.Mac(), g.endpoints.clientIp));
    RelabelTraffic(s, f);
    RelabelTraffic(t, g);
    SameTrafficJoins(s0, Relabel(t, g).value, t0);
    SameTrafficJoins(Relabel(t, g).value, Relabel(s, f).value, s0);
  }

  lemma UpsertFlowTraffic(owner: Owner, s: State, t: State, f: Flow, g: Flow)
    requires Exact(owner, s) && Exact(owner, t) && SameTraffic(s, t)
    requires Bare(f) == Bare(g) && f.Mac() == owner(f.flowId)
    ensures UpsertFlow(s, f).Ok? <==> UpsertFlow(t, g).Ok?
    ensures UpsertFlow(s, f).Ok? ==> SameTraffic(UpsertFlow(s, f).value, UpsertFlow(t, g).value)
  {
    assert g == f.(domain := g.domain);
    UpsertFlowExact(owner, s, f);
    UpsertFlowExact(owner, t, g);
    SameIncrease(s, t, f, g);
    if Fits(f.counters) && Increase(s, f).Some? {
      var d, e := KeptDomain(s, f), KeptDomain(t, g);
      var s1, t1 := Relabel(s, f).value, Relabel(t, g).value;
      RelabelsTraffic(s, t, f, g);
      StoreRowTraffic(s1, t1, f, g, d, e);
      ChargeTraffic(StoreRow(s1, f, d), StoreRow(t1, g, e), f, g, d, e, BytesOf(Increase(s, f).value));
    }
  }

  ghost predicate SameBatch(fs: seq<Flow>, gs: seq<Flow>) {
    |fs| == |gs| && forall i :: 0 <= i < |fs| ==> Bare(fs[i]) == Bare(gs[i])
  }

  lemma {:induction false} UpsertAllTraffic(owner: Owner, s: State, t: State, fs: seq<Flow>, gs: seq<Flow>)
    requires Exact(owner, s) && Exact(owner, t) && SameTraffic(s, t)
    requires SameBatch(fs, gs) && OwnedBatch(owner, fs)
    ensures UpsertAll(s, fs).Ok? <==> UpsertAll(t, gs).Ok?
    ensures UpsertAll(s, fs).Ok? ==> SameTraffic(UpsertAll(s, fs).value, UpsertAll(t, gs).value)
    decreases |fs|
  {
    if fs != [] {
      UpsertFlowTraffic(owner, s, t, fs[0], gs[0]);
      if UpsertFlow(s, fs[0]).Ok? {
        assert gs[0] == fs[0].(domain := gs[0].domain);
        UpsertFlowExact(owner, s, fs[0]);
        UpsertFlowExact(owner, t, gs[0]);
        UpsertAllTraffic(owner, UpsertFlow(s, fs[0]).value, UpsertFlow(t, gs[0]).value, fs[1..], gs[1..]);
      }
    }
  }

  /** Whether a batch is accepted does not depend on the attributions it carries. */
  lemma UpsertStepTraffic(owner: Owner, s: State, t: State, fs: seq<Flow>, gs: seq<Flow>)
    requires Exact(owner, s) && Exact(owner, t) && SameTraffic(s, t)
    requires SameBatch(fs, gs) && OwnedBatch(owner, fs)
    ensures SameTraffic(Apply(s, Upsert(fs)), Apply(t, Upsert(gs)))
  {
    UpsertAllTraffic(owner, s, t, fs, gs);
    forall i | 0 <= i < |fs| ensures ValidFlow(fs[i]) == ValidFlow(gs[i]) {
      assert gs[i] == fs[i].(domain := gs[i].domain);
    }
  }

  lemma {:induction false} BackfillRowsTraffic(owner: Owner, s: State, b: Binding, rows: seq<FlowId>)
    requires Exact(owner, s) && (forall id :: id in rows ==> id in Matching(s, b))
    ensures BackfillRows(s, b, rows).Ok? && SameTraffic(BackfillRows(s, b, rows).value.state, s)
    decreases |rows|
  {
    if rows != [] {
      BackfillFlowExact(owner, s, b, rows[0]);
      var next := BackfillFlow(s, b, rows[0]).value.state;
      if Improves(s, b, rows[0]) {
        ReattributeTraffic(s, rows[0], b.clientMac, Effective(s.flows[rows[0]].domain, Some(b.attribution)).value);
      }
      SameRowsMatch(s, next, b);
      BackfillRowsTraffic(owner, next, b, rows[1..]);
      SameTrafficJoins(s, next, s);
      SameTrafficJoins(BackfillRows(s, b, rows).value.state, s, next);
    }
  }

  lemma {:induction false} BackfillAllTraffic(owner: Owner, s: State, work: seq<Work>)
    requires Exact(owner, s) && FaithfulWork(s, work)
    ensures BackfillAll(s, work).Ok? && SameTraffic(BackfillAll(s, work).value.state, s)
    decreases |work|
  {
    if work != [] {
      assert Enumerates(work[0].rows, Matching(s, work[0].binding));
      BackfillRowsExact(owner, s, work[0].binding, work[0].rows);
      BackfillRowsTraffic(owner, s, work[0].binding, work[0].rows);
      var next := BackfillRows(s, work[0].binding, work[0].rows).value.state;
      SameRowsFaithful(s, next, work);
      assert FaithfulWork(next, work[1..]);
      BackfillAllTraffic(owner, next, work[1..]);
      SameTrafficJoins(s, next, s);
      SameTrafficJoins(BackfillAll(s, work).value.state, s, next);
    }
  }

  // ----- histories without attribution -----

  function BareBatch(fs: seq<Flow>): seq<Flow> {
    seq(|fs|, i requires 0 <= i < |fs| => Bare(fs[i]))
  }

  /** The history with every attribution and every backfill removed. */
  function BareRun(steps: seq<Step>): seq<Step>
    decreases |steps|
  {
    if steps == [] then []
    else if steps[0].Upsert? then [Upsert(BareBatch(steps[0].flows))] + BareRun(steps[1..])
    else BareRun(steps[1..])
  }

  lemma {:induction false} RunTraffic(owner: Owner, s: State, t: State, steps: seq<Step>)
    requires Exact(owner, s) && Exact(owner, t) && SameTraffic(s, t)
    requires Additive(steps) && LegalRun(owner, s, steps)
    ensures SameTraffic(Run(s, steps), Run(t, BareRun(steps)))
    decreases |steps|
  {
    if steps != [] {
      assert Additive(steps[1..]);
      var next := Apply(s, steps[0]);
      match steps[0] {
        case Upsert(flows) =>
          var bare := BareBatch(flows);
          UpsertAllExact(owner, s, flows);
          UpsertAllExact(owner, t, bare);
          UpsertStepTraffic(owner, s, t, flows, bare);
          assert BareRun(steps)[0] == Upsert(bare) && BareRun(steps)[1..] == BareRun(steps[1..]);
          RunTraffic(owner, next, Apply(t, Upsert(bare)), steps[1..]);
        case Backfill(work) =>
          BackfillAllExact(owner, s, work);
          BackfillAllTraffic(owner, s, work);
          SameTrafficJoins(t, s, t);
          SameTrafficJoins(next, t, s);
          RunTraffic(owner, next, t, steps[1..]);
      }
    }
  }

  ghost predicate SameDomains(s: State, t: State) {
    forall id :: id in s.flows && id in t.flows ==> s.flows[id].domain == t.flows[id].domain
  }

  /** The same flows, contributions, devices and device minutes, and the same bytes for every domain minute. */
  ghost predicate SameBooks(s: State, t: State) {
    && s.devices == t.devices && s.flows == t.flows && s.slices == t.slices && s.deviceMinutes == t.deviceMinutes
    && (forall key, lane :: Booked(s.domainMinutes, key, lane) == Booked(t.domainMinutes, key, lane))
  }

  lemma TrafficAndDomainsAreBooks(owner: Owner, s: State, t: State)
    requires Exact(owner, s) && Exact(owner, t) && SameTraffic(s, t) && SameDomains(s, t)
    ensures SameBooks(s, t)
  {
    forall id | id in s.flows ensures s.flows[id] == t.flows[id] {
      assert Bare(s.flows[id]) == Bare(t.flows[id]);
    }
    assert s.flows == t.flows;
    forall k | k in s.slices ensures s.slices[k] == t.slices[k] {
      assert s.slices[k].attribution == s.flows[k.flow].domain && t.slices[k].attribution == t.flows[k.flow].domain;
    }
    assert s.slices == t.slices;
    forall key, lane ensures Booked(s.domainMinutes, key, lane) == Booked(t.domainMinutes, key, lane) {
      assert Surplus(s.domainMinutes, s.slices, key, lane) == 0 == Surplus(t.domainMinutes, t.slices, key, lane);
    }
  }

  /**
   * Two histories of the same snapshots, attributed at whatever moments and in whatever batches,
   * leave the same ledger as soon as they leave the flows with the same attributions.
   */
  lemma TimingIsIrrelevant(owner: Owner, one: seq<Step>, two: seq<Step>)
    requires Additive(one) && LegalRun(owner, EMPTY_LEDGER, one) && Additive(two) && LegalRun(owner, EMPTY_LEDGER, two)
    requires BareRun(one) == BareRun(two)
    requires SameDomains(Run(EMPTY_LEDGER, one), Run(EMPTY_LEDGER, two))
    ensures SameBooks(Run(EMPTY_LEDGER, one), Run(EMPTY_LEDGER, two))
  {
    EmptyIsExact(owner);
    BooksStayExact(owner, EMPTY_LEDGER, one);
    BooksStayExact(owner, EMPTY_LEDGER, two);
    RunTraffic(owner, EMPTY_LEDGER, EMPTY_LEDGER, one);
    RunTraffic(owner, EMPTY_LEDGER, EMPTY_LEDGER, two);
    SameTrafficJoins(Run(EMPTY_LEDGER, one), Run(EMPTY_LEDGER, two), Run(EMPTY_LEDGER, BareRun(one)));
    TrafficAndDomainsAreBooks(owner, Run(EMPTY_LEDGER, one), Run(EMPTY_LEDGER, two));
  }
}
