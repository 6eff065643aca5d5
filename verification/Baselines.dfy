/**
 * Timing from any coherent ledger, legacy ones included: two histories of the same snapshots that end with the same
 * attributions differ by the baselines they lay down, and by nothing else.
 */
module Baselines {
  import opened Domain
  import opened Attributions
  import opened Ledger
  import opened Totals
  import opened LedgerInvariant
  import opened LedgerRuns
  import opened Books
  import opened Timing
  import opened BatchLaws

  // ----- meters and rows do not depend on attributions -----

  /** Equal up to attributions, contributions and domain aggregates. */
  ghost predicate SameMeters(s: State, t: State) {
    s.devices == t.devices && s.deviceMinutes == t.deviceMinutes && SameRows(s, t)
  }

  lemma SameMetersJoin(s: State, t: State, u: State)
    requires SameMeters(s, t) && SameMeters(t, u)
    ensures SameMeters(s, u)
  {
    forall id | id in s.flows ensures Bare(s.flows[id]) == Bare(u.flows[id]) {
      assert Bare(s.flows[id]) == Bare(t.flows[id]) && Bare(t.flows[id]) == Bare(u.flows[id]);
    }
  }

  lemma RelabelKeepsMeters(owner: Owner, s: State, f: Flow)
    requires Coherent(owner, s) && f.Mac() == owner(f.flowId)
    ensures Relabel(s, f).Ok?
    ensures SameMeters(s.(devices := Touched(s.devices, f.Mac(), f.endpoints.clientIp)), Relabel(s, f).value)
  {
    RelabelCoherent(owner, s, f);
  }

  lemma StoreRowMeters(s: State, t: State, f: Flow, g: Flow, d: Option<Attribution>, e: Option<Attribution>)
    requires SameMeters(s, t) && Bare(f) == Bare(g)
    ensures SameMeters(StoreRow(s, f, d), StoreRow(t, g, e))
  {
    var s1, t1 := StoreRow(s, f, d), StoreRow(t, g, e);
    assert g == f.(domain := g.domain);
    forall id | id in s1.flows ensures Bare(s1.flows[id]) == Bare(t1.flows[id]) {
      if id in s.flows {
        assert Bare(s.flows[id]) == Bare(t.flows[id]);
      }
    }
  }

  lemma UpsertFlowMeters(owner: Owner, s: State, t: State, f: Flow, g: Flow)
    requires Coherent(owner, s) && Coherent(owner, t) && SameMeters(s, t)
    requires Bare(f) == Bare(g) && f.Mac() == owner(f.flowId)
    ensures UpsertFlow(s, f).Ok? <==> UpsertFlow(t, g).Ok?
    ensures UpsertFlow(s, f).Ok? ==> SameMeters(UpsertFlow(s, f).value, UpsertFlow(t, g).value)
  {
    assert g == f.(domain := g.domain);
    RelabelKeepsMeters(owner, s, f);
    RelabelKeepsMeters(owner, t, g);
    SameIncrease(s, t, f, g);
    if Fits(f.counters) && Increase(s, f).Some? {
      var s1, t1 := Relabel(s, f).value, Relabel(t, g).value;
      var s0 := s.(devices := Touched(s.devices, f.Mac(), f.endpoints.clientIp));
      var t0 := t.(devices := Touched(t.devices, g.Mac(), g.endpoints.clientIp));
      assert SameMeters(s1, s0) by { SameMetersFlip(s0, s1); }
      SameMetersJoin(s1, s0, t0);
      SameMetersJoin(s1, t0, t1);
      var d, e := KeptDomain(s, f), KeptDomain(t, g);
      StoreRowMeters(s1, t1, f, g, d, e);
      ChargeMeters(StoreRow(s1, f, d), StoreRow(t1, g, e), f, g, d, e, BytesOf(Increase(s, f).value));
    }
  }

  lemma SameMetersFlip(s: State, t: State)
    requires SameMeters(s, t)
    ensures SameMeters(t, s)
  {}

  lemma ChargeMeters(
      s: State, t: State, f: Flow, g: Flow, d: Option<Attribution>, e: Option<Attribution>, delta: Bytes)
    requires SameMeters(s, t) && Bare(f) == Bare(g)
    ensures SameMeters(ChargeIncrease(s, f, d, delta), ChargeIncrease(t, g, e, delta))
  {
    assert g == f.(domain := g.domain);
  }

  // ----- the contributions of a run: what was there, what was charged, and what baselines laid down -----

  function BytesAt(slices: Slices, j: SliceKey, lane: Lane): nat { if j in slices then slices[j].bytes.In(lane) else 0 }

  /** The baseline the flow has due, as a contribution. */
  function DueAt(s: State, id: FlowId, j: SliceKey, lane: Lane): nat {
    if BaselineDue(s, id) && j == SliceKey(id, FloorToMinute(s.flows[id].lastSeen))
    then BytesOf(s.flows[id].counters).In(lane)
    else 0
  }

  lemma ReattributeLays(owner: Owner, s: State, id: FlowId, a: Attribution, j: SliceKey, lane: Lane)
    requires Coherent(owner, s) && id in s.flows
    ensures Reattribute(s, id, owner(id), a).Ok?
    ensures BytesAt(Reattribute(s, id, owner(id), a).value.slices, j, lane)
         == BytesAt(s.slices, j, lane) + DueAt(s, id, j, lane)
  {
    ReattributeNeverAborts(s, id, owner(id), a);
  }

  function UpsertLays(s: State, f: Flow, j: SliceKey, lane: Lane): nat {
    if Relabels(s, f) then DueAt(s, f.flowId, j, lane) else 0
  }

  function UpsertCharges(s: State, f: Flow, j: SliceKey, lane: Lane): nat {
    if Increase(s, f).Some? && j == SliceKey(f.flowId, FloorToMinute(f.lastSeen))
    then BytesOf(Increase(s, f).value).In(lane)
    else 0
  }

  lemma RelabelLays(owner: Owner, s: State, f: Flow, j: SliceKey, lane: Lane)
    requires Coherent(owner, s) && f.Mac() == owner(f.flowId)
    ensures Relabel(s, f).Ok?
    ensures BytesAt(Relabel(s, f).value.slices, j, lane) == BytesAt(s.slices, j, lane) + UpsertLays(s, f, j, lane)
  {
    RelabelCoherent(owner, s, f);
    if Relabels(s, f) {
      var touched := s.(devices := Touched(s.devices, f.Mac(), f.endpoints.clientIp));
      assert Coherent(owner, touched);
      ReattributeLays(owner, touched, f.flowId, KeptDomain(s, f).value, j, lane);
    }
  }

  lemma ChargeAdds(s: State, f: Flow, d: Option<Attribution>, delta: Bytes, j: SliceKey, lane: Lane)
    ensures BytesAt(ChargeIncrease(s, f, d, delta).slices, j, lane)
         == BytesAt(s.slices, j, lane)
          + if j == SliceKey(f.flowId, FloorToMinute(f.lastSeen)) then delta.In(lane) else 0
  {}

  lemma UpsertFlowSlices(owner: Owner, s: State, f: Flow, j: SliceKey, lane: Lane)
    requires Coherent(owner, s) && f.Mac() == owner(f.flowId) && UpsertFlow(s, f).Ok?
    ensures BytesAt(UpsertFlow(s, f).value.slices, j, lane)
         == BytesAt(s.slices, j, lane) + UpsertLays(s, f, j, lane) + UpsertCharges(s, f, j, lane)
  {
    RelabelLays(owner, s, f, j, lane);
    var stored := StoreRow(Relabel(s, f).value, f, KeptDomain(s, f));
    ChargeAdds(stored, f, KeptDomain(s, f), BytesOf(Increase(s, f).value), j, lane);
  }

  function UpsertAllLays(s: State, fs: seq<Flow>, j: SliceKey, lane: Lane): nat
    decreases |fs|
  {
    if fs == [] || UpsertFlow(s, fs[0]).Err? then 0
    else UpsertLays(s, fs[0], j, lane) + UpsertAllLays(UpsertFlow(s, fs[0]).value, fs[1..], j, lane)
  }

  function UpsertAllCharges(s: State, fs: seq<Flow>, j: SliceKey, lane: Lane): nat
    decreases |fs|
  {
    if fs == [] || UpsertFlow(s, fs[0]).Err? then 0
    else UpsertCharges(s, fs[0], j, lane) + UpsertAllCharges(UpsertFlow(s, fs[0]).value, fs[1..], j, lane)
  }

  lemma {:induction false} UpsertAllSlices(owner: Owner, s: State, fs: seq<Flow>, j: SliceKey, lane: Lane)
    requires Coherent(owner, s) && OwnedBatch(owner, fs) && UpsertAll(s, fs).Ok?
    ensures BytesAt(UpsertAll(s, fs).value.slices, j, lane)
         == BytesAt(s.slices, j, lane) + UpsertAllLays(s, fs, j, lane) + UpsertAllCharges(s, fs, j, lane)
    decreases |fs|
  {
    if fs != [] {
      UpsertFlowSlices(owner, s, fs[0], j, lane);
      UpsertFlowCoherent(owner, s, fs[0]);
      UpsertAllSlices(owner, UpsertFlow(s, fs[0]).value, fs[1..], j, lane);
    }
  }

  function BackfillRowsLay(s: State, b: Binding, rows: seq<FlowId>, j: SliceKey, lane: Lane): nat
    decreases |rows|
  {
    if rows == [] || BackfillFlow(s, b, rows[0]).Err? then 0
    else
      (if Improves(s, b, rows[0]) then DueAt(s, rows[0], j, lane) else 0) +
      BackfillRowsLay(BackfillFlow(s, b, rows[0]).value.state, b, rows[1..], j, lane)
  }

  lemma {:induction false} BackfillRowsSlices(
      owner: Owner, s: State, b: Binding, rows: seq<FlowId>, j: SliceKey, lane: Lane)
    requires Coherent(owner, s) && (forall id :: id in rows ==> id in Matching(s, b))
    ensures BackfillRows(s, b, rows).Ok?
    ensures BytesAt(BackfillRows(s, b, rows).value.state.slices, j, lane)
         == BytesAt(s.slices, j, lane) + BackfillRowsLay(s, b, rows, j, lane)
    decreases |rows|
  {
    if rows != [] {
      var id := rows[0];
      assert id in rows && id in Matching(s, b);
      BackfillFlowCoherent(owner, s, b, id);
      if Improves(s, b, id) {
        ReattributeLays(owner, s, id, Effective(s.flows[id].domain, Some(b.attribution)).value, j, lane);
      }
      var next := BackfillFlow(s, b, id).value.state;
      SameRowsMatch(s, next, b);
      forall i | i in rows[1..] ensures i in Matching(next, b) {
        assert i in rows;
      }
      BackfillRowsSlices(owner, next, b, rows[1..], j, lane);
    }
  }

  function BackfillAllLays(s: State, work: seq<Work>, j: SliceKey, lane: Lane): nat
    decreases |work|
  {
    if work == [] || BackfillRows(s, work[0].binding, work[0].rows).Err? then 0
    else
      BackfillRowsLay(s, work[0].binding, work[0].rows, j, lane) +
      BackfillAllLays(BackfillRows(s, work[0].binding, work[0].rows).value.state, work[1..], j, lane)
  }

  lemma {:induction false} BackfillAllSlices(owner: Owner, s: State, work: seq<Work>, j: SliceKey, lane: Lane)
    requires Coherent(owner, s) && FaithfulWork(s, work)
    ensures BackfillAll(s, work).Ok?
    ensures BytesAt(BackfillAll(s, work).value.state.slices, j, lane)
         == BytesAt(s.slices, j, lane) + BackfillAllLays(s, work, j, lane)
    decreases |work|
  {
    if work != [] {
      var w := work[0];
      assert Enumerates(w.rows, Matching(s, w.binding));
      BackfillRowsSlices(owner, s, w.binding, w.rows, j, lane);
      BackfillRowsCoherent(owner, s, w.binding, w.rows);
      var next := BackfillRows(s, w.binding, w.rows).value.state;
      assert FaithfulWork(s, work[1..]);
      SameRowsFaithful(s, next, work[1..]);
      BackfillAllSlices(owner, next, work[1..], j, lane);
    }
  }

  // ----- steps and runs -----

  function StepLays(s: State, step: Step, j: SliceKey, lane: Lane): nat {
    match step
    case Upsert(flows) => if UpsertFlows(s, flows).Ok? then UpsertAllLays(s, flows, j, lane) else 0
    case Backfill(work) => if BackfillAll(s, work).Ok? then BackfillAllLays(s, work, j, lane) else 0
    case _ => 0
  }

  function StepCharges(s: State, step: Step, j: SliceKey, lane: Lane): nat {
    if step.Upsert? && UpsertFlows(s, step.flows).Ok? then UpsertAllCharges(s, step.flows, j, lane) else 0
  }

  /** The baselines a run lays down in one contribution. */
  function RunLays(s: State, steps: seq<Step>, j: SliceKey, lane: Lane): nat
    decreases |steps|
  {
    if steps == [] then 0 else StepLays(s, steps[0], j, lane) + RunLays(Apply(s, steps[0]), steps[1..], j, lane)
  }

  /** The increases it charges there. */
  function RunCharges(s: State, steps: seq<Step>, j: SliceKey, lane: Lane): nat
    decreases |steps|
  {
    if steps == [] then 0 else StepCharges(s, steps[0], j, lane) + RunCharges(Apply(s, steps[0]), steps[1..], j, lane)
  }

  lemma StepSlices(owner: Owner, s: State, step: Step, j: SliceKey, lane: Lane)
    requires Coherent(owner, s) && Legal(owner, s, step) && (step.Upsert? || step.Backfill?)
    ensures BytesAt(Apply(s, step).slices, j, lane)
         == BytesAt(s.slices, j, lane) + StepLays(s, step, j, lane) + StepCharges(s, step, j, lane)
    ensures SameSurplus(s, Apply(s, step))
  {
    match step
    case Upsert(flows) =>
      UpsertAllCoherent(owner, s, flows);
      if UpsertFlows(s, flows).Ok? {
        UpsertAllSlices(owner, s, flows, j, lane);
      }
    case Backfill(work) =>
      BackfillAllCoherent(owner, s, work);
      BackfillAllSlices(owner, s, work, j, lane);
  }

  /** Every contribution is what it was, plus what was charged, plus the baselines. */
  lemma {:induction false} RunSlices(owner: Owner, s: State, steps: seq<Step>, j: SliceKey, lane: Lane)
    requires Coherent(owner, s) && LegalRun(owner, s, steps) && Additive(steps)
    ensures BytesAt(Run(s, steps).slices, j, lane)
         == BytesAt(s.slices, j, lane) + RunLays(s, steps, j, lane) + RunCharges(s, steps, j, lane)
    ensures SameSurplus(s, Run(s, steps))
    decreases |steps|
  {
    if steps != [] {
      var next := Apply(s, steps[0]);
      StepSlices(owner, s, steps[0], j, lane);
      StepCoherent(owner, s, steps[0]);
      assert Additive(steps[1..]);
      RunSlices(owner, next, steps[1..], j, lane);
      forall key, l
        ensures Surplus(Run(s, steps).domainMinutes, Run(s, steps).slices, key, l)
             == Surplus(s.domainMinutes, s.slices, key, l)
      {
        assert Surplus(next.domainMinutes, next.slices, key, l) == Surplus(s.domainMinutes, s.slices, key, l);
      }
    }
  }

  // ----- two histories of the same snapshots -----

  lemma RestOfBatch(owner: Owner, fs: seq<Flow>, gs: seq<Flow>)
    requires fs != [] && SameBatch(fs, gs) && OwnedBatch(owner, fs)
    ensures SameBatch(fs[1..], gs[1..]) && OwnedBatch(owner, fs[1..])
  {}

  lemma {:induction false} UpsertAllMeters(owner: Owner, s: State, t: State, fs: seq<Flow>, gs: seq<Flow>)
    requires Coherent(owner, s) && Coherent(owner, t) && SameMeters(s, t)
    requires SameBatch(fs, gs) && OwnedBatch(owner, fs)
    ensures UpsertAll(s, fs).Ok? <==> UpsertAll(t, gs).Ok?
    ensures UpsertAll(s, fs).Ok? ==> SameMeters(UpsertAll(s, fs).value, UpsertAll(t, gs).value)
    decreases |fs|
  {
    if fs != [] {
      var f, g := fs[0], gs[0];
      assert Bare(f) == Bare(g) && g == f.(domain := g.domain);
      UpsertFlowMeters(owner, s, t, f, g);
      if UpsertFlow(s, f).Ok? {
        UpsertFlowCoherent(owner, s, f);
        UpsertFlowCoherent(owner, t, g);
        RestOfBatch(owner, fs, gs);
        UpsertAllMeters(owner, UpsertFlow(s, f).value, UpsertFlow(t, g).value, fs[1..], gs[1..]);
      }
    }
  }

  lemma {:induction false} UpsertAllChargeAlike(
      owner: Owner, s: State, t: State, fs: seq<Flow>, gs: seq<Flow>, j: SliceKey, lane: Lane)
    requires Coherent(owner, s) && Coherent(owner, t) && SameMeters(s, t)
    requires SameBatch(fs, gs) && OwnedBatch(owner, fs)
    ensures UpsertAllCharges(s, fs, j, lane) == UpsertAllCharges(t, gs, j, lane)
    decreases |fs|
  {
    if fs != [] {
      var f, g := fs[0], gs[0];
      assert Bare(f) == Bare(g) && g == f.(domain := g.domain);
      UpsertFlowMeters(owner, s, t, f, g);
      SameIncrease(s, t, f, g);
      if UpsertFlow(s, f).Ok? {
        UpsertFlowCoherent(owner, s, f);
        UpsertFlowCoherent(owner, t, g);
        RestOfBatch(owner, fs, gs);
        UpsertAllChargeAlike(owner, UpsertFlow(s, f).value, UpsertFlow(t, g).value, fs[1..], gs[1..], j, lane);
      }
    }
  }

  lemma UpsertStepMeters(owner: Owner, s: State, t: State, fs: seq<Flow>, j: SliceKey, lane: Lane)
    requires Coherent(owner, s) && Coherent(owner, t) && SameMeters(s, t) && OwnedBatch(owner, fs)
    ensures OwnedBatch(owner, BareBatch(fs))
    ensures SameMeters(Apply(s, Upsert(fs)), Apply(t, Upsert(BareBatch(fs))))
    ensures StepCharges(s, Upsert(fs), j, lane) == StepCharges(t, Upsert(BareBatch(fs)), j, lane)
  {
    var gs := BareBatch(fs);
    forall i | 0 <= i < |fs| ensures Bare(fs[i]) == Bare(gs[i]) && ValidFlow(fs[i]) == ValidFlow(gs[i]) {
      assert gs[i] == fs[i].(domain := gs[i].domain);
    }
    forall i | 0 <= i < |gs| ensures gs[i].Mac() == owner(gs[i].flowId) {
      assert fs[i].Mac() == owner(fs[i].flowId);
    }
    UpsertAllMeters(owner, s, t, fs, gs);
    UpsertAllChargeAlike(owner, s, t, fs, gs, j, lane);
  }

  /** Meters, rows and charges are those of the history without any attribution. */
  lemma {:induction false} RunIsBare(owner: Owner, s: State, t: State, steps: seq<Step>, j: SliceKey, lane: Lane)
    requires Coherent(owner, s) && Coherent(owner, t) && SameMeters(s, t)
    requires Additive(steps) && LegalRun(owner, s, steps)
    ensures SameMeters(Run(s, steps), Run(t, BareRun(steps)))
    ensures RunCharges(s, steps, j, lane) == RunCharges(t, BareRun(steps), j, lane)
    decreases |steps|
  {
    if steps != [] {
      var next, rest := Apply(s, steps[0]), steps[1..];
      StepCoherent(owner, s, steps[0]);
      assert Additive(rest);
      match steps[0] {
        case Upsert(flows) =>
          var bare := Upsert(BareBatch(flows));
          UpsertStepMeters(owner, s, t, flows, j, lane);
          StepCoherent(owner, t, bare);
          assert BareRun(steps)[0] == bare && BareRun(steps)[1..] == BareRun(rest);
          RunIsBare(owner, next, Apply(t, bare), rest, j, lane);
        case Backfill(work) =>
          BackfillAllCoherent(owner, s, work);
          BackfillAllTouchesOnlyDomains(s, work);
          SameMetersFlip(s, next);
          SameMetersJoin(next, s, t);
          RunIsBare(owner, next, t, rest, j, lane);
      }
    }
  }

  /** The two histories lay down the same baselines. */
  ghost predicate SameBaselines(s: State, one: seq<Step>, two: seq<Step>) {
    forall j, lane :: RunLays(s, one, j, lane) == RunLays(s, two, j, lane)
  }

  ghost predicate SameBytes(a: Slices, b: Slices) { forall j, lane :: BytesAt(a, j, lane) == BytesAt(b, j, lane) }

  /** In coherent ledgers with the same flows, contributions are told by their bytes. */
  lemma BytesTellSlices(s: State, t: State)
    requires SlicesOwned(s) && SlicesOwned(t) && s.flows == t.flows && SameBytes(s.slices, t.slices)
    ensures s.slices == t.slices
  {
    forall j ensures j in s.slices <==> j in t.slices ensures j in s.slices ==> s.slices[j] == t.slices[j] {
      SliceTold(s, t, j);
    }
  }

  lemma SliceTold(s: State, t: State, j: SliceKey)
    requires SlicesOwned(s) && SlicesOwned(t) && s.flows == t.flows && SameBytes(s.slices, t.slices)
    ensures j in s.slices <==> j in t.slices
    ensures j in s.slices ==> s.slices[j] == t.slices[j]
  {
    assert BytesAt(s.slices, j, Up) == BytesAt(t.slices, j, Up);
    assert BytesAt(s.slices, j, Down) == BytesAt(t.slices, j, Down);
  }

  lemma SameRowsSameFlows(s: State, t: State)
    requires SameRows(s, t) && SameDomains(s, t)
    ensures s.flows == t.flows
  {
    forall id | id in s.flows ensures s.flows[id] == t.flows[id] {
      assert Bare(s.flows[id]) == Bare(t.flows[id]);
    }
  }

  lemma BytesMakeBooks(s: State, t: State, before: State)
    requires SlicesOwned(s) && SlicesOwned(t) && SameMeters(s, t) && SameDomains(s, t)
    requires SameSurplus(before, s) && SameSurplus(before, t)
    ensures SameBooks(s, t) <==> SameBytes(s.slices, t.slices)
  {
    SameRowsSameFlows(s, t);
    if SameBytes(s.slices, t.slices) {
      BytesTellSlices(s, t);
      forall key, lane ensures Booked(s.domainMinutes, key, lane) == Booked(t.domainMinutes, key, lane) {
        assert Surplus(s.domainMinutes, s.slices, key, lane) == Surplus(before.domainMinutes, before.slices, key, lane);
        assert Surplus(t.domainMinutes, t.slices, key, lane) == Surplus(before.domainMinutes, before.slices, key, lane);
      }
    }
  }

  /**
   * From any coherent ledger, two histories of the same snapshots, however and whenever attributed, that end with the
   * same attributions leave the same books if and only if they lay down the same baselines: each with the same
   * counters in the same minute.
   */
  lemma SameBooksIffSameBaselines(owner: Owner, s: State, one: seq<Step>, two: seq<Step>)
    requires Coherent(owner, s)
    requires Additive(one) && LegalRun(owner, s, one) && Additive(two) && LegalRun(owner, s, two)
    requires BareRun(one) == BareRun(two) && SameDomains(Run(s, one), Run(s, two))
    ensures SameBooks(Run(s, one), Run(s, two)) <==> SameBaselines(s, one, two)
  {
    var t, u := Run(s, one), Run(s, two);
    EveryRunIsCoherent(owner, s, one);
    EveryRunIsCoherent(owner, s, two);
    forall j, lane
      ensures BytesAt(t.slices, j, lane) - RunLays(s, one, j, lane)
           == BytesAt(u.slices, j, lane) - RunLays(s, two, j, lane)
    {
      BytesOfHistories(owner, s, one, two, j, lane);
    }
    MetersOfHistories(owner, s, one, two);
    BytesMakeBooks(t, u, s);
  }

  lemma BytesOfHistories(owner: Owner, s: State, one: seq<Step>, two: seq<Step>, j: SliceKey, lane: Lane)
    requires Coherent(owner, s)
    requires Additive(one) && LegalRun(owner, s, one) && Additive(two) && LegalRun(owner, s, two)
    requires BareRun(one) == BareRun(two)
    ensures BytesAt(Run(s, one).slices, j, lane) - RunLays(s, one, j, lane)
         == BytesAt(Run(s, two).slices, j, lane) - RunLays(s, two, j, lane)
  {
    RunSlices(owner, s, one, j, lane);
    RunSlices(owner, s, two, j, lane);
    RunIsBare(owner, s, s, one, j, lane);
    RunIsBare(owner, s, s, two, j, lane);
  }

  lemma MetersOfHistories(owner: Owner, s: State, one: seq<Step>, two: seq<Step>)
    requires Coherent(owner, s)
    requires Additive(one) && LegalRun(owner, s, one) && Additive(two) && LegalRun(owner, s, two)
    requires BareRun(one) == BareRun(two)
    ensures SameMeters(Run(s, one), Run(s, two))
    ensures SameSurplus(s, Run(s, one)) && SameSurplus(s, Run(s, two))
  {
    var j := SliceKey(0, 0);
    RunSlices(owner, s, one, j, Up);
    RunSlices(owner, s, two, j, Up);
    RunIsBare(owner, s, s, one, j, Up);
    RunIsBare(owner, s, s, two, j, Up);
    SameMetersFlip(Run(s, two), Run(s, BareRun(two)));
    SameMetersJoin(Run(s, one), Run(s, BareRun(one)), Run(s, two));
  }
}
