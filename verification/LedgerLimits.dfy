/** Where the invariant's premises are needed: the order of the expiry statements, and one MAC per flow id. */
module LedgerLimits {
  import opened Domain
  import opened Attributions
  import opened Ledger
  import opened Totals
  import opened LedgerInvariant
  import opened Books
  import opened LedgerRuns
  import opened LateDns

  lemma AgedLabelIsUncovered(owner: Owner, s: State, cutoff: int, k: SliceKey)
    requires Coherent(owner, s) && k in s.slices && s.slices[k].attribution.Some? && k.minute < cutoff
    ensures !Covered(ExpireDomainMinutes(s, cutoff))
  {
    var slice := s.slices[k];
    var key := DomainMinute(slice.mac, slice.attribution.value.domain, k.minute);
    var t := ExpireDomainMinutes(s, cutoff);
    var lane := if slice.bytes.up > 0 then Up else Down;
    assert slice.bytes.In(lane) > 0;
    ShareWithinTotal(s.slices, ByDomain(key), lane, k);
    assert key !in t.domainMinutes;
    assert Surplus(t.domainMinutes, t.slices, key, lane) < 0;
  }

  /**
   * Deleting the old domain minutes alone keeps the books coherent exactly when no attributed contribution is
   * that old: it is safe as the last statement of the cleanup, after the old contributions are gone, and not before.
   */
  lemma DomainMinutesExpireLast(owner: Owner, s: State, cutoff: int)
    requires Coherent(owner, s)
    ensures Coherent(owner, ExpireDomainMinutes(s, cutoff))
        <==> forall k :: k in s.slices && s.slices[k].attribution.Some? ==> k.minute >= cutoff
  {
    var t := ExpireDomainMinutes(s, cutoff);
    if k :| k in s.slices && s.slices[k].attribution.Some? && k.minute < cutoff {
      AgedLabelIsUncovered(owner, s, cutoff, k);
    } else {
      assert KeepsOwnership(s, t);
      assert Trims(s, t);
      TrimmedIsCoherent(owner, s, t);
    }
  }

  /**
   * A flow left without contributions (by an older schema, a domain deletion, expiry or an unaligned range) has its
   * whole counters booked in the minute it was last seen in, while the device minutes stay where the bytes were
   * metered: from then on a domain minute may exceed its device minute.
   */
  lemma BaselineBooksOneMinute(owner: Owner, s: State, id: FlowId, a: Attribution, key: DomainMinute, lane: Lane)
    requires Coherent(owner, s) && id in s.flows && s.flows[id].domain == None && !HasSlices(s.slices, id)
    ensures Reattribute(s, id, owner(id), a).Ok?
    ensures var t, row := Reattribute(s, id, owner(id), a).value, s.flows[id];
            var late := if key == DomainMinute(owner(id), a.domain, FloorToMinute(row.lastSeen))
                then BytesOf(row.counters).In(lane) else 0;
            && Booked(t.domainMinutes, key, lane) == Booked(s.domainMinutes, key, lane) + late
            && t.deviceMinutes == s.deviceMinutes
  {
    ReattributeCoherent(owner, s, id, owner(id), a);
    var t, base, k := Reattribute(s, id, owner(id), a).value, WithBaseline(s.slices, id, owner(id), s.flows[id]),
        SliceKey(id, key.minute);
    BaselineKeepsDomainTotals(s.slices, id, owner(id), s.flows[id], key, lane);
    RelabelMovesShare(base, id, a, key, lane);
    assert Surplus(t.domainMinutes, t.slices, key, lane) == Surplus(s.domainMinutes, s.slices, key, lane);
    assert k !in s.slices;
  }

  /** Then the domain minute is within its device minute exactly when the meter had that much to spare. */
  lemma BaselineWithinMeter(owner: Owner, s: State, id: FlowId, a: Attribution, lane: Lane)
    requires Coherent(owner, s) && id in s.flows && s.flows[id].domain == None && !HasSlices(s.slices, id)
    ensures Reattribute(s, id, owner(id), a).Ok?
    ensures var t, row := Reattribute(s, id, owner(id), a).value, s.flows[id];
            var minute := FloorToMinute(row.lastSeen);
            var key, meter := DomainMinute(owner(id), a.domain, minute), DeviceMinute(owner(id), minute);
            Booked(t.domainMinutes, key, lane) <= Metered(t.deviceMinutes, meter, lane)
            <==> Booked(s.domainMinutes, key, lane) + BytesOf(row.counters).In(lane)
                 <= Metered(s.deviceMinutes, meter, lane)
  {
    BaselineBooksOneMinute(owner, s, id, a, DomainMinute(owner(id), a.domain, FloorToMinute(s.flows[id].lastSeen)),
        lane);
  }

  /** Labels of one flow under a MAC that is not the flow's. */
  ghost predicate Foreign(s: State, id: FlowId, mac: Mac) { id in s.flows && s.flows[id].Mac() != mac }

  predicate Renames(from: Option<Attribution>, to: Attribution) { from.Some? && from.value.domain != to.domain }

  /**
   * A reattribution under a foreign MAC succeeds exactly when that device's own aggregates happen to hold every
   * contribution that changes domain.
   */
  lemma ForeignReattribution(owner: Owner, s: State, id: FlowId, mac: Mac, a: Attribution)
    requires Coherent(owner, s) && Foreign(s, id, mac)
    ensures Reattribute(s, id, mac, a).Ok? <==>
              forall k :: k in s.slices && k.flow == id && Renames(s.flows[id].domain, a) ==>
                var key := DomainMinute(mac, s.flows[id].domain.value.domain, k.minute);
                key in s.domainMinutes && Leq(s.slices[k].bytes, s.domainMinutes[key].bytes)
  {}

  function Sample(mac: Mac, d: DomainName, at: Timestamp): Flow {
    Flow(1, 0, at, Endpoints(Tcp, Upload, 1, 1, mac, V4(1), 1, V4(2), 443), NatFields(None, None, None, None),
         Counters(10, 0, 1), Some(Attribution(d, Dns, High, at, None)), New)
  }

  /** The first snapshot of a flow in an empty ledger. */
  lemma FirstSnapshot(f: Flow, a: Attribution)
    requires Fits(f.counters) && BytesOf(f.counters) != NO_BYTES && f.domain == Some(a)
    ensures UpsertFlow(EMPTY_LEDGER, f).Ok?
    ensures var s, minute := UpsertFlow(EMPTY_LEDGER, f).value, FloorToMinute(f.lastSeen);
            && s.flows == map[f.flowId := f]
            && s.slices == map[SliceKey(f.flowId, minute) := Slice(f.Mac(), BytesOf(f.counters), f.domain)]
            && s.domainMinutes == WithDomainBytes(map[], f.Mac(), a, minute, BytesOf(f.counters))
            && s.deviceMinutes == map[DeviceMinute(f.Mac(), minute) := BytesOf(f.counters)]
  {}

  lemma FirstSample()
    ensures UpsertFlow(EMPTY_LEDGER, Sample(1, 5, 0)).Ok?
    ensures var s := UpsertFlow(EMPTY_LEDGER, Sample(1, 5, 0)).value;
            && s.flows == map[1 := Sample(1, 5, 0)]
            && s.slices == map[SliceKey(1, 0) := Slice(1, Bytes(10, 0), Sample(1, 5, 0).domain)]
            && s.domainMinutes == map[DomainMinute(1, 5, 0) := DomainRow(Bytes(10, 0), Dns, High)]
            && s.deviceMinutes == map[DeviceMinute(1, 0) := Bytes(10, 0)]
  {
    FirstSnapshot(Sample(1, 5, 0), Sample(1, 5, 0).domain.value);
  }

  ghost function ToFirst(id: FlowId): Mac { 1 }

  lemma FirstSampleIsCoherent()
    ensures UpsertFlow(EMPTY_LEDGER, Sample(1, 5, 0)).Ok?
        && Coherent(ToFirst, UpsertFlow(EMPTY_LEDGER, Sample(1, 5, 0)).value)
  {
    FirstSample();
    EmptyIsExact(ToFirst);
    UpsertFlowCoherent(ToFirst, EMPTY_LEDGER, Sample(1, 5, 0));
  }

  /** One MAC per flow id is a real premise: the same flow reported under another MAC with a newer domain is refused. */
  lemma ForeignMacIsRefused()
    ensures UpsertFlow(EMPTY_LEDGER, Sample(1, 5, 0)).Ok?
    ensures UpsertFlow(UpsertFlow(EMPTY_LEDGER, Sample(1, 5, 0)).value, Sample(2, 6, 1)) == Err(Unbalanced)
    ensures UpsertFlow(UpsertFlow(EMPTY_LEDGER, Sample(1, 5, 0)).value, Sample(1, 6, 1)) != Err(Unbalanced)
  {
    var s, g := UpsertFlow(EMPTY_LEDGER, Sample(1, 5, 0)).value, Sample(2, 6, 1);
    FirstSample();
    FirstSampleIsCoherent();
    UpsertFlowCoherent(ToFirst, s, Sample(1, 6, 1));
    ReportedElsewhere(s, g);
  }

  lemma ReportedElsewhere(s: State, g: Flow)
    requires s.flows == map[1 := Sample(1, 5, 0)] && g == Sample(2, 6, 1)
    requires s.slices == map[SliceKey(1, 0) := Slice(1, Bytes(10, 0), Sample(1, 5, 0).domain)]
    requires s.domainMinutes == map[DomainMinute(1, 5, 0) := DomainRow(Bytes(10, 0), Dns, High)]
    ensures UpsertFlow(s, g) == Err(Unbalanced)
  {
    var touched := s.(devices := Touched(s.devices, 2, V4(1)));
    var part, k := SlicesOf(s.slices, 1), SliceKey(1, 0);
    assert WithBaseline(touched.slices, 1, 2, touched.flows[1]) == s.slices;
    assert k in part && !CanMove(s.domainMinutes, 2, g.domain.value, 0, part[k]);
    assert Reattribute(touched, 1, 2, g.domain.value) == Err(Unbalanced);
    assert KeptDomain(s, g) == g.domain;
  }

  // ----- a domain minute above its device minute -----

  function Unnamed(f: Flow): Flow { f.(domain := None) }

  /** A new name for the flow. */
  const RENAMING := Work(Binding(1, V4(2), Attribution(6, Dns, High, 60_000, None)), [1])

  /** A named flow, its domain deleted, seen again a minute later without new bytes, and named anew. */
  function LateNaming(): seq<Step> {
    [Upsert([Sample(1, 5, 0)]), DropDomain(None, 5), Upsert([Unnamed(Sample(1, 5, 60_000))]), Backfill([RENAMING])]
  }

  lemma SingleUpsert(s: State, f: Flow)
    requires ValidFlow(f)
    ensures UpsertFlows(s, [f]) == UpsertFlow(s, f)
  {
    if UpsertFlow(s, f).Ok? {
      assert [f][1..] == [];
      assert UpsertAll(UpsertFlow(s, f).value, []) == UpsertFlow(s, f);
    }
  }

  lemma SampleIsValid(mac: Mac, d: DomainName, at: Timestamp)
    requires mac != EMPTY && at >= 0
    ensures ValidFlow(Sample(mac, d, at)) && ValidFlow(Unnamed(Sample(mac, d, at)))
  {}

  /** A snapshot without news of a flow that is not attributed only moves its last sighting. */
  lemma SightingMovesOn(s: State, f: Flow)
    requires f.flowId in s.flows && f == Unnamed(s.flows[f.flowId]).(lastSeen := f.lastSeen)
    requires s.flows[f.flowId].domain == None
    requires Fits(f.counters)
    ensures UpsertFlow(s, f) == Ok(s.(devices := Touched(s.devices, f.Mac(), f.endpoints.clientIp),
        flows := s.flows[f.flowId := f]))
  {
    assert KeptDomain(s, f) == None && Increase(s, f) == Some(Counters(0, 0, 0));
    assert Merged(s.flows[f.flowId], f, None) == f;
  }

  lemma RedactedSample(s: State)
    requires s.flows == map[1 := Sample(1, 5, 0)]
    requires s.slices == map[SliceKey(1, 0) := Slice(1, Bytes(10, 0), Sample(1, 5, 0).domain)]
    requires s.domainMinutes == map[DomainMinute(1, 5, 0) := DomainRow(Bytes(10, 0), Dns, High)]
    ensures var t := DeleteDomain(s, None, 5);
            t.flows == map[1 := Unnamed(Sample(1, 5, 0))] && t.slices == map[] && t.domainMinutes == map[]
  {}

  /**
   * The first three steps leave a flow with ten bytes, metered in minute zero, seen in minute one, and not booked
   * anywhere.
   */
  lemma AfterThreeSteps() returns (s: State)
    ensures s == Run(EMPTY_LEDGER, LateNaming()[..3])
    ensures s.flows == map[1 := Unnamed(Sample(1, 5, 60_000))] && s.slices == map[] && s.domainMinutes == map[]
    ensures s.deviceMinutes == map[DeviceMinute(1, 0) := Bytes(10, 0)]
  {
    var f, g := Sample(1, 5, 0), Unnamed(Sample(1, 5, 60_000));
    FirstSample();
    var named := UpsertFlow(EMPTY_LEDGER, f).value;
    RedactedSample(named);
    var redacted := DeleteDomain(named, None, 5);
    SightingMovesOn(redacted, g);
    s := UpsertFlow(redacted, g).value;
    SampleIsValid(1, 5, 0);
    SampleIsValid(1, 5, 60_000);
    SingleUpsert(EMPTY_LEDGER, f);
    SingleUpsert(redacted, g);
    ThreeSteps(EMPTY_LEDGER, Upsert([f]), DropDomain(None, 5), Upsert([g]), named, redacted, s);
    assert LateNaming()[..3] == [Upsert([f]), DropDomain(None, 5), Upsert([g])];
  }

  lemma ThreeSteps(s: State, a: Step, b: Step, c: Step, t: State, u: State, v: State)
    requires Apply(s, a) == t && Apply(t, b) == u && Apply(u, c) == v
    ensures Run(s, [a, b, c]) == v
  {
    assert [a, b, c][1..] == [b, c] && [b, c][1..] == [c] && [c][1..] == [];
    assert Run(v, []) == v;
    assert Run(u, [c]) == v;
    assert Run(t, [b, c]) == v;
  }

  lemma RenamingReattributes(s: State)
    requires s.flows == map[1 := Unnamed(Sample(1, 5, 60_000))]
    requires Reattribute(s, 1, 1, RENAMING.binding.attribution).Ok?
    ensures Legal(ToFirst, s, Backfill([RENAMING]))
    ensures Apply(s, Backfill([RENAMING])) == Reattribute(s, 1, 1, RENAMING.binding.attribution).value
  {
    var b := RENAMING.binding;
    assert Matching(s, b) == {1};
    assert Improves(s, b, 1) && Effective(s.flows[1].domain, Some(b.attribution)) == Some(b.attribution);
    var t := Reattribute(s, 1, 1, b.attribution).value;
    assert BackfillFlow(s, b, 1) == Ok(Tally(t, 1));
    assert [1][1..] == [] && BackfillRows(t, b, []) == Ok(Tally(t, 0));
    assert BackfillRows(s, b, [1]) == Ok(Tally(t, 1));
    assert [RENAMING][1..] == [] && BackfillAll(t, []) == Ok(Tally(t, 0));
  }

  /** From an empty database, a run in which a domain minute ends ten bytes above its device minute. */
  lemma DomainExceedsDevice()
    ensures LegalRun(ToFirst, EMPTY_LEDGER, LateNaming())
    ensures var t := Run(EMPTY_LEDGER, LateNaming());
            && Booked(t.domainMinutes, DomainMinute(1, 6, 60_000), Up) == 10
            && Metered(t.deviceMinutes, DeviceMinute(1, 60_000), Up) == 0
  {
    var s := AfterThreeSteps();
    EmptyIsExact(ToFirst);
    FirstStepsAreLegal();
    EveryRunIsCoherent(ToFirst, EMPTY_LEDGER, LateNaming()[..3]);
    RenamingOverbooks(s);
    FourthStep(s);
  }

  lemma RenamingOverbooks(s: State)
    requires Coherent(ToFirst, s) && s.flows == map[1 := Unnamed(Sample(1, 5, 60_000))]
    requires s.slices == map[] && s.domainMinutes == map[] && s.deviceMinutes == map[DeviceMinute(1, 0) := Bytes(10, 0)]
    ensures Legal(ToFirst, s, Backfill([RENAMING]))
    ensures var t := Apply(s, Backfill([RENAMING]));
            && Booked(t.domainMinutes, DomainMinute(1, 6, 60_000), Up) == 10
            && Metered(t.deviceMinutes, DeviceMinute(1, 60_000), Up) == 0
  {
    assert FloorToMinute(60_000) == 60_000;
    BaselineBooksOneMinute(ToFirst, s, 1, RENAMING.binding.attribution, DomainMinute(1, 6, 60_000), Up);
    RenamingReattributes(s);
  }

  lemma FourthStep(s: State)
    requires LegalRun(ToFirst, EMPTY_LEDGER, LateNaming()[..3]) && s == Run(EMPTY_LEDGER, LateNaming()[..3])
    requires Legal(ToFirst, s, Backfill([RENAMING]))
    ensures LegalRun(ToFirst, EMPTY_LEDGER, LateNaming())
    ensures Run(EMPTY_LEDGER, LateNaming()) == Apply(s, Backfill([RENAMING]))
  {
    var before, last := LateNaming()[..3], [Backfill([RENAMING])];
    assert LateNaming() == before + last;
    assert last[1..] == [] && Run(s, last) == Run(Apply(s, last[0]), []);
    RunConcat(EMPTY_LEDGER, before, last);
    LegalConcat(ToFirst, EMPTY_LEDGER, before, last);
  }

  lemma FirstStepsAreLegal()
    ensures LegalRun(ToFirst, EMPTY_LEDGER, LateNaming()[..3])
  {
    AlwaysLegal(EMPTY_LEDGER, LateNaming()[..3]);
  }

  lemma {:induction false} AlwaysLegal(s: State, steps: seq<Step>)
    requires forall i :: 0 <= i < |steps| ==>
               steps[i].DropDomain? || (steps[i].Upsert? && OwnedBatch(ToFirst, steps[i].flows))
    ensures LegalRun(ToFirst, s, steps)
    decreases |steps|
  {
    if steps != [] {
      AlwaysLegal(Apply(s, steps[0]), steps[1..]);
    }
  }
}
