/** Laws of whole batches: repeating a batch changes nothing, and backfills may be delivered in any order. */
module BatchLaws {
  import opened Domain
  import opened Attributions
  import opened Ledger
  import opened Totals
  import opened LedgerInvariant
  import opened LedgerRuns
  import opened Books
  import opened Timing
  import opened AttributionHistory

  // ----- a batch of snapshots applied twice -----

  /** The stored row already says everything the snapshot says. */
  predicate Absorbed(s: State, f: Flow) {
    && f.flowId in s.flows
    && var row := s.flows[f.flowId];
      && Merged(row, f, row.domain) == row
      && Effective(row.domain, f.domain) == row.domain
  }

  lemma MergedAbsorbs(stored: Flow, f: Flow, d: Option<Attribution>)
    ensures Merged(Merged(stored, f, d), f, d) == Merged(stored, f, d)
    ensures Merged(f.(domain := d), f, d) == f.(domain := d)
  {}

  lemma UpsertFlowAbsorbs(s: State, f: Flow)
    requires UpsertFlow(s, f).Ok?
    ensures Absorbed(UpsertFlow(s, f).value, f)
  {
    var d, relabelled := KeptDomain(s, f), Relabel(s, f).value;
    UpsertFlowDomains(s, f);
    EffectiveAbsorbs(StoredDomain(s, f.flowId), f.domain);
    MergedAbsorbs(if f.flowId in relabelled.flows then relabelled.flows[f.flowId] else f, f, d);
    assert UpsertFlow(s, f).value.flows == StoreRow(relabelled, f, d).flows;
  }

  lemma AbsorbedUpsert(s: State, f: Flow)
    requires Absorbed(s, f) && Fits(f.counters)
    ensures UpsertFlow(s, f) == Ok(s.(devices := Touched(s.devices, f.Mac(), f.endpoints.clientIp)))
  {
    var row := s.flows[f.flowId];
    assert row.counters == f.counters && Increase(s, f) == Some(Counters(0, 0, 0));
    assert s.flows[f.flowId := row] == s.flows;
  }

  ghost predicate DistinctIds(fs: seq<Flow>) {
    forall i, j :: 0 <= i < j < |fs| ==> fs[i].flowId != fs[j].flowId
  }

  lemma {:induction false} OthersStay(s: State, fs: seq<Flow>, id: FlowId)
    requires UpsertAll(s, fs).Ok? && id in s.flows && (forall i :: 0 <= i < |fs| ==> fs[i].flowId != id)
    ensures id in UpsertAll(s, fs).value.flows && UpsertAll(s, fs).value.flows[id] == s.flows[id]
    decreases |fs|
  {
    if fs != [] {
      UpsertFlowDomains(s, fs[0]);
      OthersStay(UpsertFlow(s, fs[0]).value, fs[1..], id);
    }
  }

  lemma {:induction false} UpsertAllAbsorbs(s: State, fs: seq<Flow>)
    requires UpsertAll(s, fs).Ok? && DistinctIds(fs)
    ensures forall i :: 0 <= i < |fs| ==> Absorbed(UpsertAll(s, fs).value, fs[i]) && Fits(fs[i].counters)
    decreases |fs|
  {
    if fs != [] {
      UpsertFlowAbsorbs(s, fs[0]);
      OthersStay(UpsertFlow(s, fs[0]).value, fs[1..], fs[0].flowId);
      UpsertAllAbsorbs(UpsertFlow(s, fs[0]).value, fs[1..]);
      forall i | 0 <= i < |fs| ensures Absorbed(UpsertAll(s, fs).value, fs[i]) && Fits(fs[i].counters) {
        assert i > 0 ==> fs[i] == fs[1..][i - 1];
      }
    }
  }

  type Devices = map<Mac, Device>

  function TouchAll(devices: Devices, fs: seq<Flow>): Devices
    decreases |fs|
  {
    if fs == [] then devices
    else TouchAll(Touched(devices, fs[0].Mac(), fs[0].endpoints.clientIp), fs[1..])
  }

  lemma {:induction false} UpsertAllTouches(s: State, fs: seq<Flow>)
    requires UpsertAll(s, fs).Ok?
    ensures UpsertAll(s, fs).value.devices == TouchAll(s.devices, fs)
    decreases |fs|
  {
    if fs != [] {
      UpsertAllTouches(UpsertFlow(s, fs[0]).value, fs[1..]);
    }
  }

  lemma {:induction false} AbsorbedUpsertAll(s: State, fs: seq<Flow>)
    requires forall i :: 0 <= i < |fs| ==> Absorbed(s, fs[i]) && Fits(fs[i].counters)
    ensures UpsertAll(s, fs) == Ok(s.(devices := TouchAll(s.devices, fs)))
    decreases |fs|
  {
    if fs != [] {
      AbsorbedUpsert(s, fs[0]);
      AbsorbedUpsertAll(UpsertFlow(s, fs[0]).value, fs[1..]);
    }
  }

  function NameOf(devices: Devices, mac: Mac): Option<Text> {
    if mac in devices then devices[mac].displayName else None
  }

  /** Equal names everywhere and equal rows wherever the batch has no say. */
  ghost predicate Alike(d: Devices, e: Devices, fs: seq<Flow>) {
    forall mac ::
      && NameOf(d, mac) == NameOf(e, mac)
      && ((forall i :: 0 <= i < |fs| ==> fs[i].Mac() != mac) ==>
            (mac in d <==> mac in e) && (mac in d ==> d[mac] == e[mac]))
  }

  lemma {:induction false} AlikeTouchedAlike(d: Devices, e: Devices, fs: seq<Flow>)
    requires Alike(d, e, fs)
    ensures TouchAll(d, fs) == TouchAll(e, fs)
    decreases |fs|
  {
    if fs == [] {
      assert forall mac ::
        NameOf(d, mac) == NameOf(e, mac) ==> (mac in d <==> mac in e) && (mac in d ==> d[mac] == e[mac]);
      assert d == e;
    } else {
      var d1 := Touched(d, fs[0].Mac(), fs[0].endpoints.clientIp);
      var e1 := Touched(e, fs[0].Mac(), fs[0].endpoints.clientIp);
      assert NameOf(d, fs[0].Mac()) == NameOf(e, fs[0].Mac());
      forall mac
        ensures NameOf(d1, mac) == NameOf(e1, mac)
        ensures (forall i :: 0 <= i < |fs[1..]| ==> fs[1..][i].Mac() != mac) ==>
                  (mac in d1 <==> mac in e1) && (mac in d1 ==> d1[mac] == e1[mac])
      {
        assert NameOf(d, mac) == NameOf(e, mac);
        if mac != fs[0].Mac() && (forall i :: 0 <= i < |fs[1..]| ==> fs[1..][i].Mac() != mac) {
          forall i | 0 <= i < |fs| ensures fs[i].Mac() != mac {
            assert i > 0 ==> fs[i] == fs[1..][i - 1];
          }
        }
      }
      AlikeTouchedAlike(d1, e1, fs[1..]);
    }
  }

  lemma {:induction false} TouchAllAlike(d: Devices, fs: seq<Flow>, mac: Mac)
    ensures NameOf(d, mac) == NameOf(TouchAll(d, fs), mac)
    ensures (forall i :: 0 <= i < |fs| ==> fs[i].Mac() != mac) ==>
              (mac in d <==> mac in TouchAll(d, fs)) && (mac in d ==> d[mac] == TouchAll(d, fs)[mac])
    decreases |fs|
  {
    if fs != [] {
      TouchAllAlike(Touched(d, fs[0].Mac(), fs[0].endpoints.clientIp), fs[1..], mac);
      if forall i :: 0 <= i < |fs| ==> fs[i].Mac() != mac {
        forall i | 0 <= i < |fs[1..]| ensures fs[1..][i].Mac() != mac {
          assert fs[1..][i] == fs[i + 1];
        }
      }
    }
  }

  /** A committed batch with distinct flow ids may be delivered again: nothing changes. */
  lemma RepeatedUpsertIsNeutral(s: State, fs: seq<Flow>)
    requires UpsertFlows(s, fs).Ok? && DistinctIds(fs)
    ensures UpsertFlows(UpsertFlows(s, fs).value, fs) == UpsertFlows(s, fs)
  {
    var t := UpsertFlows(s, fs).value;
    UpsertAllAbsorbs(s, fs);
    AbsorbedUpsertAll(t, fs);
    UpsertAllTouches(s, fs);
    forall mac { TouchAllAlike(s.devices, fs, mac); }
    AlikeTouchedAlike(s.devices, t.devices, fs);
  }

  predicate NotReset(now: Counters, before: Counters) { DeltaFrom(now, before).Some? }

  /** The snapshot at `i` resets no counter, neither of the stored row nor of an earlier snapshot of the batch. */
  ghost predicate Rises(s: State, fs: seq<Flow>, i: nat)
    requires i < |fs|
  {
    && (fs[i].flowId in s.flows ==> NotReset(fs[i].counters, s.flows[fs[i].flowId].counters))
    && (forall j :: 0 <= j < i && fs[j].flowId == fs[i].flowId ==> NotReset(fs[i].counters, fs[j].counters))
  }

  /** Every snapshot fits the columns and rises, whether or not flow ids repeat. */
  ghost predicate AllRise(s: State, fs: seq<Flow>) {
    forall i :: 0 <= i < |fs| ==> Fits(fs[i].counters) && Rises(s, fs, i)
  }

  lemma UpsertedCounters(s: State, f: Flow)
    requires UpsertFlow(s, f).Ok?
    ensures var t := UpsertFlow(s, f).value;
            && t.flows.Keys == s.flows.Keys + {f.flowId} && t.flows[f.flowId].counters == f.counters
            && (forall id :: id in s.flows && id != f.flowId ==> t.flows[id].counters == s.flows[id].counters)
    ensures f.flowId in s.flows ==> NotReset(f.counters, s.flows[f.flowId].counters)
  {
    UpsertFlowDomains(s, f);
    UpsertStores(s, f);
  }

  /** The rest of a batch rises after its first snapshot exactly when the batch rises. */
  lemma RestRises(s: State, fs: seq<Flow>)
    requires fs != [] && UpsertFlow(s, fs[0]).Ok?
    ensures AllRise(s, fs) <==> AllRise(UpsertFlow(s, fs[0]).value, fs[1..])
  {
    var t, rest := UpsertFlow(s, fs[0]).value, fs[1..];
    UpsertedCounters(s, fs[0]);
    assert Fits(fs[0].counters) && Rises(s, fs, 0);
    forall i | 0 < i < |fs| ensures rest[i - 1] == fs[i] && (Rises(s, fs, i) <==> Rises(t, rest, i - 1)) {
      RestRisesAt(s, fs, i);
    }
    forall i | 0 <= i < |rest| ensures rest[i] == fs[i + 1] && (Rises(s, fs, i + 1) <==> Rises(t, rest, i)) {
      RestRisesAt(s, fs, i + 1);
    }
  }

  lemma RestRisesAt(s: State, fs: seq<Flow>, i: nat)
    requires 0 < i < |fs| && UpsertFlow(s, fs[0]).Ok?
    ensures Rises(s, fs, i) <==> Rises(UpsertFlow(s, fs[0]).value, fs[1..], i - 1)
  {
    var t, rest := UpsertFlow(s, fs[0]).value, fs[1..];
    UpsertedCounters(s, fs[0]);
    assert forall j :: 0 < j < |fs| ==> rest[j - 1] == fs[j];
    if Rises(t, rest, i - 1) {
      forall j | 0 <= j < i && fs[j].flowId == fs[i].flowId ensures NotReset(fs[i].counters, fs[j].counters) {
        if j > 0 {
          assert rest[j - 1].flowId == rest[i - 1].flowId;
        }
      }
    }
  }

  lemma {:induction false} CommittedBatchRises(s: State, fs: seq<Flow>)
    requires UpsertAll(s, fs).Ok?
    ensures AllRise(s, fs)
    decreases |fs|
  {
    if fs != [] {
      CommittedBatchRises(UpsertFlow(s, fs[0]).value, fs[1..]);
      RestRises(s, fs);
    }
  }

  lemma {:induction false} RisingBatchCommits(owner: Owner, s: State, fs: seq<Flow>)
    requires Coherent(owner, s) && OwnedBatch(owner, fs) && AllRise(s, fs)
    ensures UpsertAll(s, fs).Ok?
    decreases |fs|
  {
    if fs != [] {
      assert Fits(fs[0].counters) && Rises(s, fs, 0);
      UpsertFlowCoherent(owner, s, fs[0]);
      assert UpsertFlow(s, fs[0]).Ok?;
      RestRises(s, fs);
      RisingBatchCommits(owner, UpsertFlow(s, fs[0]).value, fs[1..]);
    }
  }

  /** Only the check of the whole batch reports an invalid flow. */
  lemma {:induction false} NeverInvalid(s: State, fs: seq<Flow>)
    ensures UpsertAll(s, fs) != Err(InvalidFlow)
    decreases |fs|
  {
    if fs != [] && UpsertFlow(s, fs[0]).Ok? {
      NeverInvalid(UpsertFlow(s, fs[0]).value, fs[1..]);
    }
  }

  /** A snapshot without an id, a device, an address or a protocol, that ends before it begins, or half translated. */
  predicate Malformed(f: Flow) {
    var n := f.translation;
    || f.flowId == EMPTY || f.endpoints.clientMac == EMPTY
    || f.endpoints.clientIp == Other(EMPTY) || f.endpoints.destinationIp == Other(EMPTY)
    || f.endpoints.protocol == OtherProtocol(EMPTY) || f.firstSeen > f.lastSeen
    || !(n.sourceIp.Some? == n.sourcePort.Some? == n.destinationIp.Some? == n.destinationPort.Some?)
  }

  /** Some counter exceeds what the columns hold. */
  predicate Oversized(c: Counters) {
    || c.upload >= 0x8000_0000_0000_0000 || c.download >= 0x8000_0000_0000_0000
    || c.packets >= 0x8000_0000_0000_0000
  }

  lemma ValidUnlessMalformed(f: Flow)
    ensures ValidFlow(f) <==> !Malformed(f)
  {
    var n := f.translation;
    var present := [n.sourceIp.Some?, n.sourcePort.Some?, n.destinationIp.Some?, n.destinationPort.Some?];
    assert present[0] in present && present[1] in present && present[2] in present && present[3] in present;
  }

  /** On coherent books a batch commits exactly when its flows are well formed, fit the columns and reset no counter. */
  lemma BatchCommitsIffItRises(owner: Owner, s: State, fs: seq<Flow>)
    requires Coherent(owner, s) && OwnedBatch(owner, fs)
    ensures UpsertFlows(s, fs).Ok? <==>
              forall i :: 0 <= i < |fs| ==> !Malformed(fs[i]) && !Oversized(fs[i].counters) && Rises(s, fs, i)
    ensures UpsertFlows(s, fs) == Err(InvalidFlow) <==> exists i :: 0 <= i < |fs| && Malformed(fs[i])
  {
    forall i | 0 <= i < |fs| ensures ValidFlow(fs[i]) <==> !Malformed(fs[i]) {
      ValidUnlessMalformed(fs[i]);
    }
    NeverInvalid(s, fs);
    if UpsertFlows(s, fs).Ok? {
      CommittedBatchRises(s, fs);
    }
    if AllRise(s, fs) {
      RisingBatchCommits(owner, s, fs);
    }
  }

  /** Some counter is lower than it was. */
  predicate Falls(now: Counters, before: Counters) {
    now.upload < before.upload || now.download < before.download || now.packets < before.packets
  }

  /** What a refused snapshot is refused for: its form first, then the size of its counters, then a reset. */
  lemma RefusalsAreNamed(s: State, f: Flow)
    ensures var r := UpsertFlows(s, [f]);
            && (r == Err(InvalidFlow) <==> Malformed(f))
            && (r == Err(CounterTooLarge) <==> !Malformed(f) && Oversized(f.counters))
            && (r == Err(CounterReset) <==>
                  && !Malformed(f) && !Oversized(f.counters)
                  && f.flowId in s.flows && Falls(f.counters, s.flows[f.flowId].counters))
  {
    ValidUnlessMalformed(f);
    BatchOfOne(s, f);
  }

  lemma BatchOfOne(s: State, f: Flow)
    ensures UpsertFlows(s, [f]) == if ValidFlow(f) then UpsertFlow(s, f) else Err(InvalidFlow)
  {
    assert [f][1..] == [];
    assert [f][0] == f;
    if UpsertFlow(s, f).Ok? {
      assert UpsertAll(UpsertFlow(s, f).value, []) == Ok(UpsertFlow(s, f).value);
    }
  }

  /** An invalid flow, an oversized counter or a counter reset anywhere in a batch leaves every table as it was. */
  lemma BadBatchChangesNothing(s: State, fs: seq<Flow>, i: nat)
    requires i < |fs|
    requires Malformed(fs[i]) || Oversized(fs[i].counters) || !Rises(s, fs, i)
    ensures UpsertFlows(s, fs).Err? && Apply(s, Upsert(fs)) == s
  {
    ValidUnlessMalformed(fs[i]);
    if UpsertFlows(s, fs).Ok? {
      CommittedBatchRises(s, fs);
    }
  }

  // ----- backfills -----

  /** What the contribution table becomes when flows of `s` end with the attributions of `t`. */
  ghost predicate Rebuilt(s: State, t: State) {
    forall k ::
      && (k in t.slices <==> k in Expected(s, t, k.flow))
      && (k in t.slices ==> t.slices[k].bytes == Expected(s, t, k.flow)[k].bytes)
  }

  /** A flow that gains its first attribution has its baseline laid down on the way. */
  function Expected(s: State, t: State, id: FlowId): Slices {
    if id in s.flows && StoredDomain(t, id).Some? then WithBaseline(s.slices, id, s.flows[id].Mac(), s.flows[id])
        else s.slices
  }

  lemma ReattributeRebuilds(s: State, id: FlowId, a: Attribution)
    requires id in s.flows && SlicesOwned(s) && Reattribute(s, id, s.flows[id].Mac(), a).Ok?
    ensures Rebuilt(s, Reattribute(s, id, s.flows[id].Mac(), a).value)
  {
    var t := Reattribute(s, id, s.flows[id].Mac(), a).value;
    forall k
      ensures k in t.slices <==> k in Expected(s, t, k.flow)
      ensures k in t.slices ==> t.slices[k].bytes == Expected(s, t, k.flow)[k].bytes
    {
      if k.flow != id && k.flow in s.flows && s.flows[k.flow].domain.None? {
        assert StoredDomain(t, k.flow) == None;
      }
    }
  }

  lemma BaselineAlike(a: Slices, b: Slices, id: FlowId, row: Flow, other: Flow, k: SliceKey)
    requires k.flow == id && Bare(row) == Bare(other) && row.domain == other.domain
    requires forall j: SliceKey :: j.flow == id ==> (j in a <==> j in b) && (j in a ==> a[j].bytes == b[j].bytes)
    ensures var x, y := WithBaseline(a, id, row.Mac(), row), WithBaseline(b, id, other.Mac(), other);
            (k in x <==> k in y) && (k in x ==> x[k].bytes == y[k].bytes)
  {}

  lemma RebuiltTransitiveAt(s: State, n: State, t: State, k: SliceKey)
    requires Rebuilt(s, n) && Rebuilt(n, t) && SameRows(s, n) && SameRows(n, t)
    requires StoredDomain(s, k.flow).Some? ==> StoredDomain(n, k.flow).Some?
    requires StoredDomain(n, k.flow).Some? ==> StoredDomain(t, k.flow).Some?
    ensures k in t.slices <==> k in Expected(s, t, k.flow)
    ensures k in t.slices ==> t.slices[k].bytes == Expected(s, t, k.flow)[k].bytes
  {
    var id := k.flow;
    if id in s.flows {
      assert Bare(s.flows[id]) == Bare(n.flows[id]);
      if n.flows[id].domain.None? {
        assert s.flows[id].domain.None?;
        forall j: SliceKey | j.flow == id
          ensures (j in n.slices <==> j in s.slices) && (j in n.slices ==> n.slices[j].bytes == s.slices[j].bytes)
        {
          assert Expected(s, n, j.flow) == s.slices;
        }
        BaselineAlike(n.slices, s.slices, id, n.flows[id], s.flows[id], k);
      } else {
        assert Expected(n, t, id) == n.slices;
      }
    }
  }

  /** Domain columns only fill up. */
  ghost predicate KeepsKnown(s: State, t: State) {
    forall id :: StoredDomain(s, id).Some? ==> StoredDomain(t, id).Some?
  }

  lemma RebuiltTransitive(s: State, n: State, t: State)
    requires Rebuilt(s, n) && Rebuilt(n, t) && SameRows(s, n) && SameRows(n, t) && KeepsKnown(s, n) && KeepsKnown(n, t)
    ensures Rebuilt(s, t) && KeepsKnown(s, t)
  {
    forall k
      ensures k in t.slices <==> k in Expected(s, t, k.flow)
      ensures k in t.slices ==> t.slices[k].bytes == Expected(s, t, k.flow)[k].bytes
    {
      assert StoredDomain(s, k.flow).Some? ==> StoredDomain(n, k.flow).Some?;
      assert StoredDomain(n, k.flow).Some? ==> StoredDomain(t, k.flow).Some?;
      RebuiltTransitiveAt(s, n, t, k);
    }
  }

  lemma RebuiltReflexive(s: State)
    requires SlicesOwned(s)
    ensures Rebuilt(s, s) && KeepsKnown(s, s)
  {}

  lemma {:induction false} BackfillRowsRebuild(owner: Owner, s: State, b: Binding, rows: seq<FlowId>)
    requires Coherent(owner, s) && (forall id :: id in rows ==> id in Matching(s, b))
    ensures BackfillRows(s, b, rows).Ok?
    ensures var t := BackfillRows(s, b, rows).value.state;
            Coherent(owner, t) && SameRows(s, t) && SameSurplus(s, t) && Rebuilt(s, t) && KeepsKnown(s, t)
    decreases |rows|
  {
    BackfillRowsCoherent(owner, s, b, rows);
    RebuiltReflexive(s);
    if rows != [] {
      var next := BackfillFlow(s, b, rows[0]).value.state;
      BackfillFlowCoherent(owner, s, b, rows[0]);
      if Improves(s, b, rows[0]) {
        ReattributeRebuilds(s, rows[0], Effective(s.flows[rows[0]].domain, Some(b.attribution)).value);
      }
      SameRowsMatch(s, next, b);
      BackfillRowsRebuild(owner, next, b, rows[1..]);
      RebuiltTransitive(s, next, BackfillRows(s, b, rows).value.state);
    }
  }

  lemma {:induction false} BackfillAllRebuild(owner: Owner, s: State, work: seq<Work>)
    requires Coherent(owner, s) && FaithfulWork(s, work)
    ensures BackfillAll(s, work).Ok?
    ensures var t := BackfillAll(s, work).value.state;
            Coherent(owner, t) && SameRows(s, t) && SameSurplus(s, t) && Rebuilt(s, t) && KeepsKnown(s, t)
    decreases |work|
  {
    BackfillAllCoherent(owner, s, work);
    RebuiltReflexive(s);
    if work != [] {
      assert Enumerates(work[0].rows, Matching(s, work[0].binding));
      BackfillRowsRebuild(owner, s, work[0].binding, work[0].rows);
      var next := BackfillRows(s, work[0].binding, work[0].rows).value.state;
      SameRowsFaithful(s, next, work);
      assert FaithfulWork(next, work[1..]);
      BackfillAllRebuild(owner, next, work[1..]);
      RebuiltTransitive(s, next, BackfillAll(s, work).value.state);
    }
  }

  /** Two backfills of one coherent ledger that leave the same attributions leave the same books. */
  lemma SameDomainsSameBooks(owner: Owner, s: State, one: seq<Work>, two: seq<Work>)
    requires Coherent(owner, s) && FaithfulWork(s, one) && FaithfulWork(s, two)
    requires BackfillAll(s, one).Ok? && BackfillAll(s, two).Ok?
    requires SameDomains(BackfillAll(s, one).value.state, BackfillAll(s, two).value.state)
    ensures SameBooks(BackfillAll(s, one).value.state, BackfillAll(s, two).value.state)
  {
    var t, u := BackfillAll(s, one).value.state, BackfillAll(s, two).value.state;
    BackfillAllRebuild(owner, s, one);
    BackfillAllRebuild(owner, s, two);
    BackfillAllTouchesOnlyDomains(s, one);
    BackfillAllTouchesOnlyDomains(s, two);
    forall id | id in t.flows ensures t.flows[id] == u.flows[id] {
      assert Bare(s.flows[id]) == Bare(t.flows[id]) && Bare(s.flows[id]) == Bare(u.flows[id]);
    }
    assert t.flows == u.flows;
    RebuiltSlicesAgree(s, t, u);
    forall key, lane ensures Booked(t.domainMinutes, key, lane) == Booked(u.domainMinutes, key, lane) {
      assert Surplus(t.domainMinutes, t.slices, key, lane) == Surplus(s.domainMinutes, s.slices, key, lane);
      assert Surplus(u.domainMinutes, u.slices, key, lane) == Surplus(s.domainMinutes, s.slices, key, lane);
    }
  }

  lemma RebuiltSlicesAgree(s: State, t: State, u: State)
    requires Rebuilt(s, t) && Rebuilt(s, u) && t.flows == u.flows && SlicesOwned(t) && SlicesOwned(u)
    ensures t.slices == u.slices
  {
    forall k: SliceKey
      ensures k in t.slices <==> k in u.slices
      ensures k in t.slices ==> t.slices[k] == u.slices[k]
    {
      RebuiltSliceAgrees(s, t, u, k);
    }
  }

  lemma RebuiltSliceAgrees(s: State, t: State, u: State, k: SliceKey)
    requires Rebuilt(s, t) && Rebuilt(s, u) && t.flows == u.flows && SlicesOwned(t) && SlicesOwned(u)
    ensures k in t.slices <==> k in u.slices
    ensures k in t.slices ==> t.slices[k] == u.slices[k]
  {
    assert StoredDomain(t, k.flow) == StoredDomain(u, k.flow);
    assert Expected(s, t, k.flow) == Expected(s, u, k.flow);
    assert k in t.slices <==> k in u.slices;
    if k in t.slices {
      assert t.slices[k].bytes == u.slices[k].bytes;
    }
  }

  // ----- bindings for distinct targets -----

  predicate SameTarget(b: Binding, c: Binding) { b.clientMac == c.clientMac && b.targetIp == c.targetIp }

  /** No two bindings of the batch speak of the same device and target. */
  ghost predicate DistinctTargets(work: seq<Work>) {
    forall i, j :: 0 <= i < j < |work| ==> !SameTarget(work[i].binding, work[j].binding)
  }

  ghost predicate Delivers(work: seq<Work>, b: Binding) {
    exists i :: 0 <= i < |work| && work[i].binding == b
  }

  /** The first binding of the batch that matches the flow. */
  function Told(row: Flow, work: seq<Work>): Option<Attribution>
    decreases |work|
  {
    if work == [] then None
    else if Matches(work[0].binding, row) then Some(work[0].binding.attribution)
    else Told(row, work[1..])
  }

  lemma {:induction false} ToldIgnoresDomain(row: Flow, other: Flow, work: seq<Work>)
    requires Bare(row) == Bare(other)
    ensures Told(row, work) == Told(other, work)
    decreases |work|
  {
    if work != [] {
      ToldIgnoresDomain(row, other, work[1..]);
    }
  }

  lemma {:induction false} ToldNothing(row: Flow, work: seq<Work>)
    requires forall i :: 0 <= i < |work| ==> !Matches(work[i].binding, row)
    ensures Told(row, work) == None
    decreases |work|
  {
    if work != [] {
      ToldNothing(row, work[1..]);
    }
  }

  /** With distinct targets the first match is the only one. */
  lemma {:induction false} ToldBy(row: Flow, work: seq<Work>, i: nat)
    requires DistinctTargets(work) && i < |work| && Matches(work[i].binding, row)
    ensures Told(row, work) == Some(work[i].binding.attribution)
    decreases |work|
  {
    if i > 0 {
      assert !SameTarget(work[0].binding, work[i].binding);
      assert work[i] == work[1..][i - 1];
      ToldBy(row, work[1..], i - 1);
    }
  }

  lemma {:induction false} BackfillAllDomains(s: State, work: seq<Work>, id: FlowId)
    requires BackfillAll(s, work).Ok? && FaithfulWork(s, work) && DistinctTargets(work) && id in s.flows
    ensures var t := BackfillAll(s, work).value.state;
            id in t.flows && t.flows[id].domain == Effective(s.flows[id].domain, Told(s.flows[id], work))
    decreases |work|
  {
    if work != [] {
      var b, rest := work[0].binding, work[1..];
      var next := BackfillRows(s, b, work[0].rows).value.state;
      assert Enumerates(work[0].rows, Matching(s, b));
      BackfillRowsDomains(s, b, work[0].rows);
      BackfillRowsTouchOnlyDomains(s, b, work[0].rows);
      SameRowsFaithful(s, next, work);
      assert FaithfulWork(next, rest);
      BackfillAllDomains(next, rest, id);
      ToldIgnoresDomain(s.flows[id], next.flows[id], rest);
      if Matches(b, s.flows[id]) {
        forall i | 0 <= i < |rest| ensures !Matches(rest[i].binding, s.flows[id]) {
          assert !SameTarget(work[0].binding, work[i + 1].binding);
        }
        ToldNothing(s.flows[id], rest);
      }
    }
  }

  lemma SameDeliveriesTellTheSame(row: Flow, one: seq<Work>, two: seq<Work>)
    requires DistinctTargets(one) && DistinctTargets(two)
    requires forall b :: Delivers(one, b) <==> Delivers(two, b)
    ensures Told(row, one) == Told(row, two)
  {
    if i :| 0 <= i < |one| && Matches(one[i].binding, row) {
      assert Delivers(one, one[i].binding);
      var j :| 0 <= j < |two| && two[j].binding == one[i].binding;
      ToldBy(row, one, i);
      ToldBy(row, two, j);
    } else {
      forall j | 0 <= j < |two| ensures !Matches(two[j].binding, row) {
        assert Delivers(two, two[j].binding);
      }
      ToldNothing(row, one);
      ToldNothing(row, two);
    }
  }

  /** The order in which bindings of distinct targets are delivered does not matter. */
  lemma OrderIsIrrelevant(owner: Owner, s: State, one: seq<Work>, two: seq<Work>)
    requires Coherent(owner, s) && FaithfulWork(s, one) && FaithfulWork(s, two)
    requires DistinctTargets(one) && DistinctTargets(two)
    requires forall b :: Delivers(one, b) <==> Delivers(two, b)
    ensures BackfillAll(s, one).Ok? && BackfillAll(s, two).Ok?
    ensures SameBooks(BackfillAll(s, one).value.state, BackfillAll(s, two).value.state)
  {
    BackfillAllCoherent(owner, s, one);
    BackfillAllCoherent(owner, s, two);
    var t, u := BackfillAll(s, one).value.state, BackfillAll(s, two).value.state;
    forall id | id in t.flows && id in u.flows ensures t.flows[id].domain == u.flows[id].domain {
      BackfillAllDomains(s, one, id);
      BackfillAllDomains(s, two, id);
      SameDeliveriesTellTheSame(s.flows[id], one, two);
    }
    SameDomainsSameBooks(owner, s, one, two);
  }

  // ----- delivering again -----

  /** Every flow the binding matches already has at least as good an attribution. */
  ghost predicate Settled(s: State, b: Binding) {
    forall id :: id in Matching(s, b) ==> !Improves(s, b, id)
  }

  lemma {:induction false} SettledRowsChangeNothing(s: State, b: Binding, rows: seq<FlowId>)
    requires Settled(s, b) && (forall id :: id in rows ==> id in Matching(s, b))
    ensures BackfillRows(s, b, rows) == Ok(Tally(s, 0))
    decreases |rows|
  {
    if rows != [] {
      assert rows[0] in Matching(s, b);
      SettledRowsChangeNothing(s, b, rows[1..]);
    }
  }

  lemma {:induction false} SettledWorkChangesNothing(s: State, work: seq<Work>)
    requires FaithfulWork(s, work) && (forall i :: 0 <= i < |work| ==> Settled(s, work[i].binding))
    ensures BackfillAll(s, work) == Ok(Tally(s, 0))
    decreases |work|
  {
    if work != [] {
      assert Enumerates(work[0].rows, Matching(s, work[0].binding));
      SettledRowsChangeNothing(s, work[0].binding, work[0].rows);
      assert FaithfulWork(s, work[1..]);
      SettledWorkChangesNothing(s, work[1..]);
    }
  }

  lemma DeliveredIsSettled(owner: Owner, s: State, work: seq<Work>, i: nat)
    requires Coherent(owner, s) && FaithfulWork(s, work) && DistinctTargets(work) && i < |work|
    ensures BackfillAll(s, work).Ok? && Settled(BackfillAll(s, work).value.state, work[i].binding)
  {
    BackfillAllCoherent(owner, s, work);
    var t := BackfillAll(s, work).value.state;
    SameRowsMatch(s, t, work[i].binding);
    forall id | id in Matching(t, work[i].binding) ensures !Improves(t, work[i].binding, id) {
      BackfillAllDomains(s, work, id);
      ToldBy(s.flows[id], work, i);
      EffectiveAbsorbs(s.flows[id].domain, Some(work[i].binding.attribution));
    }
  }

  /** Delivering again any of the bindings of a delivered batch, in any order and number, changes nothing. */
  lemma RepeatedBackfillIsNeutral(owner: Owner, s: State, work: seq<Work>, again: seq<Work>)
    requires Coherent(owner, s) && FaithfulWork(s, work) && DistinctTargets(work)
    requires BackfillAll(s, work).Ok? && FaithfulWork(BackfillAll(s, work).value.state, again)
    requires forall i :: 0 <= i < |again| ==> Delivers(work, again[i].binding)
    ensures var t := BackfillAll(s, work).value.state; BackfillAll(t, again) == Ok(Tally(t, 0))
  {
    var t := BackfillAll(s, work).value.state;
    forall i | 0 <= i < |again| ensures Settled(t, again[i].binding) {
      assert Delivers(work, again[i].binding);
      var j :| 0 <= j < |work| && work[j].binding == again[i].binding;
      DeliveredIsSettled(owner, s, work, j);
    }
    SettledWorkChangesNothing(t, again);
  }
}
