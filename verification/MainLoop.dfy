/** The background loops of src/main.rs: uninterrupted, each tick is one run of the interleaving model. */
module MainLoop {
  import opened Domain
  import opened Ledger
  import opened LedgerInvariant
  import opened LedgerRuns
  import opened BatchLaws
  import opened Repository
  import opened Delivery
  import opened Attributions
  import opened AttributionHistory
  import DnsCache
  import DnsInvariant
  import DnsBinding
  import Dns = DnsAttributionCache

  /** `actions` is an enabled run of the system from `s` to `t`. */
  ghost predicate Traces(owner: Owner, s: System, actions: seq<Action>, t: System) {
    EnabledRun(owner, s, actions) && RunSystem(s, actions) == t
  }

  lemma {:induction false} TraceExtends(owner: Owner, s: System, actions: seq<Action>, t: System, a: Action)
    requires Traces(owner, s, actions, t) && Enabled(owner, t, a)
    ensures Traces(owner, s, actions + [a], Perform(t, a))
    decreases |actions|
  {
    if actions == [] {
      assert actions + [a] == [a] && [a][1..] == [];
    } else {
      assert (actions + [a])[1..] == actions[1..] + [a];
      TraceExtends(owner, Perform(s, actions[0]), actions[1..], t, a);
    }
  }

  ghost function Now(ledger: SqliteRepository, cache: Dns.DnsAttributionCache): System
    reads ledger, cache
  {
    System(ledger.View(), cache.View(), map[])
  }

  /** A source that fails is not collected from; what expired is forgotten either way. */
  function Refreshing(source: Option<seq<DnsCache.DnsObservation>>, now: Timestamp): seq<Action> {
    (if source.Some? then [OnCache(DnsCache.Collecting(source.value, now))] else []) + [OnCache(DnsCache.Expiring(now))]
  }

  /** A flush as the system sees it: drained, then committed or failed. */
  function Flushing(work: Option<seq<Work>>): seq<Action> {
    [StartFlush(0), if work.Some? then CommitFlush(0, work.value) else FailFlush(0)]
  }

  /** `labelled` is the batch as the cache labels it, flow by flow. */
  ghost predicate LabelsBatch(bindings: DnsCache.Bindings, batch: seq<Flow>, labelled: seq<Flow>) {
    |labelled| == |batch| && forall i :: 0 <= i < |batch| ==> labelled[i] == DnsCache.LabelledFlow(bindings, batch[i])
  }

  /** Every identity seen in the last five minutes is still known. */
  ghost predicate KeepsRecent(before: DnsCache.Identities, after: DnsCache.Identities, now: Timestamp) {
    forall id :: id in before && before[id].lastSeen >= now - 300_000 ==> id in after && after[id] == before[id]
  }

  lemma RefreshedCache(c: DnsCache.Cache, source: Option<seq<DnsCache.DnsObservation>>, now: Timestamp)
    ensures var d := DnsCache.Purge(if source.Some? then DnsCache.Collect(c, source.value, now) else c, now);
            DnsBinding.NothingOver(d.bindings, now) && KeepsRecent(c.identities, d.identities, now)
  {
    var collected := if source.Some? then DnsCache.Collect(c, source.value, now) else c;
    if source.Some? {
      DnsBinding.IdentitiesStay(c, source.value, [], now);
    }
    DnsBinding.PurgedIsNotOver(collected.bindings, now);
  }

  method RefreshDnsAttribution(
      ghost owner: Owner, ledger: SqliteRepository, cache: Dns.DnsAttributionCache,
      source: Option<seq<DnsCache.DnsObservation>>, now: Timestamp)
    requires Sound(owner, Now(ledger, cache))
    modifies cache
    ensures Traces(owner, old(Now(ledger, cache)), Refreshing(source, now), Now(ledger, cache))
    ensures Sound(owner, Now(ledger, cache))
    ensures DnsBinding.NothingOver(cache.bindings, now)
    ensures KeepsRecent(old(cache.identities), cache.identities, now)
  {
    ghost var start := Now(ledger, cache);
    ghost var trace: seq<Action> := [];
    if source.Some? {
      var _ := cache.CollectFrom(source.value, now);
      TraceExtends(owner, start, trace, start, OnCache(DnsCache.Collecting(source.value, now)));
      trace := trace + [OnCache(DnsCache.Collecting(source.value, now))];
    }
    ghost var middle := Now(ledger, cache);
    var _ := cache.PurgeExpired(now);
    RefreshedCache(start.cache, source, now);
    TraceExtends(owner, start, trace, middle, OnCache(DnsCache.Expiring(now)));
    assert trace + [OnCache(DnsCache.Expiring(now))] == Refreshing(source, now);
    EverySystemIsSound(owner, start, Refreshing(source, now));
  }

  /** What a flush that drained `bindings` has achieved: everything is delivered and settled. */
  ghost predicate Flushed(ledger: State, bindings: seq<Binding>) {
    forall b :: b in bindings ==> Settled(ledger, b)
  }

  lemma CommittedIsSettled(owner: Owner, s: System, work: seq<Work>)
    requires Sound(owner, s) && Carries(work, s.cache.resolved) && FaithfulWork(s.ledger, work)
    ensures BackfillAll(s.ledger, work).Ok? && Flushed(BackfillAll(s.ledger, work).value.state, s.cache.resolved)
  {
    BackfillAllCoherent(owner, s.ledger, work);
    CarriedTargetsDiffer(work, s.cache.resolved);
    forall b | b in s.cache.resolved ensures Settled(BackfillAll(s.ledger, work).value.state, b) {
      var i :| 0 <= i < |s.cache.resolved| && s.cache.resolved[i] == b;
      DeliveredIsSettled(owner, s.ledger, work, i);
    }
  }

  /** An uninterrupted flush, as two actions of the system. */
  lemma FlushTraces(owner: Owner, s: System, work: Option<seq<Work>>)
    requires Sound(owner, s) && s.inFlight == map[]
    requires work.Some? ==> Carries(work.value, s.cache.resolved) && FaithfulWork(s.ledger, work.value)
    ensures work.None? ==> Traces(owner, s, Flushing(work), s)
    ensures work.Some? ==> BackfillAll(s.ledger, work.value).Ok?
    ensures work.Some? ==>
              Traces(owner, s, Flushing(work),
                     System(BackfillAll(s.ledger, work.value).value.state, DnsCache.Drained(s.cache), map[]))
  {
    var started := Perform(s, StartFlush(0));
    var last := Flushing(work)[1];
    assert [StartFlush(0)] == [] + [StartFlush(0)] && Flushing(work) == [StartFlush(0)] + [last];
    TraceExtends(owner, s, [], s, StartFlush(0));
    TraceExtends(owner, s, [StartFlush(0)], started, last);
    if work.Some? {
      BackfillAllCoherent(owner, s.ledger, work.value);
      assert started.inFlight - {0} == map[];
    } else {
      FailedFlushIsInvisible(owner, s, 0);
    }
  }

  /**
   * Drain, backfill, and requeue on failure. Coherent books never refuse, so only an unavailable database
   * fails a flush, and then both ledger and cache are as before.
   */
  method FlushDnsBackfills(ghost owner: Owner, ledger: SqliteRepository, cache: Dns.DnsAttributionCache,
      available: bool)
    returns (ghost work: Option<seq<Work>>)
    requires Sound(owner, Now(ledger, cache))
    modifies ledger, cache
    ensures Traces(owner, old(Now(ledger, cache)), Flushing(work), Now(ledger, cache))
    ensures Sound(owner, Now(ledger, cache))
    ensures work.Some? <==> available || old(cache.resolved) == []
    ensures work.Some? ==> cache.resolved == [] && Flushed(ledger.View(), old(cache.resolved))
    ensures work.None? ==> Now(ledger, cache) == old(Now(ledger, cache))
    ensures cache.bindings == old(cache.bindings) && cache.identities == old(cache.identities)
  {
    ghost var start := Now(ledger, cache);
    QueueIsDeliverable(cache.View());
    var bindings := cache.DrainResolvedBindings();
    if bindings == [] {
      work := Some([]);
      FlushTraces(owner, start, work);
      assert BackfillAll(start.ledger, []) == Ok(Tally(start.ledger, 0));
      return;
    }
    var ok := false;
    work := None;
    if available {
      var updated; ghost var done;
      ok, updated, done := ledger.BackfillDomainBindings(bindings);
      if ok {
        work := Some(done);
        CommittedIsSettled(owner, start, done);
      } else {
        NothingIsRefused(owner, start.ledger, bindings);
      }
    }
    if !ok {
      cache.RequeueResolvedBindings(bindings);
      FailedFlushIsInvisible(owner, start, 0);
    }
    FlushTraces(owner, start, work);
    EverySystemIsSound(owner, start, Flushing(work));
  }

  /** The labels of the cache change neither the id nor the MAC of a flow. */
  lemma LabelsKeepOwners(owner: Owner, bindings: DnsCache.Bindings, batch: seq<Flow>, labelled: seq<Flow>)
    requires LabelsBatch(bindings, batch, labelled) && OwnedBatch(owner, batch)
    ensures OwnedBatch(owner, labelled)
  {}

  lemma {:induction false} TracesConcat(owner: Owner, s: System, first: seq<Action>, t: System, second: seq<Action>,
      u: System)
    requires Traces(owner, s, first, t) && Traces(owner, t, second, u)
    ensures Traces(owner, s, first + second, u)
    decreases |first|
  {
    if first == [] {
      assert first + second == second;
    } else {
      assert (first + second)[1..] == first[1..] + second;
      TracesConcat(owner, Perform(s, first[0]), first[1..], t, second, u);
    }
  }

  /** A tick of the DNS loop. */
  method DnsTick(
      ghost owner: Owner, ledger: SqliteRepository, cache: Dns.DnsAttributionCache,
      source: Option<seq<DnsCache.DnsObservation>>, now: Timestamp, available: bool)
    returns (ghost work: Option<seq<Work>>)
    requires Sound(owner, Now(ledger, cache))
    modifies ledger, cache
    ensures Traces(owner, old(Now(ledger, cache)), Refreshing(source, now) + Flushing(work), Now(ledger, cache))
    ensures Sound(owner, Now(ledger, cache))
    ensures available ==> work.Some? && cache.resolved == []
    ensures DnsBinding.NothingOver(cache.bindings, now)
    ensures KeepsRecent(old(cache.identities), cache.identities, now)
  {
    ghost var start := Now(ledger, cache);
    RefreshDnsAttribution(owner, ledger, cache, source, now);
    ghost var middle := Now(ledger, cache);
    work := FlushDnsBackfills(owner, ledger, cache, available);
    TracesConcat(owner, start, Refreshing(source, now), middle, Flushing(work), Now(ledger, cache));
  }

  /** The bookkeeping of a tick up to the labelling of its batch. */
  function BeforeIngest(batch: seq<Flow>, source: Option<seq<DnsCache.DnsObservation>>, now: Timestamp,
      work: Option<seq<Work>>): seq<Action> {
    [OnCache(DnsCache.Learning(batch, now))] + (Refreshing(source, now) + Flushing(work))
  }

  predicate NotWeaker(kept: Option<Attribution>, told: Option<Attribution>) {
    told.Some? ==> kept.Some? && NotAbove(told.value, kept.value)
  }

  /** The stored row of each snapshot carries an attribution no weaker than the snapshot's. */
  ghost predicate Heeds(s: State, batch: seq<Flow>) {
    forall i :: 0 <= i < |batch| ==>
      batch[i].flowId in s.flows && NotWeaker(s.flows[batch[i].flowId].domain, batch[i].domain)
  }

  lemma {:induction false} UpsertAllHeeds(s: State, fs: seq<Flow>)
    requires UpsertAll(s, fs).Ok?
    ensures Heeds(UpsertAll(s, fs).value, fs)
    ensures var t := UpsertAll(s, fs).value;
            forall id :: id in s.flows ==> id in t.flows && NotWeaker(t.flows[id].domain, s.flows[id].domain)
    decreases |fs|
  {
    if fs != [] {
      UpsertFlowDomains(s, fs[0]);
      UpsertAllHeeds(UpsertFlow(s, fs[0]).value, fs[1..]);
    }
  }

  /** The row of each flow shows the counters, the time and the state of its last snapshot in the batch. */
  ghost predicate Records(s: State, batch: seq<Flow>) {
    forall i :: 0 <= i < |batch| && (forall j :: i < j < |batch| ==> batch[j].flowId != batch[i].flowId) ==>
      ShowsSnapshot(s, batch[i])
  }

  predicate ShowsSnapshot(s: State, f: Flow) {
    && f.flowId in s.flows
    && var row := s.flows[f.flowId]; row.counters == f.counters && row.lastSeen == f.lastSeen && row.state == f.state
  }

  lemma {:induction false} UpsertAllRecords(s: State, fs: seq<Flow>)
    requires UpsertAll(s, fs).Ok?
    ensures Records(UpsertAll(s, fs).value, fs)
    decreases |fs|
  {
    if fs != [] {
      var next, rest := UpsertFlow(s, fs[0]).value, fs[1..];
      UpsertStores(s, fs[0]);
      UpsertAllRecords(next, rest);
      forall i | 0 <= i < |fs| && (forall j :: i < j < |fs| ==> fs[j].flowId != fs[i].flowId)
        ensures ShowsSnapshot(UpsertAll(s, fs).value, fs[i])
      {
        forall j | 0 <= j < |rest| ensures rest[j] == fs[j + 1] {}
        if i == 0 {
          OthersStay(next, rest, fs[0].flowId);
        } else {
          assert rest[i - 1] == fs[i];
        }
      }
    }
  }

  /** Ingest a labelled batch, if the database is there: the books never refuse it. */
  method IngestFlows(
      ghost owner: Owner, ledger: SqliteRepository, cache: Dns.DnsAttributionCache, batch: seq<Flow>, available: bool)
    returns (error: Option<LedgerError>)
    requires Sound(owner, Now(ledger, cache)) && OwnedBatch(owner, batch)
    modifies ledger
    ensures var ingest := if available then [OnLedger(Upsert(batch))] else [];
            Traces(owner, old(Now(ledger, cache)), ingest, Now(ledger, cache))
    ensures Sound(owner, Now(ledger, cache))
    ensures error != Some(Unbalanced) && (available && error.None? ==> Heeds(ledger.View(), batch))
    ensures available && error.None? ==> Records(ledger.View(), batch)
  {
    error := None;
    ghost var start := Now(ledger, cache);
    if available {
      UpsertAllCoherent(owner, start.ledger, batch);
      error := ledger.UpsertFlows(batch);
      TraceExtends(owner, start, [], start, OnLedger(Upsert(batch)));
      assert [] + [OnLedger(Upsert(batch))] == [OnLedger(Upsert(batch))];
      StepCoherent(owner, start.ledger, Upsert(batch));
      if error.None? {
        UpsertAllHeeds(start.ledger, batch);
        UpsertAllRecords(start.ledger, batch);
      }
    }
  }

  /**
   * A tick of the collection loop: learn, refresh, flush, label, ingest. The books never refuse the batch; if the
   * database is there, it is stored with its labels, or else it broke a rule of its own and nothing is stored.
   */
  method CollectionTick(
      ghost owner: Owner, ledger: SqliteRepository, cache: Dns.DnsAttributionCache, flows: array<Flow>,
      source: Option<seq<DnsCache.DnsObservation>>, now: Timestamp, flushable: bool, writable: bool)
    returns (error: Option<LedgerError>, ghost work: Option<seq<Work>>)
    requires Sound(owner, Now(ledger, cache)) && OwnedBatch(owner, flows[..])
    modifies ledger, cache, flows
    ensures LabelsBatch(cache.bindings, old(flows[..]), flows[..])
    ensures var ingest := if writable then [OnLedger(Upsert(flows[..]))] else [];
            Traces(owner, old(Now(ledger, cache)), BeforeIngest(old(flows[..]), source, now, work) + ingest,
                Now(ledger, cache))
    ensures Sound(owner, Now(ledger, cache))
    ensures flushable ==> work.Some? && cache.resolved == []
    ensures error != Some(Unbalanced)
    ensures writable && error.None? ==> Heeds(ledger.View(), flows[..]) && Records(ledger.View(), flows[..])
    ensures DnsBinding.NothingOver(cache.bindings, now) && DnsBinding.KnowsFlows(cache.identities, old(flows[..]), now)
  {
    ghost var start := Now(ledger, cache);
    ghost var batch := flows[..];
    DnsBinding.IdentitiesStay(cache.View(), [], batch, now);
    DnsBinding.LearnedFlowsAreKnown(DnsCache.LiveIdentities(cache.identities, now), batch, now);
    var _ := cache.LearnFlowIdentities(flows[..], now);
    ghost var learned := Now(ledger, cache);
    TraceExtends(owner, start, [], start, OnCache(DnsCache.Learning(batch, now)));
    assert [] + [OnCache(DnsCache.Learning(batch, now))] == [OnCache(DnsCache.Learning(batch, now))];
    work := DnsTick(owner, ledger, cache, source, now, flushable);
    ghost var flushed := Now(ledger, cache);
    TracesConcat(owner, start, [OnCache(DnsCache.Learning(batch, now))], learned,
                 Refreshing(source, now) + Flushing(work), flushed);
    var _ := cache.AttributeFlows(flows);
    LabelsKeepOwners(owner, cache.bindings, batch, flows[..]);
    error := IngestFlows(owner, ledger, cache, flows[..], writable);
    ghost var ingest := if writable then [OnLedger(Upsert(flows[..]))] else [];
    TracesConcat(owner, start, BeforeIngest(batch, source, now, work), flushed, ingest, Now(ledger, cache));
  }
}
