/**
 * A deleted domain stays deleted: a privacy deletion purges the ledger and then the cache (src/web.rs:674-740),
 * and what neither holds afterwards does not come back by itself.
 */
module Privacy {
  import opened Domain
  import opened Sequences
  import opened Attributions
  import opened Ledger
  import opened LedgerInvariant
  import opened LedgerRuns
  import opened AttributionHistory
  import opened BatchLaws
  import opened Delivery
  import opened DnsCache
  import opened DnsInvariant
  import opened DnsHistory
  import opened DnsAmbiguity

  // ----- where a domain can be named -----

  ghost predicate SilentFlows(flows: map<FlowId, Flow>, scope: Option<Mac>, d: DomainName) {
    forall id :: id in flows && InScope(scope, flows[id].Mac()) ==> !IsAbout(flows[id].domain, d)
  }

  ghost predicate SilentMinutes(table: DomainTable, scope: Option<Mac>, d: DomainName) {
    forall key :: key in table && InScope(scope, key.mac) ==> key.domain != d
  }

  ghost predicate SilentLedger(s: State, scope: Option<Mac>, d: DomainName) {
    SilentFlows(s.flows, scope, d) && SilentMinutes(s.domainMinutes, scope, d)
  }

  ghost predicate SilentBindings(bindings: Bindings, scope: Option<Mac>, d: DomainName) {
    forall k, e :: k in bindings && e in bindings[k] && InScope(scope, k.mac) ==> e.domain != d
  }

  ghost predicate SilentPending(pending: seq<Observation>, d: DomainName) {
    forall o :: o in pending ==> o.domain != d
  }

  ghost predicate SilentBatch(bs: seq<Binding>, scope: Option<Mac>, d: DomainName) {
    forall b :: b in bs && InScope(scope, b.clientMac) ==> b.attribution.domain != d
  }

  ghost predicate SilentInFlight(s: System, scope: Option<Mac>, d: DomainName) {
    forall t :: t in s.inFlight ==> SilentBatch(s.inFlight[t], scope, d)
  }

  /** Nothing of the system names the domain for a device in the scope, nor waits to. */
  ghost predicate Silent(s: System, scope: Option<Mac>, d: DomainName) {
    && SilentLedger(s.ledger, scope, d) && SilentBindings(s.cache.bindings, scope, d)
    && SilentPending(s.cache.pending, d) && SilentInFlight(s, scope, d)
  }

  /** In a sound system the contributions and the queue of announcements are silent as well. */
  lemma SilenceIsComplete(owner: Owner, s: System, scope: Option<Mac>, d: DomainName)
    requires Sound(owner, s) && Silent(s, scope, d)
    ensures forall k :: k in s.ledger.slices && InScope(scope, s.ledger.slices[k].mac) ==>
              !IsAbout(s.ledger.slices[k].attribution, d)
    ensures SilentBatch(s.cache.resolved, scope, d)
  {
    forall b | b in s.cache.resolved && InScope(scope, b.clientMac) ensures b.attribution.domain != d {
      assert Current(s.cache.bindings, b);
      var entries := s.cache.bindings[Key(b.clientMac, b.targetIp.bits)];
      assert entries[0] in entries;
    }
  }

  /** No answer and no label of the action names the domain for the scope. */
  ghost predicate Discreet(a: Action, scope: Option<Mac>, d: DomainName) {
    match a
    case OnCache(step) => forall i :: 0 <= i < |Ingests(step)| ==> Ingests(step)[i].domain != Some(d)
    case OnLedger(step) =>
      step.Upsert? ==> forall f :: f in step.flows && InScope(scope, f.Mac()) ==> !IsAbout(f.domain, d)
    case _ => true
  }

  // ----- the ledger -----

  lemma ReattributeSilent(owner: Owner, s: State, id: FlowId, a: Attribution, scope: Option<Mac>, d: DomainName)
    requires Coherent(owner, s) && id in s.flows && SilentLedger(s, scope, d)
    requires InScope(scope, owner(id)) ==> a.domain != d
    ensures Reattribute(s, id, owner(id), a).Ok?
    ensures SilentLedger(Reattribute(s, id, owner(id), a).value, scope, d)
  {
    ReattributeNeverAborts(s, id, owner(id), a);
  }

  lemma KeptDomainSilent(s: State, f: Flow, scope: Option<Mac>, d: DomainName)
    requires SilentFlows(s.flows, scope, d) && (f.flowId in s.flows ==> s.flows[f.flowId].Mac() == f.Mac())
    requires InScope(scope, f.Mac()) ==> !IsAbout(f.domain, d)
    ensures InScope(scope, f.Mac()) ==> !IsAbout(KeptDomain(s, f), d)
  {}

  lemma ChargeSilent(s: State, f: Flow, domain: Option<Attribution>, delta: Bytes, scope: Option<Mac>, d: DomainName)
    requires SilentLedger(s, scope, d) && (InScope(scope, f.Mac()) ==> !IsAbout(domain, d))
    ensures SilentLedger(ChargeIncrease(s, f, domain, delta), scope, d)
  {}

  lemma RelabelSilent(owner: Owner, s: State, f: Flow, scope: Option<Mac>, d: DomainName)
    requires Coherent(owner, s) && f.Mac() == owner(f.flowId) && SilentLedger(s, scope, d)
    requires InScope(scope, f.Mac()) ==> !IsAbout(KeptDomain(s, f), d)
    ensures Relabel(s, f).Ok? && SilentLedger(Relabel(s, f).value, scope, d)
    ensures Coherent(owner, Relabel(s, f).value)
  {
    var domain := KeptDomain(s, f);
    var touched := s.(devices := Touched(s.devices, f.Mac(), f.endpoints.clientIp));
    RelabelCoherent(owner, s, f);
    if f.flowId in s.flows && domain.Some? && domain != s.flows[f.flowId].domain {
      assert Coherent(owner, touched);
      ReattributeSilent(owner, touched, f.flowId, domain.value, scope, d);
    }
  }

  lemma UpsertFlowSilent(owner: Owner, s: State, f: Flow, scope: Option<Mac>, d: DomainName)
    requires Coherent(owner, s) && f.Mac() == owner(f.flowId) && UpsertFlow(s, f).Ok? && SilentLedger(s, scope, d)
    requires InScope(scope, f.Mac()) ==> !IsAbout(f.domain, d)
    ensures SilentLedger(UpsertFlow(s, f).value, scope, d)
  {
    var domain := KeptDomain(s, f);
    KeptDomainSilent(s, f, scope, d);
    RelabelSilent(owner, s, f, scope, d);
    var relabelled := Relabel(s, f).value;
    RelabelIsChargeable(owner, s, f);
    var stored := StoreRow(relabelled, f, domain);
    StoreRowOwned(owner, relabelled, f, domain, BytesOf(Increase(s, f).value));
    assert SilentLedger(stored, scope, d);
    ChargeSilent(stored, f, domain, BytesOf(Increase(s, f).value), scope, d);
  }

  lemma {:induction false} UpsertAllSilent(owner: Owner, s: State, fs: seq<Flow>, scope: Option<Mac>, d: DomainName)
    requires Coherent(owner, s) && OwnedBatch(owner, fs) && UpsertAll(s, fs).Ok? && SilentLedger(s, scope, d)
    requires forall f :: f in fs && InScope(scope, f.Mac()) ==> !IsAbout(f.domain, d)
    ensures SilentLedger(UpsertAll(s, fs).value, scope, d)
    decreases |fs|
  {
    if fs != [] {
      assert fs[0] in fs;
      UpsertFlowSilent(owner, s, fs[0], scope, d);
      UpsertFlowCoherent(owner, s, fs[0]);
      UpsertAllSilent(owner, UpsertFlow(s, fs[0]).value, fs[1..], scope, d);
    }
  }

  ghost predicate SilentBinding(b: Binding, scope: Option<Mac>, d: DomainName) {
    InScope(scope, b.clientMac) ==> b.attribution.domain != d
  }

  lemma {:induction false} BackfillRowsSilent(
      owner: Owner, s: State, b: Binding, rows: seq<FlowId>, scope: Option<Mac>, d: DomainName)
    requires Coherent(owner, s) && SilentLedger(s, scope, d) && SilentBinding(b, scope, d)
    requires forall id :: id in rows ==> id in Matching(s, b)
    ensures BackfillRows(s, b, rows).Ok? && SilentLedger(BackfillRows(s, b, rows).value.state, scope, d)
    decreases |rows|
  {
    if rows != [] {
      var id := rows[0];
      assert id in rows && id in Matching(s, b);
      BackfillFlowCoherent(owner, s, b, id);
      if Improves(s, b, id) {
        ReattributeSilent(owner, s, id, Effective(s.flows[id].domain, Some(b.attribution)).value, scope, d);
      }
      var next := BackfillFlow(s, b, id).value.state;
      SameRowsMatch(s, next, b);
      forall j | j in rows[1..] ensures j in Matching(next, b) {
        assert j in rows;
      }
      BackfillRowsSilent(owner, next, b, rows[1..], scope, d);
    }
  }

  lemma {:induction false} BackfillAllSilent(owner: Owner, s: State, work: seq<Work>, scope: Option<Mac>, d: DomainName)
    requires Coherent(owner, s) && FaithfulWork(s, work) && SilentLedger(s, scope, d)
    requires forall i :: 0 <= i < |work| ==> SilentBinding(work[i].binding, scope, d)
    ensures BackfillAll(s, work).Ok? && SilentLedger(BackfillAll(s, work).value.state, scope, d)
    decreases |work|
  {
    if work != [] {
      var w := work[0];
      assert Enumerates(w.rows, Matching(s, w.binding));
      BackfillRowsSilent(owner, s, w.binding, w.rows, scope, d);
      BackfillRowsCoherent(owner, s, w.binding, w.rows);
      var next := BackfillRows(s, w.binding, w.rows).value.state;
      assert FaithfulWork(s, work[1..]);
      SameRowsFaithful(s, next, work[1..]);
      BackfillAllSilent(owner, next, work[1..], scope, d);
    }
  }

  lemma StepSilent(owner: Owner, s: State, step: Step, scope: Option<Mac>, d: DomainName)
    requires Coherent(owner, s) && Legal(owner, s, step) && !step.Backfill? && SilentLedger(s, scope, d)
    requires Discreet(OnLedger(step), scope, d)
    ensures SilentLedger(Apply(s, step), scope, d)
  {
    match step {
      case Upsert(flows) =>
        if UpsertFlows(s, flows).Ok? {
          UpsertAllSilent(owner, s, flows, scope, d);
        }
      case DropDevice(_) =>
      case DropDomain(_, _) =>
      case DropRange(_) =>
      case Expiry(_, _, _) =>
    }
  }

  // ----- the cache -----

  /** A stored entry, as if an observation of it had just been bound. */
  function AsEvent(k: Key, e: Entry): Event {
    Event(k.mac, Observation(0, e.domain, [k.target], e.associatedAt, e.expiresAt, e.expiresAt), map[], 0)
  }

  function AsLog(bindings: Bindings): set<Event> {
    set k, i | k in bindings && 0 <= i < |bindings[k]| :: AsEvent(k, bindings[k][i])
  }

  lemma LogGrounds(bindings: Bindings)
    ensures Grounded(AsLog(bindings), bindings)
  {
    forall k, e | k in bindings && e in bindings[k] ensures exists ev :: ev in AsLog(bindings) && Grounds(ev, k, e) {
      var i :| 0 <= i < |bindings[k]| && bindings[k][i] == e;
      assert AsEvent(k, e) in AsLog(bindings) && Grounds(AsEvent(k, e), k, e);
    }
  }

  lemma {:induction false} PreparedIsSilent(os: seq<DnsObservation>, d: DomainName)
    requires forall i :: 0 <= i < |os| ==> os[i].domain != Some(d)
    ensures SilentPending(PrepareAll(os), d)
    decreases |os|
  {
    if os != [] {
      PreparedIsSilent(os[1..], d);
    }
  }

  lemma ResolvingSilent(c: Cache, step: CacheStep, scope: Option<Mac>, d: DomainName)
    requires SilentPending(c.pending, d) && Discreet(OnCache(step), scope, d) && Resolving(c, step).Some?
    ensures SilentPending(Resolving(c, step).value.pending, d)
  {
    var now := Resolving(c, step).value.now;
    forall o | o in Resolving(c, step).value.pending ensures o.domain != d {
      LivePendingMember(c.pending, now, o);
      if step.Collecting? {
        assert Ingests(step) == step.observations;
        PreparedIsSilent(step.observations, d);
        EnqueuedAre(Purge(c, now).pending, PrepareAll(step.observations), o);
      }
    }
  }

  lemma EventsSilent(c: Cache, step: CacheStep, scope: Option<Mac>, d: DomainName)
    requires SilentPending(c.pending, d) && Discreet(OnCache(step), scope, d)
    ensures forall ev :: ev in Events(c, step) ==> ev.observation.domain != d
  {
    if Resolving(c, step).Some? {
      var r := Resolving(c, step).value;
      ResolvingSilent(c, step, scope, d);
      ResolutionPartitions(r.pending, r.identities, r.now);
    }
  }

  lemma NextSilent(c: Cache, step: CacheStep, scope: Option<Mac>, d: DomainName)
    requires Valid(c) && SilentBindings(c.bindings, scope, d) && SilentPending(c.pending, d)
    requires Discreet(OnCache(step), scope, d)
    ensures SilentBindings(Next(c, step).bindings, scope, d) && SilentPending(Next(c, step).pending, d)
  {
    var log, next := AsLog(c.bindings), Next(c, step);
    LogGrounds(c.bindings);
    NextGrounded(log, c, step);
    EventsSilent(c, step, scope, d);
    forall k, e | k in next.bindings && e in next.bindings[k] && InScope(scope, k.mac) ensures e.domain != d {
      var ev :| ev in log + Events(c, step) && Grounds(ev, k, e);
      if ev in log {
        var j, i :| j in c.bindings && 0 <= i < |c.bindings[j]| && ev == AsEvent(j, c.bindings[j][i]);
        assert c.bindings[j][i] in c.bindings[j];
      }
    }
    forall o | o in next.pending ensures o.domain != d {
      NextPending(c, step, o);
      if Resolving(c, step).Some? {
        ResolvingSilent(c, step, scope, d);
      }
    }
  }

  // ----- the system -----

  lemma PerformSilent(owner: Owner, s: System, a: Action, scope: Option<Mac>, d: DomainName)
    requires Sound(owner, s) && Enabled(owner, s, a) && Silent(s, scope, d) && Discreet(a, scope, d)
    ensures Silent(Perform(s, a), scope, d)
  {
    match a {
      case OnCache(step) => NextSilent(s.cache, step, scope, d);
      case OnLedger(step) => StepSilent(owner, s.ledger, step, scope, d);
      case StartFlush(t) => SilenceIsComplete(owner, s, scope, d);
      case CommitFlush(t, work) =>
        forall i | 0 <= i < |work| ensures SilentBinding(work[i].binding, scope, d) {
          assert SilentBatch(s.inFlight[t], scope, d) && work[i].binding in s.inFlight[t];
        }
        BackfillAllSilent(owner, s.ledger, work, scope, d);
      case FailFlush(t) => RequeueKeepsBindings(s.cache, s.inFlight[t]);
    }
  }

  /**
   * Once silent, the system stays so through any interleaving that brings no fresh answer and no label of the
   * domain.
   */
  lemma {:induction false} SilenceLasts(
      owner: Owner, s: System, actions: seq<Action>, scope: Option<Mac>, d: DomainName)
    requires Sound(owner, s) && EnabledRun(owner, s, actions) && Silent(s, scope, d)
    requires forall a :: a in actions ==> Discreet(a, scope, d)
    ensures Silent(RunSystem(s, actions), scope, d)
    decreases |actions|
  {
    if actions != [] {
      assert actions[0] in actions;
      PerformSound(owner, s, actions[0]);
      PerformSilent(owner, s, actions[0], scope, d);
      SilenceLasts(owner, Perform(s, actions[0]), actions[1..], scope, d);
    }
  }

  /** The two deletions of a privacy request, one after the other. */
  function Forgetting(scope: Option<Mac>, d: DomainName): seq<Action> {
    [OnLedger(DropDomain(scope, d)), OnCache(ForgettingDomain(scope, Some(d)))]
  }

  /** The purge keeps a waiting observation of the domain that could have come from another device as well. */
  ghost predicate Purges(c: Cache, scope: Option<Mac>, d: DomainName) {
    forall o :: o in c.pending && o.domain == d ==> scope.None? || IsOnlyFrom(c.identities, o, scope.value)
  }

  lemma PurgedIsSilent(c: Cache, scope: Option<Mac>, d: DomainName)
    requires scope != Some(EMPTY)
    ensures var e := PurgeDomain(c, scope, Some(d));
            SilentBindings(e.bindings, scope, d) && (SilentPending(e.pending, d) <==> Purges(c, scope, d))
  {
    var e := PurgeDomain(c, scope, Some(d));
    var keep := (k: Key, x: Entry) => !(InScope(scope, k.mac) && x.domain == d);
    forall k, x | k in e.bindings && x in e.bindings[k] && InScope(scope, k.mac) ensures x.domain != d {
      FilterMember((y: Entry) => keep(k, y), c.bindings[k], x);
    }
    var waits := (o: Observation) => o.domain != d || (scope.Some? && !IsOnlyFrom(c.identities, o, scope.value));
    forall o ensures o in e.pending <==> o in c.pending && waits(o) {
      FilterMember(waits, c.pending, o);
    }
  }

  /** Whatever happened since the ledger was purged, purging the cache completes the silence under these conditions. */
  lemma PurgeSilences(s: System, scope: Option<Mac>, d: DomainName)
    requires scope != Some(EMPTY)
    ensures Silent(Perform(s, OnCache(ForgettingDomain(scope, Some(d)))), scope, d)
       <==> SilentLedger(s.ledger, scope, d) && SilentInFlight(s, scope, d) && Purges(s.cache, scope, d)
  {
    PurgedIsSilent(s.cache, scope, d);
  }

  lemma TwoActions(s: System, a: Action, b: Action)
    ensures RunSystem(s, [a, b]) == Perform(Perform(s, a), b)
  {
    assert [a, b][1..] == [b] && [b][1..] == [];
    assert RunSystem(Perform(Perform(s, a), b), []) == Perform(Perform(s, a), b);
    assert RunSystem(Perform(s, a), [b]) == Perform(Perform(s, a), b);
  }

  lemma ForgettingRuns(s: System, scope: Option<Mac>, d: DomainName)
    ensures RunSystem(s, Forgetting(scope, d))
         == System(DeleteDomain(s.ledger, scope, d), PurgeDomain(s.cache, scope, Some(d)), s.inFlight)
  {
    TwoActions(s, OnLedger(DropDomain(scope, d)), OnCache(ForgettingDomain(scope, Some(d))));
  }

  /**
   * A domain deletion silences the domain exactly when no batch in flight names it for the scope and the purge reaches
   * every waiting observation of it: all of them for every device, or for one device those whose only candidate it
   * is, which leaves out observations without any candidate as well as ambiguous ones. Then, by the above, only fresh
   * answers and labels can name it again.
   */
  lemma DeletionSilences(s: System, scope: Option<Mac>, d: DomainName)
    requires scope != Some(EMPTY)
    ensures Silent(RunSystem(s, Forgetting(scope, d)), scope, d)
       <==> SilentInFlight(s, scope, d) && Purges(s.cache, scope, d)
  {
    ForgettingRuns(s, scope, d);
    PurgedIsSilent(s.cache, scope, d);
    assert SilentLedger(DeleteDomain(s.ledger, scope, d), scope, d);
  }

  /** A batch in flight that names the domain brings it back to every unattributed flow it matches. */
  lemma InFlightReturns(owner: Owner, s: System, t: Thread, work: seq<Work>, i: nat, id: FlowId)
    requires Sound(owner, s) && Enabled(owner, s, CommitFlush(t, work)) && i < |work|
    requires id in Matching(s.ledger, work[i].binding) && s.ledger.flows[id].domain == None
    ensures id in Perform(s, CommitFlush(t, work)).ledger.flows
    ensures Perform(s, CommitFlush(t, work)).ledger.flows[id].domain == Some(work[i].binding.attribution)
  {
    assert Deliverable(s.inFlight[t]);
    CarriedTargetsDiffer(work, s.inFlight[t]);
    BackfillAllCoherent(owner, s.ledger, work);
    BackfillAllDomains(s.ledger, work, id);
    ToldBy(s.ledger.flows[id], work, i);
  }

  /** A privacy request for one device while its answer still waits, ambiguous between two devices. */
  function ForgettingTooEarly(): seq<CacheStep> {
    [GraceRun()[0], GraceRun()[1], ForgettingDomain(Some(2), Some(1)), GraceRun()[2]]
  }

  /** An ambiguous observation that a deletion for one device keeps can be bound to that very device afterwards. */
  lemma AmbiguousReturns()
    ensures RunCache(EMPTY_CACHE, ForgettingTooEarly()).bindings == map[Key(2, 9) := [Entry(1, 10_000, 900_000)]]
  {
    var steps := ForgettingTooEarly();
    var c1 := Next(EMPTY_CACHE, steps[0]);
    var c2 := Next(c1, steps[1]);
    BothLearned();
    AnswerWaits(c1);
    AmbiguousIsKept(c2);
    AnswerIsBound(c2);
    FourSteps(EMPTY_CACHE, steps[0], steps[1], steps[2], steps[3], c1, c2, c2);
  }

  lemma FourSteps(
      c: Cache, a: CacheStep, b: CacheStep, d: CacheStep, e: CacheStep, c1: Cache, c2: Cache, c3: Cache)
    requires c1 == Next(c, a) && c2 == Next(c1, b) && c3 == Next(c2, d)
    ensures RunCache(c, [a, b, d, e]) == Next(c3, e)
  {
    assert [a, b, d, e][1..] == [b, d, e] && [b, d, e][1..] == [d, e] && [d, e][1..] == [e] && [e][1..] == [];
    assert RunCache(Next(c3, e), []) == Next(c3, e);
    assert RunCache(c3, [e]) == Next(c3, e);
    assert RunCache(c2, [d, e]) == Next(c3, e);
    assert RunCache(c1, [b, d, e]) == Next(c3, e);
  }

  lemma AmbiguousIsKept(c: Cache)
    requires c == Cache(map[], map[1 := EARLIER, 2 := OTHER], [GRACE_OBSERVATION], [])
    ensures PurgeDomain(c, Some(2), Some(1)) == c
  {
    GraceAloneIsForgotten();
    var scope, d := Some(2), 1;
    FilterAll((o: Observation) => o.domain != d || (scope.Some? && !IsOnlyFrom(c.identities, o, scope.value)),
        c.pending);
  }
}
