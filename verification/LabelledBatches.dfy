/**
 * Batches of snapshots that the collection loop has labelled and not yet ingested (src/main.rs:343-356): the third
 * place, besides the cache and the drained bindings, where a deleted domain can survive in memory.
 */
module LabelledBatches {
  import opened Domain
  import opened Sequences
  import opened Ledger
  import opened LedgerInvariant
  import opened LedgerRuns
  import opened AttributionHistory
  import opened BatchLaws
  import opened DnsCache
  import opened Delivery
  import opened Privacy

  /** The system with the labelled batches of its threads. */
  datatype Daemon = Daemon(system: System, batches: map<Thread, seq<Flow>>)

  datatype Deed =
    | OnSystem(action: Action)
    | Label(thread: Thread, flows: seq<Flow>)
    | Ingest(thread: Thread)

  function LabelAll(bindings: Bindings, fs: seq<Flow>): seq<Flow> {
    seq(|fs|, i requires 0 <= i < |fs| => LabelledFlow(bindings, fs[i]))
  }

  ghost predicate Allowed(owner: Owner, s: Daemon, m: Deed) {
    match m
    case OnSystem(a) => Enabled(owner, s.system, a)
    case Label(t, fs) => t !in s.batches && OwnedBatch(owner, fs)
    case Ingest(t) => t in s.batches
  }

  ghost function After(s: Daemon, m: Deed): Daemon {
    match m
    case OnSystem(a) => s.(system := Perform(s.system, a))
    case Label(t, fs) => s.(batches := s.batches[t := LabelAll(s.system.cache.bindings, fs)])
    case Ingest(t) =>
      if t in s.batches then Daemon(Perform(s.system, OnLedger(Upsert(s.batches[t]))), s.batches - {t}) else s
  }

  ghost function RunDaemon(s: Daemon, deeds: seq<Deed>): Daemon
    decreases |deeds|
  {
    if deeds == [] then s else RunDaemon(After(s, deeds[0]), deeds[1..])
  }

  ghost predicate Possible(owner: Owner, s: Daemon, deeds: seq<Deed>)
    decreases |deeds|
  {
    deeds == [] || (Allowed(owner, s, deeds[0]) && Possible(owner, After(s, deeds[0]), deeds[1..]))
  }

  ghost predicate SoundDaemon(owner: Owner, s: Daemon) {
    Sound(owner, s.system) && forall t :: t in s.batches ==> OwnedBatch(owner, s.batches[t])
  }

  lemma AfterSound(owner: Owner, s: Daemon, m: Deed)
    requires SoundDaemon(owner, s) && Allowed(owner, s, m)
    ensures SoundDaemon(owner, After(s, m))
  {
    match m
    case OnSystem(a) => PerformSound(owner, s.system, a);
    case Label(t, fs) =>
      forall i | 0 <= i < |fs| ensures LabelledFlow(s.system.cache.bindings, fs[i]).Mac() == owner(fs[i].flowId) {
        assert fs[i].Mac() == owner(fs[i].flowId);
      }
    case Ingest(t) => PerformSound(owner, s.system, OnLedger(Upsert(s.batches[t])));
  }

  // ----- silence -----

  ghost predicate SilentLabels(fs: seq<Flow>, scope: Option<Mac>, d: DomainName) {
    forall f :: f in fs && InScope(scope, f.Mac()) ==> !IsAbout(f.domain, d)
  }

  ghost predicate SilentBatches(s: Daemon, scope: Option<Mac>, d: DomainName) {
    forall t :: t in s.batches ==> SilentLabels(s.batches[t], scope, d)
  }

  ghost predicate SilentDaemon(s: Daemon, scope: Option<Mac>, d: DomainName) {
    Silent(s.system, scope, d) && SilentBatches(s, scope, d)
  }

  /** No answer, and no label a snapshot comes with before the cache labels it, names the domain for the scope. */
  ghost predicate DiscreetDeed(m: Deed, scope: Option<Mac>, d: DomainName) {
    match m
    case OnSystem(a) => Discreet(a, scope, d)
    case Label(_, fs) => SilentLabels(fs, scope, d)
    case Ingest(_) => true
  }

  lemma LabelIsSilent(bindings: Bindings, f: Flow, scope: Option<Mac>, d: DomainName)
    requires SilentBindings(bindings, scope, d) && (InScope(scope, f.Mac()) ==> !IsAbout(f.domain, d))
    ensures InScope(scope, f.Mac()) ==> !IsAbout(LabelledFlow(bindings, f).domain, d)
  {
    if Labelled(bindings, f).Some? {
      var key := Key(f.Mac(), f.endpoints.destinationIp.bits);
      var entries := EntriesAt(bindings, key);
      var inForce := InForceEntries(entries, f);
      assert inForce[0] in inForce;
      FilterMember((e: Entry) => InForce(e, f), entries, inForce[0]);
    }
  }

  lemma LabelsAreSilent(bindings: Bindings, fs: seq<Flow>, scope: Option<Mac>, d: DomainName)
    requires SilentBindings(bindings, scope, d) && SilentLabels(fs, scope, d)
    ensures SilentLabels(LabelAll(bindings, fs), scope, d)
  {
    var all := LabelAll(bindings, fs);
    forall f | f in all && InScope(scope, f.Mac()) ensures !IsAbout(f.domain, d) {
      var i :| 0 <= i < |all| && all[i] == f;
      assert fs[i] in fs && fs[i].Mac() == f.Mac();
      LabelIsSilent(bindings, fs[i], scope, d);
    }
  }

  lemma AfterSilent(owner: Owner, s: Daemon, m: Deed, scope: Option<Mac>, d: DomainName)
    requires SoundDaemon(owner, s) && Allowed(owner, s, m) && SilentDaemon(s, scope, d) && DiscreetDeed(m, scope, d)
    ensures SilentDaemon(After(s, m), scope, d)
  {
    match m
    case OnSystem(a) => PerformSilent(owner, s.system, a, scope, d);
    case Label(t, fs) => LabelsAreSilent(s.system.cache.bindings, fs, scope, d);
    case Ingest(t) => PerformSilent(owner, s.system, OnLedger(Upsert(s.batches[t])), scope, d);
  }

  /** Once silent, labelled batches included, the daemon stays so without a fresh answer or a foreign label. */
  lemma {:induction false} DaemonStaysSilent(
      owner: Owner, s: Daemon, deeds: seq<Deed>, scope: Option<Mac>, d: DomainName)
    requires SoundDaemon(owner, s) && Possible(owner, s, deeds) && SilentDaemon(s, scope, d)
    requires forall m :: m in deeds ==> DiscreetDeed(m, scope, d)
    ensures SilentDaemon(RunDaemon(s, deeds), scope, d)
    decreases |deeds|
  {
    if deeds != [] {
      assert deeds[0] in deeds;
      AfterSound(owner, s, deeds[0]);
      AfterSilent(owner, s, deeds[0], scope, d);
      DaemonStaysSilent(owner, After(s, deeds[0]), deeds[1..], scope, d);
    }
  }

  function ForgettingDeeds(scope: Option<Mac>, d: DomainName): seq<Deed> {
    [OnSystem(Forgetting(scope, d)[0]), OnSystem(Forgetting(scope, d)[1])]
  }

  /**
   * A domain deletion silences the daemon exactly when no batch in flight and no labelled batch names the domain for
   * the scope and the purge reaches every waiting observation of it.
   */
  lemma DeletionSilencesDaemon(s: Daemon, scope: Option<Mac>, d: DomainName)
    requires scope != Some(EMPTY)
    ensures SilentDaemon(RunDaemon(s, ForgettingDeeds(scope, d)), scope, d)
       <==> SilentInFlight(s.system, scope, d) && Purges(s.system.cache, scope, d) && SilentBatches(s, scope, d)
  {
    var first, last := Forgetting(scope, d)[0], Forgetting(scope, d)[1];
    var deeds := ForgettingDeeds(scope, d);
    var t := After(After(s, OnSystem(first)), OnSystem(last));
    assert deeds[1..] == [OnSystem(last)] && [OnSystem(last)][1..] == [];
    assert RunDaemon(t, []) == t;
    assert RunDaemon(After(s, OnSystem(first)), [OnSystem(last)]) == t;
    assert RunDaemon(s, deeds) == t;
    TwoActions(s.system, first, last);
    assert t == Daemon(RunSystem(s.system, Forgetting(scope, d)), s.batches);
    DeletionSilences(s.system, scope, d);
  }

  lemma {:induction false} FreshLabelIsStored(s: State, fs: seq<Flow>, i: nat)
    requires UpsertAll(s, fs).Ok? && DistinctIds(fs) && i < |fs| && fs[i].domain.Some?
    requires StoredDomain(s, fs[i].flowId) == None
    ensures StoredDomain(UpsertAll(s, fs).value, fs[i].flowId) == fs[i].domain
    decreases |fs|
  {
    var next, rest := UpsertFlow(s, fs[0]).value, fs[1..];
    UpsertFlowDomains(s, fs[0]);
    if i == 0 {
      forall j | 0 <= j < |rest| ensures rest[j].flowId != fs[0].flowId {
        assert rest[j] == fs[j + 1];
      }
      OthersStay(next, rest, fs[0].flowId);
    } else {
      assert rest[i - 1] == fs[i] && fs[0].flowId != fs[i].flowId;
      FreshLabelIsStored(next, rest, i - 1);
    }
  }

  /** A labelled batch that names the domain brings it back to every flow that is new or not attributed. */
  lemma LabelledBatchReturns(s: Daemon, t: Thread, i: nat)
    requires t in s.batches && i < |s.batches[t]| && s.batches[t][i].domain.Some?
    requires DistinctIds(s.batches[t]) && UpsertFlows(s.system.ledger, s.batches[t]).Ok?
    requires StoredDomain(s.system.ledger, s.batches[t][i].flowId) == None
    ensures var f := s.batches[t][i]; StoredDomain(After(s, Ingest(t)).system.ledger, f.flowId) == f.domain
  {
    FreshLabelIsStored(s.system.ledger, s.batches[t], i);
  }
}
