/**
 * Any number of threads flushing at once: drains, commits and failures overlap, batches are drained again while
 * others are in flight. Flow by flow, what is spared ends as it would without failures.
 */
module ManyFlushers {
  import opened Domain
  import opened Attributions
  import opened Ledger
  import opened LedgerInvariant
  import opened LedgerRuns
  import opened Timing
  import opened BatchLaws
  import opened Books
  import opened DnsCache
  import opened DnsInvariant
  import opened DnsHistory
  import opened Delivery

  /** The run writes to the ledger by flushing only. */
  ghost predicate OnlyFlushes(actions: seq<Action>) { forall a :: a in actions ==> !a.OnLedger? }

  /** Everything the run commits, in order. */
  function Committed(actions: seq<Action>): seq<Work>
    decreases |actions|
  {
    if actions == [] then [] else (if actions[0].CommitFlush? then actions[0].work else []) + Committed(actions[1..])
  }

  lemma FaithfulJoin(s: State, one: seq<Work>, two: seq<Work>)
    requires FaithfulWork(s, one) && FaithfulWork(s, two)
    ensures FaithfulWork(s, one + two)
  {}

  /** However the threads interleave and fail, the ledger ends as after one backfill of what was committed. */
  lemma {:induction false} RunIsOneBackfill(owner: Owner, s: System, actions: seq<Action>)
    requires Sound(owner, s) && EnabledRun(owner, s, actions) && OnlyFlushes(actions)
    ensures FaithfulWork(s.ledger, Committed(actions)) && BackfillAll(s.ledger, Committed(actions)).Ok?
    ensures RunSystem(s, actions).ledger == BackfillAll(s.ledger, Committed(actions)).value.state
    decreases |actions|
  {
    if actions != [] {
      var a, next, rest := actions[0], Perform(s, actions[0]), Committed(actions[1..]);
      assert a in actions;
      PerformSound(owner, s, a);
      RunIsOneBackfill(owner, next, actions[1..]);
      if a.CommitFlush? {
        BackfillAllCoherent(owner, s.ledger, a.work);
        SameRowsFaithful(next.ledger, s.ledger, rest);
        FaithfulJoin(s.ledger, a.work, rest);
        BackfillAllConcat(s.ledger, a.work, rest);
      } else {
        assert [] + rest == rest;
      }
    }
  }

  /** So two such runs leave the same books as soon as they leave the flows with the same attributions. */
  lemma AttributionsDecideBooks(owner: Owner, s: System, one: seq<Action>, two: seq<Action>)
    requires Sound(owner, s) && OnlyFlushes(one) && OnlyFlushes(two)
    requires EnabledRun(owner, s, one) && EnabledRun(owner, s, two)
    requires SameDomains(RunSystem(s, one).ledger, RunSystem(s, two).ledger)
    ensures SameBooks(RunSystem(s, one).ledger, RunSystem(s, two).ledger)
  {
    RunIsOneBackfill(owner, s, one);
    RunIsOneBackfill(owner, s, two);
    SameDomainsSameBooks(owner, s.ledger, Committed(one), Committed(two));
  }

  // ----- one flow -----

  /** The binding is for the flow's device and destination. */
  predicate ForRow(b: Binding, row: Flow) { b.clientMac == row.Mac() && b.targetIp == row.endpoints.destinationIp }

  ghost predicate TracksNone(s: System, row: Flow) { forall b :: Tracked(s, b) ==> !ForRow(b, row) }

  ghost predicate TracksOnly(s: System, row: Flow, b: Binding) {
    forall x :: Tracked(s, x) && ForRow(x, row) ==> x == b
  }

  /** What the flow has once the binding is delivered to it. */
  function Gained(row: Flow, b: Binding): Option<Attribution> {
    if Matches(b, row) then Effective(row.domain, Some(b.attribution)) else row.domain
  }

  /** The flow's row is as at the start, but for its attribution, and that is the one from before or after `b`. */
  ghost predicate OnItsWay(s: System, id: FlowId, row: Flow, b: Binding) {
    && id in s.ledger.flows && Bare(s.ledger.flows[id]) == Bare(row)
    && (s.ledger.flows[id].domain == Gained(row, b) || (s.ledger.flows[id].domain == row.domain && Tracked(s, b)))
    && TracksOnly(s, row, b)
  }

  lemma BareTellsMatches(b: Binding, f: Flow, row: Flow)
    requires Bare(f) == Bare(row)
    ensures Matches(b, f) == Matches(b, row) && ForRow(b, f) == ForRow(b, row)
  {
    assert f == row.(domain := f.domain);
  }

  /** A commit tells the flow of `b` if the batch carries it, and of nothing otherwise. */
  lemma CommitTells(owner: Owner, s: System, t: Thread, work: seq<Work>, id: FlowId, row: Flow)
    requires Sound(owner, s) && Enabled(owner, s, CommitFlush(t, work))
    requires id in s.ledger.flows && Bare(s.ledger.flows[id]) == Bare(row)
    ensures var next := Perform(s, CommitFlush(t, work)).ledger;
            && id in next.flows && Bare(next.flows[id]) == Bare(row)
            && next.flows[id].domain == Effective(s.ledger.flows[id].domain, Told(s.ledger.flows[id], work))
  {
    assert Deliverable(s.inFlight[t]);
    CarriedTargetsDiffer(work, s.inFlight[t]);
    BackfillAllCoherent(owner, s.ledger, work);
    BackfillAllDomains(s.ledger, work, id);
    var next := BackfillAll(s.ledger, work).value.state;
    assert Bare(next.flows[id]) == Bare(s.ledger.flows[id]);
  }

  lemma CarriesOnly(s: System, t: Thread, work: seq<Work>, row: Flow, f: Flow, b: Binding)
    requires t in s.inFlight && Carries(work, s.inFlight[t]) && DistinctTargets(work) && Bare(f) == Bare(row)
    requires TracksOnly(s, row, b)
    ensures Told(f, work) == if b in s.inFlight[t] && Matches(b, row) then Some(b.attribution) else None
  {
    forall i | 0 <= i < |work| ensures Matches(work[i].binding, f) ==> work[i].binding == b && Matches(b, row) {
      BareTellsMatches(work[i].binding, f, row);
      assert work[i].binding in s.inFlight[t] && Tracked(s, work[i].binding);
    }
    if b in s.inFlight[t] && Matches(b, row) {
      var i :| 0 <= i < |s.inFlight[t]| && s.inFlight[t][i] == b;
      BareTellsMatches(b, f, row);
      ToldBy(f, work, i);
    } else {
      forall i | 0 <= i < |work| ensures !Matches(work[i].binding, f) {
        assert work[i].binding in s.inFlight[t];
      }
      ToldNothing(f, work);
    }
  }

  /** Two current bindings for one row are the same. */
  lemma CurrentForRow(bindings: Bindings, x: Binding, b: Binding, row: Flow)
    requires Current(bindings, x) && Current(bindings, b) && ForRow(x, row) && ForRow(b, row)
    ensures x == b
  {}

  lemma CacheStepPending(owner: Owner, s: System, step: CacheStep, id: FlowId, row: Flow, b: Binding)
    requires Sound(owner, s) && Enabled(owner, s, OnCache(step)) && OnItsWay(s, id, row, b) && ForRow(b, row)
    requires Current(s.cache.bindings, b) && Spares(s, OnCache(step), b)
    ensures OnItsWay(Perform(s, OnCache(step)), id, row, b)
  {
    var next := Perform(s, OnCache(step));
    NextValid(s.cache, step);
    forall x | Tracked(next, x) && ForRow(x, row) ensures x == b {
      if x in next.cache.resolved {
        CurrentForRow(next.cache.bindings, x, b, row);
      } else {
        assert Tracked(s, x);
      }
    }
    if Tracked(s, b) {
      PerformSpares(owner, s, OnCache(step), b);
    }
  }

  lemma StartPending(owner: Owner, s: System, t: Thread, id: FlowId, row: Flow, b: Binding)
    requires Sound(owner, s) && Enabled(owner, s, StartFlush(t)) && OnItsWay(s, id, row, b)
    ensures OnItsWay(Perform(s, StartFlush(t)), id, row, b)
  {
    SameTracked(s, t);
  }

  /** Draining moves bindings from the queue into flight. */
  lemma SameTracked(s: System, t: Thread)
    requires t !in s.inFlight
    ensures forall x :: Tracked(Perform(s, StartFlush(t)), x) <==> Tracked(s, x)
  {
    var next := Perform(s, StartFlush(t));
    forall x ensures Tracked(next, x) <==> Tracked(s, x) {
      if x in s.cache.resolved {
        assert t in next.inFlight && x in next.inFlight[t];
      } else if Tracked(s, x) {
        var u :| u in s.inFlight && x in s.inFlight[u];
        assert u in next.inFlight && x in next.inFlight[u];
      }
      if Tracked(next, x) {
        var u :| u in next.inFlight && x in next.inFlight[u];
        assert u != t ==> u in s.inFlight && x in s.inFlight[u];
      }
    }
  }

  lemma CommitPending(owner: Owner, s: System, t: Thread, work: seq<Work>, id: FlowId, row: Flow, b: Binding)
    requires Sound(owner, s) && Enabled(owner, s, CommitFlush(t, work)) && OnItsWay(s, id, row, b)
    ensures OnItsWay(Perform(s, CommitFlush(t, work)), id, row, b)
  {
    var f, next := s.ledger.flows[id], Perform(s, CommitFlush(t, work));
    CommitTells(owner, s, t, work, id, row);
    assert Deliverable(s.inFlight[t]);
    CarriedTargetsDiffer(work, s.inFlight[t]);
    CarriesOnly(s, t, work, row, f, b);
    EffectiveAbsorbs(row.domain, Some(b.attribution));
    forall x | Tracked(next, x) ensures Tracked(s, x) {}
    if Tracked(s, b) && b !in s.inFlight[t] && b !in s.cache.resolved {
      var u :| u in s.inFlight && b in s.inFlight[u];
      assert u in next.inFlight && b in next.inFlight[u];
    }
  }

  lemma FailPending(owner: Owner, s: System, t: Thread, id: FlowId, row: Flow, b: Binding)
    requires Sound(owner, s) && Enabled(owner, s, FailFlush(t)) && OnItsWay(s, id, row, b) && ForRow(b, row)
    requires Current(s.cache.bindings, b) && Spares(s, FailFlush(t), b)
    ensures OnItsWay(Perform(s, FailFlush(t)), id, row, b)
  {
    var next := Perform(s, FailFlush(t));
    PerformSound(owner, s, FailFlush(t));
    RequeueKeepsBindings(s.cache, s.inFlight[t]);
    forall x | Tracked(next, x) && ForRow(x, row) ensures x == b {
      if x in next.cache.resolved {
        CurrentForRow(next.cache.bindings, x, b, row);
      } else {
        assert Tracked(s, x);
      }
    }
    if Tracked(s, b) {
      PerformSpares(owner, s, FailFlush(t), b);
    }
  }

  lemma StepPending(owner: Owner, s: System, a: Action, id: FlowId, row: Flow, b: Binding)
    requires Sound(owner, s) && Enabled(owner, s, a) && !a.OnLedger? && OnItsWay(s, id, row, b) && ForRow(b, row)
    requires Current(s.cache.bindings, b) && Spares(s, a, b)
    ensures OnItsWay(Perform(s, a), id, row, b) && Current(Perform(s, a).cache.bindings, b)
  {
    match a
    case OnCache(step) => CacheStepPending(owner, s, step, id, row, b);
    case StartFlush(t) => StartPending(owner, s, t, id, row, b);
    case CommitFlush(t, work) => CommitPending(owner, s, t, work, id, row, b);
    case FailFlush(t) =>
      FailPending(owner, s, t, id, row, b);
      RequeueKeepsBindings(s.cache, s.inFlight[t]);
  }

  lemma {:induction false} RunPending(owner: Owner, s: System, actions: seq<Action>, id: FlowId, row: Flow, b: Binding)
    requires Sound(owner, s) && EnabledRun(owner, s, actions) && OnlyFlushes(actions)
    requires OnItsWay(s, id, row, b) && ForRow(b, row) && Current(s.cache.bindings, b) && SparesRun(s, actions, b)
    ensures OnItsWay(RunSystem(s, actions), id, row, b) && Current(RunSystem(s, actions).cache.bindings, b)
    decreases |actions|
  {
    if actions != [] {
      assert actions[0] in actions;
      PerformSound(owner, s, actions[0]);
      StepPending(owner, s, actions[0], id, row, b);
      RunPending(owner, Perform(s, actions[0]), actions[1..], id, row, b);
    }
  }

  // ----- before anything is announced for the flow -----

  lemma QuietFlow(owner: Owner, s: System, a: Action, id: FlowId, row: Flow)
    requires Sound(owner, s) && Enabled(owner, s, a) && !a.OnLedger? && TracksNone(s, row)
    requires id in s.ledger.flows && s.ledger.flows[id] == row
    ensures id in Perform(s, a).ledger.flows && Perform(s, a).ledger.flows[id] == row
  {
    if a.CommitFlush? {
      CommitTells(owner, s, a.thread, a.work, id, row);
      forall i | 0 <= i < |a.work| ensures !Matches(a.work[i].binding, row) {
        assert a.work[i].binding in s.inFlight[a.thread] && Tracked(s, a.work[i].binding);
      }
      ToldNothing(row, a.work);
    }
  }

  /**
   * The run announces `b` for the flow, or nothing, and spares it from then on: neither refreshed, contradicted,
   * expired, purged nor evicted while it is on its way.
   */
  ghost predicate Fated(s: System, actions: seq<Action>, row: Flow, b: Option<Binding>)
    decreases |actions|
  {
    if TracksNone(s, row) then
      if actions == [] then b.None? else Fated(Perform(s, actions[0]), actions[1..], row, b)
    else
      && b.Some? && ForRow(b.value, row) && Tracked(s, b.value) && TracksOnly(s, row, b.value)
      && Current(s.cache.bindings, b.value) && SparesRun(s, actions, b.value)
  }

  /** What the flow ends with when nothing is on its way to it any more. */
  function Outcome(row: Flow, b: Option<Binding>): Option<Attribution> {
    if b.Some? then Gained(row, b.value) else row.domain
  }

  /** Whatever threads drain, fail and commit, and whatever happens to other flows, a spared flow ends the same. */
  lemma {:induction false} SparedFlowEnds(
      owner: Owner, s: System, actions: seq<Action>, id: FlowId, row: Flow, b: Option<Binding>)
    requires Sound(owner, s) && EnabledRun(owner, s, actions) && OnlyFlushes(actions)
    requires id in s.ledger.flows && s.ledger.flows[id] == row && Fated(s, actions, row, b)
    requires TracksNone(RunSystem(s, actions), row)
    ensures id in RunSystem(s, actions).ledger.flows
    ensures RunSystem(s, actions).ledger.flows[id].domain == Outcome(row, b)
    decreases |actions|
  {
    if TracksNone(s, row) {
      if actions != [] {
        assert actions[0] in actions;
        QuietFlow(owner, s, actions[0], id, row);
        PerformSound(owner, s, actions[0]);
        SparedFlowEnds(owner, Perform(s, actions[0]), actions[1..], id, row, b);
      }
    } else {
      RunPending(owner, s, actions, id, row, b.value);
    }
  }

  /**
   * Two runs of any number of flushers from one system, with whatever failures, in which each flow is announced the
   * same binding, spared and finally delivered, leave the same books: so a run with failures leaves those of a run
   * without any.
   */
  lemma FlushersAgree(owner: Owner, s: System, one: seq<Action>, two: seq<Action>)
    requires Sound(owner, s) && OnlyFlushes(one) && OnlyFlushes(two)
    requires EnabledRun(owner, s, one) && EnabledRun(owner, s, two)
    requires forall id :: id in s.ledger.flows ==> SameFate(s, one, two, s.ledger.flows[id])
    ensures SameBooks(RunSystem(s, one).ledger, RunSystem(s, two).ledger)
  {
    RunIsOneBackfill(owner, s, one);
    RunIsOneBackfill(owner, s, two);
    BackfillAllCoherent(owner, s.ledger, Committed(one));
    var t, u := RunSystem(s, one).ledger, RunSystem(s, two).ledger;
    forall id | id in t.flows && id in u.flows ensures t.flows[id].domain == u.flows[id].domain {
      var row := s.ledger.flows[id];
      assert SameFate(s, one, two, row);
      var b :| Fated(s, one, row, b) && Fated(s, two, row, b);
      SparedFlowEnds(owner, s, one, id, row, b);
      SparedFlowEnds(owner, s, two, id, row, b);
    }
    AttributionsDecideBooks(owner, s, one, two);
  }

  ghost predicate SameFate(s: System, one: seq<Action>, two: seq<Action>, row: Flow) {
    && TracksNone(RunSystem(s, one), row) && TracksNone(RunSystem(s, two), row)
    && exists b :: Fated(s, one, row, b) && Fated(s, two, row, b)
  }
}
