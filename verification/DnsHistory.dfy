/** Histories of the cache: where every binding comes from, and which observations can never be bound. */
module DnsHistory {
  import opened Domain
  import opened Sequences
  import opened DnsCache
  import opened DnsInvariant

  // ----- what a step resolves -----

  /** The queue, the identities and the clock at the moment a step resolves the queue. */
  datatype Resolution = Resolution(pending: seq<Observation>, identities: Identities, now: Timestamp)

  function Resolving(c: Cache, step: CacheStep): Option<Resolution> {
    match step
    case Collecting(os, now) =>
      if PrepareAll(os) == [] then None
      else Some(Resolution(EnqueueAll(Purge(c, now).pending, PrepareAll(os)), Purge(c, now).identities, now))
    case Learning(flows, now) =>
      Some(Resolution(Purge(c, now).pending, LearnAll(Purge(c, now).identities, flows, now), now))
    case _ => None
  }

  /** An observation bound to a device, with the identities known at that moment. */
  datatype Event = Event(mac: Mac, observation: Observation, identities: Identities, now: Timestamp)

  ghost function Events(c: Cache, step: CacheStep): set<Event> {
    match Resolving(c, step)
    case None => {}
    case Some(r) =>
      set m | m in Resolvable(r.pending, r.identities, r.now) :: Event(m.mac, m.observation, r.identities, r.now)
  }

  ghost function Log(c: Cache, steps: seq<CacheStep>): set<Event>
    decreases |steps|
  {
    if steps == [] then {} else Events(c, steps[0]) + Log(Next(c, steps[0]), steps[1..])
  }

  /** The answers a step brings in. */
  function Ingests(step: CacheStep): seq<DnsObservation> {
    if step.Collecting? then step.observations else []
  }

  ghost predicate Ingested(steps: seq<CacheStep>, o: Observation) {
    exists i, j :: 0 <= i < |steps| && 0 <= j < |Ingests(steps[i])| && Prepare(Ingests(steps[i])[j]) == Some(o)
  }

  // ----- provenance -----

  ghost predicate Grounds(ev: Event, k: Key, e: Entry) {
    && ev.mac == k.mac && k.target in ev.observation.targets
    && e == Entry(ev.observation.domain, ev.observation.observedAt, ev.observation.bindingExpiresAt)
  }

  ghost predicate Grounded(log: set<Event>, bindings: Bindings) {
    forall k, e :: k in bindings && e in bindings[k] ==> exists ev :: ev in log && Grounds(ev, k, e)
  }

  lemma AddBindingGrounded(log: set<Event>, c: Cache, key: Key, o: Observation, ev: Event)
    requires Grounded(log, c.bindings) && ev in log && Grounds(ev, key, NewEntry(o))
    ensures Grounded(log, AddBinding(c, key, o).bindings)
  {
    var entries := EntriesAt(c.bindings, key);
    var next := AddBinding(c, key, o).bindings;
    forall k, e | k in next && e in next[k] ensures exists v :: v in log && Grounds(v, k, e) {
      if k == key {
        if e in Live(entries, o.observedAt) {
          FilterMember((x: Entry) => x.expiresAt > o.observedAt, entries, e);
          assert e in entries && key in c.bindings;
        } else {
          assert e == NewEntry(o);
        }
      }
    }
  }

  lemma {:induction false} AddBindingsGrounded(log: set<Event>, c: Cache, targets: seq<Address>, ev: Event)
    requires Grounded(log, c.bindings) && ev in log && (forall t :: t in targets ==> t in ev.observation.targets)
    ensures Grounded(log, AddBindings(c, ev.mac, targets, ev.observation).bindings)
    decreases |targets|
  {
    if targets != [] {
      var key := Key(ev.mac, targets[0]);
      assert targets[0] in targets;
      AddBindingGrounded(log, c, key, ev.observation, ev);
      AddBindingsGrounded(log, AddBinding(c, key, ev.observation), targets[1..], ev);
    }
  }

  lemma {:induction false} AddMatchesGrounded(log: set<Event>, c: Cache, matches: seq<Match>, identities: Identities,
      now: Timestamp)
    requires Grounded(log, c.bindings)
    requires forall m :: m in matches ==> Event(m.mac, m.observation, identities, now) in log
    ensures Grounded(log, AddMatches(c, matches).bindings)
    decreases |matches|
  {
    if matches != [] {
      var m := matches[0];
      assert m in matches;
      var ev := Event(m.mac, m.observation, identities, now);
      AddBindingsGrounded(log, c, m.observation.targets, ev);
      AddMatchesGrounded(log, AddBindings(c, m.mac, m.observation.targets, m.observation), matches[1..], identities,
          now);
    }
  }

  /** The entries of the smaller table are entries of the larger. */
  ghost predicate EntriesAmong(after: Bindings, before: Bindings) {
    forall k, e :: k in after && e in after[k] ==> k in before && e in before[k]
  }

  lemma LiveWithin(bindings: Bindings, now: Timestamp)
    ensures EntriesAmong(LiveBindings(bindings, now), bindings)
  {
    var after := LiveBindings(bindings, now);
    forall k, e | k in after && e in after[k] ensures e in bindings[k] {
      FilterMember((x: Entry) => x.expiresAt > now, bindings[k], e);
    }
  }

  lemma KeptWithin(bindings: Bindings, keep: (Key, Entry) -> bool)
    ensures EntriesAmong(KeepEntries(bindings, keep), bindings)
  {
    var after := KeepEntries(bindings, keep);
    forall k, e | k in after && e in after[k] ensures e in bindings[k] {
      KeptMember(bindings[k], keep, k, e);
    }
  }

  lemma KeptMember(entries: seq<Entry>, keep: (Key, Entry) -> bool, k: Key, e: Entry)
    ensures e in KeptAt(entries, keep, k) ==> e in entries
  {
    var here := (x: Entry) => keep(k, x);
    FilterMember(here, entries, e);
  }

  lemma {:induction false} RequeueKeepsBindings(c: Cache, bs: seq<Binding>)
    ensures var d := Requeue(c, bs); d.bindings == c.bindings && d.pending == c.pending && d.identities == c.identities
    decreases |bs|
  {
    if bs != [] {
      RequeueKeepsBindings(RequeueOne(c, bs[0]), bs[1..]);
    }
  }

  lemma ResolvedGrounded(log: set<Event>, c: Cache, now: Timestamp)
    requires Grounded(log, c.bindings)
    ensures Grounded(log + (set m | m in Resolvable(c.pending, c.identities, now) ::
        Event(m.mac, m.observation, c.identities, now)),
                     ResolvePending(c, now).bindings)
  {
    var matches := Resolvable(c.pending, c.identities, now);
    var more := log + set m | m in matches :: Event(m.mac, m.observation, c.identities, now);
    assert Grounded(more, c.bindings);
    AddMatchesGrounded(more, c.(pending := Unresolved(c.pending, c.identities, now)), matches, c.identities, now);
  }

  lemma NextGrounded(log: set<Event>, c: Cache, step: CacheStep)
    requires Grounded(log, c.bindings)
    ensures Grounded(log + Events(c, step), Next(c, step).bindings)
  {
    match step
    case Collecting(os, now) =>
      LiveWithin(c.bindings, now);
      var purged := Purge(c, now);
      if PrepareAll(os) != [] {
        ResolvedGrounded(log, purged.(pending := EnqueueAll(purged.pending, PrepareAll(os))), now);
      }
    case Learning(flows, now) =>
      LiveWithin(c.bindings, now);
      var purged := Purge(c, now);
      ResolvedGrounded(log, purged.(identities := LearnAll(purged.identities, flows, now)), now);
    case Expiring(now) => LiveWithin(c.bindings, now);
    case Draining =>
    case Requeueing(bs) => RequeueKeepsBindings(c, bs);
    case ForgettingDevice(mac) =>
    case ForgettingDomain(scope, domain) =>
      if domain.Some? {
        KeptWithin(c.bindings, (k: Key, e: Entry) => !(InScope(scope, k.mac) && e.domain == domain.value));
      }
    case ForgettingRange(range) => KeptWithin(c.bindings, (k: Key, e: Entry) => !range.Contains(e.associatedAt));
  }

  lemma {:induction false} RunGrounded(log: set<Event>, c: Cache, steps: seq<CacheStep>)
    requires Grounded(log, c.bindings)
    ensures Grounded(log + Log(c, steps), RunCache(c, steps).bindings)
    decreases |steps|
  {
    if steps == [] {
      assert log + Log(c, steps) == log;
    } else {
      NextGrounded(log, c, steps[0]);
      RunGrounded(log + Events(c, steps[0]), Next(c, steps[0]), steps[1..]);
      assert log + Events(c, steps[0]) + Log(Next(c, steps[0]), steps[1..]) == log + Log(c, steps);
    }
  }

  // ----- the log itself is honest -----

  /** Every waiting observation was ingested. */
  ghost predicate AllIngested(seen: seq<CacheStep>, pending: seq<Observation>) {
    forall o :: o in pending ==> Ingested(seen, o)
  }

  lemma {:induction false} PreparedAre(os: seq<DnsObservation>, o: Observation)
    requires o in PrepareAll(os)
    ensures exists j :: 0 <= j < |os| && Prepare(os[j]) == Some(o)
    decreases |os|
  {
    if Prepare(os[0]) != Some(o) {
      PreparedAre(os[1..], o);
      var j :| 0 <= j < |os[1..]| && Prepare(os[1..][j]) == Some(o);
      assert os[j + 1] == os[1..][j];
    }
  }

  lemma {:induction false} EnqueuedAre(pending: seq<Observation>, os: seq<Observation>, o: Observation)
    requires o in EnqueueAll(pending, os)
    ensures o in pending || o in os
    decreases |os|
  {
    if os != [] {
      EnqueuedAre(PushBounded(pending, os[0], MAX_PENDING_OBSERVATIONS), os[1..], o);
    }
  }

  lemma MoreSteps(seen: seq<CacheStep>, step: CacheStep, o: Observation)
    requires Ingested(seen, o)
    ensures Ingested(seen + [step], o)
  {
    var i, j :| 0 <= i < |seen| && 0 <= j < |Ingests(seen[i])| && Prepare(Ingests(seen[i])[j]) == Some(o);
    assert (seen + [step])[i] == seen[i];
  }

  lemma ResolvingIngested(seen: seq<CacheStep>, c: Cache, step: CacheStep)
    requires AllIngested(seen, c.pending) && Resolving(c, step).Some?
    ensures AllIngested(seen + [step], Resolving(c, step).value.pending)
  {
    var now := Resolving(c, step).value.now;
    forall o | o in Resolving(c, step).value.pending ensures Ingested(seen + [step], o) {
      LivePendingMember(c.pending, now, o);
      if o in Purge(c, now).pending {
        MoreSteps(seen, step, o);
      } else {
        EnqueuedAre(Purge(c, now).pending, PrepareAll(step.observations), o);
        PreparedAre(step.observations, o);
        assert (seen + [step])[|seen|] == step;
        assert Ingests((seen + [step])[|seen|]) == step.observations;
      }
    }
  }

  lemma LivePendingMember(pending: seq<Observation>, now: Timestamp, o: Observation)
    ensures o in LivePending(pending, now) <==> o in pending && !IsExpired(o, now)
  {
    FilterMember((x: Observation) => !IsExpired(x, now), pending, o);
  }

  /** The queue after a step holds nothing but what was queued before or ingested by it. */
  lemma NextPending(c: Cache, step: CacheStep, o: Observation)
    requires o in Next(c, step).pending
    ensures if Resolving(c, step).Some? then o in Resolving(c, step).value.pending else o in c.pending
  {
    match step
    case Collecting(os, now) =>
      if PrepareAll(os) != [] {
        ResolvingQueue(Purge(c, now).(pending := EnqueueAll(Purge(c, now).pending, PrepareAll(os))), now, o);
      }
    case Learning(flows, now) =>
      ResolvingQueue(Purge(c, now).(identities := LearnAll(Purge(c, now).identities, flows, now)), now, o);
    case Expiring(now) => LivePendingMember(c.pending, now, o);
    case Draining =>
    case Requeueing(bs) => RequeueKeepsBindings(c, bs);
    case ForgettingDevice(mac) =>
      FilterMember((x: Observation) => !IsOnlyFrom(c.identities, x, mac), c.pending, o);
    case ForgettingDomain(scope, domain) =>
      if domain.Some? {
        FilterMember((x: Observation) => x.domain != domain.value
            || (scope.Some? && !IsOnlyFrom(c.identities, x, scope.value)), c.pending, o);
      }
    case ForgettingRange(range) =>
      FilterMember((x: Observation) => !range.Contains(x.observedAt), c.pending, o);
  }

  lemma {:induction false} AddMatchesKeep(c: Cache, matches: seq<Match>)
    ensures AddMatches(c, matches).pending == c.pending && AddMatches(c, matches).identities == c.identities
    decreases |matches|
  {
    if matches != [] {
      var m := matches[0];
      AddBindingsKeep(c, m.mac, m.observation.targets, m.observation);
      AddMatchesKeep(AddBindings(c, m.mac, m.observation.targets, m.observation), matches[1..]);
    }
  }

  lemma {:induction false} AddBindingsKeep(c: Cache, mac: Mac, targets: seq<Address>, o: Observation)
    ensures AddBindings(c, mac, targets, o).pending == c.pending
        && AddBindings(c, mac, targets, o).identities == c.identities
    decreases |targets|
  {
    if targets != [] {
      AddBindingsKeep(AddBinding(c, Key(mac, targets[0]), o), mac, targets[1..], o);
    }
  }

  lemma ResolvingQueue(c: Cache, now: Timestamp, o: Observation)
    requires o in ResolvePending(c, now).pending
    ensures o in c.pending
  {
    AddMatchesKeep(c.(pending := Unresolved(c.pending, c.identities, now)), Resolvable(c.pending, c.identities, now));
    UnresolvedMember(c.pending, c.identities, now, o);
  }

  /**
   * A binding event names an ingested observation that was not over, and the one device that had its address when
   * it was made, or up to five seconds before.
   */
  ghost predicate Honest(seen: seq<CacheStep>, ev: Event) {
    && Ingested(seen, ev.observation)
    && OnlyAsker(ev.identities, ev.mac, ev.observation)
    && ev.observation.pendingExpiresAt > ev.now && ev.observation.bindingExpiresAt > ev.now
  }

  lemma EventsAreHonest(seen: seq<CacheStep>, c: Cache, step: CacheStep, ev: Event)
    requires AllIngested(seen, c.pending) && ev in Events(c, step)
    ensures Honest(seen + [step], ev)
  {
    var r := Resolving(c, step).value;
    ResolvingIngested(seen, c, step);
    ResolutionPartitions(r.pending, r.identities, r.now);
    SoleCandidateIsOnlyAsker(r.identities, ev.mac, ev.observation);
  }

  lemma NextIngested(seen: seq<CacheStep>, c: Cache, step: CacheStep)
    requires Valid(c) && AllIngested(seen, c.pending)
    ensures AllIngested(seen + [step], Next(c, step).pending)
  {
    forall o | o in Next(c, step).pending ensures Ingested(seen + [step], o) {
      NextPending(c, step, o);
      if Resolving(c, step).Some? {
        ResolvingIngested(seen, c, step);
      } else {
        MoreSteps(seen, step, o);
      }
    }
  }

  ghost predicate LegalSteps(steps: seq<CacheStep>) {
    forall i :: 0 <= i < |steps| ==> LegalStep(steps[i])
  }

  lemma {:induction false} IngestedLater(seen: seq<CacheStep>, steps: seq<CacheStep>, o: Observation)
    requires Ingested(seen, o)
    ensures Ingested(seen + steps, o)
  {
    var i, j :| 0 <= i < |seen| && 0 <= j < |Ingests(seen[i])| && Prepare(Ingests(seen[i])[j]) == Some(o);
    assert (seen + steps)[i] == seen[i];
  }

  lemma HonestLater(seen: seq<CacheStep>, steps: seq<CacheStep>, ev: Event)
    requires Honest(seen, ev)
    ensures Honest(seen + steps, ev)
  {
    IngestedLater(seen, steps, ev.observation);
  }

  lemma RestIsLegal(steps: seq<CacheStep>)
    requires steps != [] && LegalSteps(steps)
    ensures LegalSteps(steps[1..])
  {}

  lemma {:induction false} LogIsHonest(seen: seq<CacheStep>, c: Cache, steps: seq<CacheStep>, ev: Event)
    requires Valid(c) && LegalSteps(steps) && AllIngested(seen, c.pending) && ev in Log(c, steps)
    ensures Honest(seen + steps, ev)
    decreases |steps|
  {
    var step, rest := steps[0], steps[1..];
    var now := seen + [step];
    assert seen + steps == now + rest;
    if ev in Events(c, step) {
      EventsAreHonest(seen, c, step, ev);
      HonestLater(now, rest, ev);
    } else {
      assert ev in Log(Next(c, step), rest);
      assert LegalStep(steps[0]);
      NextValid(c, step);
      NextIngested(seen, c, step);
      RestIsLegal(steps);
      LogIsHonest(now, Next(c, step), rest, ev);
    }
  }

  /**
   * Every stored binding traces to an ingested answer for that target with its exact start and end, which
   * had that device as its only candidate when it was bound.
   */
  lemma EveryBindingHasASource(steps: seq<CacheStep>, k: Key, e: Entry)
    requires LegalSteps(steps)
    requires k in RunCache(EMPTY_CACHE, steps).bindings && e in RunCache(EMPTY_CACHE, steps).bindings[k]
    ensures exists ev :: ev in Log(EMPTY_CACHE, steps) && Grounds(ev, k, e) && Honest(steps, ev)
  {
    RunGrounded({}, EMPTY_CACHE, steps);
    assert {} + Log(EMPTY_CACHE, steps) == Log(EMPTY_CACHE, steps);
    var ev :| ev in Log(EMPTY_CACHE, steps) && Grounds(ev, k, e);
    LogIsHonest([], EMPTY_CACHE, steps, ev);
    assert [] + steps == steps;
  }

  lemma {:induction false} InsertSortedKeeps(x: Address, s: seq<Address>, y: Address)
    ensures y in InsertSorted(x, s) <==> y == x || y in s
    decreases |s|
  {
    if s != [] {
      assert s == [s[0]] + s[1..];
      InsertSortedKeeps(x, s[1..], y);
    }
  }

  lemma {:induction false} SortDedupKeeps(s: seq<Address>, y: Address)
    ensures y in SortDedup(s) <==> y in s
    decreases |s|
  {
    if s != [] {
      assert s == [s[0]] + s[1..];
      SortDedupKeeps(s[1..], y);
      InsertSortedKeeps(s[0], SortDedup(s[1..]), y);
    }
  }

  ghost predicate StrictlyAscending(s: seq<Address>) { forall i, j :: 0 <= i < j < |s| ==> s[i] < s[j] }

  lemma {:induction false} InsertSortedAscends(x: Address, s: seq<Address>)
    requires StrictlyAscending(s)
    ensures StrictlyAscending(InsertSorted(x, s))
    decreases |s|
  {
    if s != [] && x > s[0] {
      InsertSortedAscends(x, s[1..]);
      var rest := InsertSorted(x, s[1..]);
      forall j | 0 <= j < |rest| ensures s[0] < rest[j] {
        assert rest[j] in rest;
        InsertSortedKeeps(x, s[1..], rest[j]);
        assert rest[j] == x || exists i :: 0 < i < |s| && s[i] == rest[j];
      }
      assert InsertSorted(x, s) == [s[0]] + rest;
    } else if s == [] || x < s[0] {
      assert InsertSorted(x, s) == [x] + s;
    }
  }

  lemma {:induction false} SortDedupAscends(s: seq<Address>)
    ensures StrictlyAscending(SortDedup(s))
    decreases |s|
  {
    if s != [] {
      SortDedupAscends(s[1..]);
      InsertSortedAscends(s[0], SortDedup(s[1..]));
    }
  }

  /** A prepared observation keeps the answer's targets, start and time to live, and waits at most five minutes. */
  lemma PreparedFaithfully(d: DnsObservation, o: Observation)
    requires Prepare(d) == Some(o)
    ensures o.clientIp == d.clientIp && Some(o.domain) == d.domain && o.observedAt == d.observedAt
    ensures o.bindingExpiresAt == Saturate(d.observedAt + d.ttl * 1_000) && d.ttl > 0
    ensures o.observedAt < o.pendingExpiresAt <= o.bindingExpiresAt
        && o.pendingExpiresAt <= o.observedAt + MAX_PENDING_AGE_MS
    ensures (forall t :: t in o.targets <==> t in d.targets) && StrictlyAscending(o.targets)
  {
    SortDedupAscends(d.targets);
    forall t ensures t in o.targets <==> t in d.targets {
      SortDedupKeeps(d.targets, t);
    }
  }

  // ----- labels -----

  /** The entry at `i`, and no other, starts before the flow ends and ends after the flow starts. */
  ghost predicate OnlyInForce(entries: seq<Entry>, f: Flow, i: nat) {
    && i < |entries|
    && entries[i].associatedAt <= f.lastSeen && f.firstSeen < entries[i].expiresAt
    && forall j :: 0 <= j < |entries| && entries[j].associatedAt <= f.lastSeen && f.firstSeen < entries[j].expiresAt ==>
         j == i
  }

  /** The entries stored for the flow's device and destination. */
  function EntriesFor(bindings: Bindings, f: Flow): seq<Entry>
    requires f.endpoints.destinationIp.V4?
  {
    var key := Key(f.Mac(), f.endpoints.destinationIp.bits);
    if key in bindings then bindings[key] else []
  }

  /** The flow with the label that an entry gives it. */
  function LabelOf(f: Flow, e: Entry): Flow {
    f.(domain := Some(Attribution(e.domain, Dns, High, e.associatedAt, Some(e.expiresAt))))
  }

  /**
   * A flow is labelled iff exactly one binding of its device and destination overlaps it, with that one's domain,
   * start and end; any other flow stays as it is.
   */
  lemma LabelledExactly(bindings: Bindings, f: Flow)
    ensures Labelled(bindings, f).Some? <==>
              && f.Mac() != EMPTY && f.endpoints.destinationIp.V4?
              && exists i: nat :: OnlyInForce(EntriesFor(bindings, f), f, i)
    ensures f.Mac() != EMPTY && f.endpoints.destinationIp.V4? ==>
              var entries := EntriesFor(bindings, f);
              forall i: nat :: OnlyInForce(entries, f, i) ==> Labelled(bindings, f) == Some(LabelOf(f, entries[i]))
    ensures LabelledFlow(bindings, f) == if Labelled(bindings, f).Some? then Labelled(bindings, f).value else f
  {
    if f.endpoints.destinationIp.V4? {
      var entries := EntriesFor(bindings, f);
      var keep := (e: Entry) => InForce(e, f);
      assert InForceEntries(entries, f) == Filter(keep, entries);
      if |Filter(keep, entries)| == 1 {
        var i := FilterOne(keep, entries);
        assert OnlyInForce(entries, f, i);
      }
      forall i: nat | OnlyInForce(entries, f, i) ensures Filter(keep, entries) == [entries[i]] {
        OneFilters(keep, entries, i);
      }
    }
  }

  /** Every label the cache gives traces to an ingested answer. */
  lemma EveryLabelHasASource(steps: seq<CacheStep>, f: Flow)
    requires LegalSteps(steps) && Labelled(RunCache(EMPTY_CACHE, steps).bindings, f).Some?
    ensures f.endpoints.destinationIp.V4?
    ensures exists ev ::
              && ev in Log(EMPTY_CACHE, steps) && Honest(steps, ev)
              && ev.mac == f.Mac() && f.endpoints.destinationIp.bits in ev.observation.targets
              && ev.observation.observedAt <= f.lastSeen && f.firstSeen < ev.observation.bindingExpiresAt
              && Labelled(RunCache(EMPTY_CACHE, steps).bindings, f).value
                 == LabelOf(f, Entry(ev.observation.domain, ev.observation.observedAt, ev.observation.bindingExpiresAt))
  {
    var bindings := RunCache(EMPTY_CACHE, steps).bindings;
    var key := Key(f.Mac(), f.endpoints.destinationIp.bits);
    var entries := EntriesAt(bindings, key);
    var e := InForceEntries(entries, f)[0];
    assert e in InForceEntries(entries, f);
    FilterMember((x: Entry) => InForce(x, f), entries, e);
    EveryBindingHasASource(steps, key, e);
    var ev :| ev in Log(EMPTY_CACHE, steps) && Grounds(ev, key, e) && Honest(steps, ev);
  }
}
