/** An address two devices claimed: when an observation from it can never be bound to either. */
module DnsAmbiguity {
  import opened Domain
  import opened Sequences
  import opened DnsCache
  import opened DnsInvariant
  import opened DnsHistory

  /** The last moment at which the observation still waits. */
  function LastInstant(o: Observation): int {
    (if o.pendingExpiresAt < o.bindingExpiresAt then o.pendingExpiresAt else o.bindingExpiresAt) - 1
  }

  /** The identity may have made the observation and is remembered for as long as the observation waits. */
  predicate Anchors(i: Identity, o: Observation) {
    Covers(i, o) && i.lastSeen >= Saturate(LastInstant(o) - IDENTITY_IDLE_RETENTION_MS)
  }

  ghost predicate AnchoredBy(identities: Identities, o: Observation, a: FlowId, b: FlowId) {
    && a in identities && b in identities
    && identities[a].clientMac != identities[b].clientMac
    && Anchors(identities[a], o) && Anchors(identities[b], o)
  }

  /** Two devices that both stay candidates to the end. */
  ghost predicate Anchored(identities: Identities, o: Observation) {
    exists a, b :: AnchoredBy(identities, o, a, b)
  }

  /** No single device is the only candidate, and there are at least two. */
  ghost predicate Ambiguous(identities: Identities, o: Observation) {
    exists m, n :: m != n && m in Candidates(identities, o) && n in Candidates(identities, o)
  }

  lemma AmbiguousIsNotSole(identities: Identities, o: Observation)
    requires Ambiguous(identities, o)
    ensures |Candidates(identities, o)| != 1
  {
    if |Candidates(identities, o)| == 1 {
      SoleElement(Candidates(identities, o));
    }
  }

  lemma AnchoredIsAmbiguous(identities: Identities, o: Observation)
    requires Anchored(identities, o)
    ensures Ambiguous(identities, o)
  {
    var a, b :| AnchoredBy(identities, o, a, b);
    assert identities[a].clientMac in Candidates(identities, o) && identities[b].clientMac in Candidates(identities, o);
  }

  /** Purging while the observation waits forgets neither of its anchors. */
  lemma PurgeKeepsAnchors(identities: Identities, o: Observation, now: Timestamp)
    requires Anchored(identities, o) && !IsExpired(o, now)
    ensures Anchored(LiveIdentities(identities, now), o)
  {
    var a, b :| AnchoredBy(identities, o, a, b);
    assert now <= LastInstant(o);
    assert AnchoredBy(LiveIdentities(identities, now), o, a, b);
  }

  /**
   * Exactly when ambiguity lasts: every purge that keeps the observation leaves it ambiguous iff two of its
   * devices are remembered to the last moment it waits.
   */
  lemma AmbiguityLastsIffAnchored(identities: Identities, o: Observation)
    requires o.pendingExpiresAt > MIN_I64 && o.bindingExpiresAt > MIN_I64
    ensures (forall now: Timestamp :: !IsExpired(o, now) ==> Ambiguous(LiveIdentities(identities, now), o))
            <==> Anchored(identities, o)
  {
    if Anchored(identities, o) {
      forall now: Timestamp | !IsExpired(o, now) ensures Ambiguous(LiveIdentities(identities, now), o) {
        PurgeKeepsAnchors(identities, o, now);
        AnchoredIsAmbiguous(LiveIdentities(identities, now), o);
      }
    }
    if forall now: Timestamp :: !IsExpired(o, now) ==> Ambiguous(LiveIdentities(identities, now), o) {
      var last: Timestamp := LastInstant(o);
      assert !IsExpired(o, last);
      var kept := LiveIdentities(identities, last);
      var m, n :| m != n && m in Candidates(kept, o) && n in Candidates(kept, o);
      var a :| a in kept && Covers(kept[a], o) && kept[a].clientMac == m;
      var b :| b in kept && Covers(kept[b], o) && kept[b].clientMac == n;
      assert AnchoredBy(identities, o, a, b);
    }
  }

  /** The observation falls inside the interval itself, not only within the grace after it. */
  predicate Contains(i: Identity, o: Observation) {
    i.clientIp == o.clientIp && i.firstSeen <= o.observedAt <= i.lastSeen
  }

  /** Two devices whose intervals contain the observation anchor it: waiting and remembering both last five minutes. */
  lemma ContainmentAnchors(identities: Identities, o: Observation, a: FlowId, b: FlowId)
    requires o.pendingExpiresAt <= o.observedAt + MAX_PENDING_AGE_MS
    requires a in identities && b in identities && identities[a].clientMac != identities[b].clientMac
    requires Contains(identities[a], o) && Contains(identities[b], o)
    ensures Anchored(identities, o)
  {
    assert AnchoredBy(identities, o, a, b);
  }

  // ----- the grace alone is not enough -----

  /** An answer at ten seconds for an address that one device used until five and another one until twenty. */
  const GRACE_ANSWER := DnsObservation(1, Some(1), [9], 10_000, 890)
  const GRACE_OBSERVATION := Observation(1, 1, [9], 10_000, 900_000, 310_000)
  const EARLIER := Identity(1, 1, 0, 5_000)
  const OTHER := Identity(1, 2, 0, 20_000)

  function Sighting(id: FlowId, i: Identity): Flow {
    Flow(id, i.firstSeen, i.lastSeen, Endpoints(Tcp, Upload, 1, 1, i.clientMac, V4(i.clientIp), 1, V4(9), 443),
         NatFields(None, None, None, None), Counters(1, 1, 1), None, New)
  }

  /** Both devices are learned, the answer arrives, and the next batch comes shortly before the answer is given up. */
  function GraceRun(): seq<CacheStep> {
    [Learning([Sighting(1, EARLIER), Sighting(2, OTHER)], 20_000), Collecting([GRACE_ANSWER], 20_000),
        Learning([], 306_000)]
  }

  /** With one device known only through the grace, ambiguity can end early. */
  lemma GraceAloneIsForgotten()
    ensures var identities, o := map[1 := EARLIER, 2 := OTHER], GRACE_OBSERVATION;
            && o.pendingExpiresAt == o.observedAt + MAX_PENDING_AGE_MS && !IsExpired(o, 306_000)
            && Ambiguous(identities, o) && |Candidates(identities, o)| == 2
            && LiveIdentities(identities, 306_000) == map[2 := OTHER]
            && Candidates(map[2 := OTHER], o) == {2}
  {
    var identities, o := map[1 := EARLIER, 2 := OTHER], GRACE_OBSERVATION;
    assert Covers(identities[1], o) && Covers(identities[2], o);
    assert Candidates(identities, o) == {1, 2};
    var kept := map[2 := OTHER];
    assert LiveIdentities(identities, 306_000) == kept;
    assert Covers(kept[2], o);
    assert Candidates(kept, o) == {2};
  }

  lemma PreparedAnswer()
    ensures PrepareAll([GRACE_ANSWER]) == [GRACE_OBSERVATION]
  {
    assert SortDedup([9]) == [9] by {
      assert [9][1..] == [] && SortDedup([]) == [];
      assert SortDedup([9]) == InsertSorted(9, []);
    }
    assert Prepare(GRACE_ANSWER) == Some(GRACE_OBSERVATION);
    assert [GRACE_ANSWER][1..] == [];
  }

  lemma BothLearned()
    ensures Next(EMPTY_CACHE, GraceRun()[0]) == Cache(map[], map[1 := EARLIER, 2 := OTHER], [], [])
  {
    var f, g := Sighting(1, EARLIER), Sighting(2, OTHER);
    assert Purge(EMPTY_CACHE, 20_000) == EMPTY_CACHE;
    assert [f, g][1..] == [g] && [g][1..] == [];
    assert Learnable(f, 20_000) && Learnable(g, 20_000);
    assert LearnAll(map[1 := EARLIER], [g], 20_000) == LearnAll(map[1 := EARLIER, 2 := OTHER], [], 20_000);
    assert LearnAll(map[], [f, g], 20_000) == map[1 := EARLIER, 2 := OTHER];
  }

  lemma AnswerWaits(c: Cache)
    requires c == Cache(map[], map[1 := EARLIER, 2 := OTHER], [], [])
    ensures Next(c, GraceRun()[1]) == c.(pending := [GRACE_OBSERVATION])
  {
    PreparedAnswer();
    GraceAloneIsForgotten();
    var o := GRACE_OBSERVATION;
    assert Purge(c, 20_000) == c;
    assert [o][1..] == [] && EnqueueAll([], [o]) == EnqueueAll([o], []) == [o];
    FilterSingle(x => KeepsWaiting(c.identities, x, 20_000), o);
    assert Unresolved([o], c.identities, 20_000) == [o];
    assert Resolvable([], c.identities, 20_000) == [] && Resolvable([o], c.identities, 20_000) == [];
  }

  lemma AnswerIsBound(c: Cache)
    requires c == Cache(map[], map[1 := EARLIER, 2 := OTHER], [GRACE_OBSERVATION], [])
    ensures Resolving(c, GraceRun()[2]) == Some(Resolution([GRACE_OBSERVATION], map[2 := OTHER], 306_000))
    ensures Resolvable([GRACE_OBSERVATION], map[2 := OTHER], 306_000) == [Match(2, GRACE_OBSERVATION)]
    ensures Next(c, GraceRun()[2]).bindings == map[Key(2, 9) := [Entry(1, 10_000, 900_000)]]
  {
    GraceAloneIsForgotten();
    var o, kept := GRACE_OBSERVATION, map[2 := OTHER];
    assert [o][1..] == [] && [9][1..] == [];
    FilterSingle((x: Observation) => !IsExpired(x, 306_000), o);
    FilterSingle(x => KeepsWaiting(kept, x, 306_000), o);
    assert LivePending([o], 306_000) == [o];
    assert Resolvable([], kept, 306_000) == [];
    var purged := Purge(c, 306_000);
    assert purged == Cache(map[], kept, [o], []);
    assert LearnAll(kept, [], 306_000) == kept;
    assert Unresolved([o], kept, 306_000) == [];
    BoundToOther(purged.(pending := []));
    assert Resolvable([o], kept, 306_000) == [Match(2, o)];
    assert Next(c, GraceRun()[2]) == ResolvePending(purged, 306_000);
  }

  lemma BoundToOther(c: Cache)
    requires c.bindings == map[]
    ensures AddMatches(c, [Match(2, GRACE_OBSERVATION)]).bindings == map[Key(2, 9) := [Entry(1, 10_000, 900_000)]]
  {
    var o := GRACE_OBSERVATION;
    assert [Match(2, o)][1..] == [] && [9][1..] == [];
    assert EntriesAt(c.bindings, Key(2, 9)) == [] && Live([], 10_000) == [];
    assert !IsStale([], o) && Refreshed([], o) == [NewEntry(o)];
    var bound := AddBinding(c, Key(2, 9), o);
    assert bound.bindings == map[Key(2, 9) := [NewEntry(o)]];
    assert AddBindings(bound, 2, [], o) == bound;
    assert [9][0] == 9 && AddBindings(c, 2, [9], o) == AddBindings(bound, 2, [9][1..], o);
  }

  /**
   * So the cache, started empty, binds the answer to the other device while the earlier one could have asked as
   * well.
   */
  lemma GraceAloneIsBound()
    ensures Ambiguous(map[1 := EARLIER, 2 := OTHER], GRACE_OBSERVATION)
    ensures Event(2, GRACE_OBSERVATION, map[2 := OTHER], 306_000) in Log(EMPTY_CACHE, GraceRun())
    ensures RunCache(EMPTY_CACHE, GraceRun()).bindings == map[Key(2, 9) := [Entry(1, 10_000, 900_000)]]
  {
    GraceAloneIsForgotten();
    var steps := GraceRun();
    var c1 := Next(EMPTY_CACHE, steps[0]);
    var c2 := Next(c1, steps[1]);
    BothLearned();
    AnswerWaits(c1);
    AnswerIsBound(c2);
    var m := Match(2, GRACE_OBSERVATION);
    assert m in [m];
    assert Event(2, GRACE_OBSERVATION, map[2 := OTHER], 306_000) in Events(c2, steps[2]);
    ThreeCacheSteps(EMPTY_CACHE, steps);
  }

  lemma ThreeCacheSteps(c: Cache, steps: seq<CacheStep>)
    requires |steps| == 3
    ensures var c1 := Next(c, steps[0]); var c2 := Next(c1, steps[1]);
            RunCache(c, steps) == Next(c2, steps[2]) && Events(c2, steps[2]) <= Log(c, steps)
  {
    var c1 := Next(c, steps[0]);
    var c2 := Next(c1, steps[1]);
    var rest := steps[1..];
    assert rest[0] == steps[1] && rest[1..] == [steps[2]] && rest[1..][1..] == [];
    assert RunCache(c2, [steps[2]]) == RunCache(Next(c2, steps[2]), []);
    assert RunCache(c1, rest) == RunCache(c2, [steps[2]]);
    assert Log(c1, rest) == Events(c1, rest[0]) + Log(c2, [steps[2]]);
  }

  // ----- over whole histories -----

  /** Re-learning a flow never changes its owner and never shrinks its interval. */
  predicate Widens(identities: Identities, f: Flow, now: Timestamp) {
    Learnable(f, now) && f.flowId in identities ==>
      var i := identities[f.flowId];
      && i.clientIp == f.endpoints.clientIp.bits && i.clientMac == f.Mac()
      && f.firstSeen <= i.firstSeen && i.lastSeen <= f.lastSeen
  }

  predicate WidensAll(identities: Identities, flows: seq<Flow>, now: Timestamp)
    decreases |flows|
  {
    flows == [] ||
    (Widens(identities, flows[0], now) && WidensAll(LearnAll(identities, flows[..1], now), flows[1..], now))
  }

  lemma LearnOneKeepsAnchors(identities: Identities, f: Flow, now: Timestamp, o: Observation)
    requires Anchored(identities, o) && Widens(identities, f, now)
    ensures Anchored(LearnAll(identities, [f], now), o)
  {
    var a, b :| AnchoredBy(identities, o, a, b);
    assert [f][1..] == [];
    assert AnchoredBy(LearnAll(identities, [f], now), o, a, b);
  }

  lemma LearnSplits(identities: Identities, flows: seq<Flow>, now: Timestamp)
    requires flows != []
    ensures LearnAll(identities, flows, now) == LearnAll(LearnAll(identities, [flows[0]], now), flows[1..], now)
    ensures flows[..1] == [flows[0]]
  {}

  lemma {:induction false} LearningKeepsAnchors(identities: Identities, flows: seq<Flow>, now: Timestamp,
      o: Observation)
    requires Anchored(identities, o) && WidensAll(identities, flows, now)
    ensures Anchored(LearnAll(identities, flows, now), o)
    decreases |flows|
  {
    if flows != [] {
      LearnSplits(identities, flows, now);
      LearnOneKeepsAnchors(identities, flows[0], now, o);
      LearningKeepsAnchors(LearnAll(identities, [flows[0]], now), flows[1..], now, o);
    }
  }

  /** A step that widens identities if it learns any, and forgets none but the idle ones. */
  predicate Gentle(c: Cache, step: CacheStep) {
    && !step.ForgettingDevice? && !step.ForgettingRange?
    && (step.Learning? ==> WidensAll(LiveIdentities(c.identities, step.now), step.flows, step.now))
  }

  ghost predicate Brings(step: CacheStep, o: Observation) {
    exists j :: 0 <= j < |Ingests(step)| && Prepare(Ingests(step)[j]) == Some(o)
  }

  /** If the step brings the observation in, two devices claim it already, or it is over. */
  ghost predicate ArrivesContested(c: Cache, step: CacheStep, o: Observation) {
    Brings(step, o) ==> Anchored(c.identities, o) || IsExpired(o, step.now)
  }

  /** Gentle steps at any clocks, back and forth, that bring the observation in only while it is contested. */
  ghost predicate GentleRun(c: Cache, steps: seq<CacheStep>, o: Observation)
    decreases |steps|
  {
    steps == [] ||
    (Gentle(c, steps[0]) && ArrivesContested(c, steps[0], o) && GentleRun(Next(c, steps[0]), steps[1..], o))
  }

  /** For as long as it waits, two remembered devices claim it. */
  ghost predicate Guarded(c: Cache, o: Observation) { o in c.pending ==> Anchored(c.identities, o) }

  lemma {:induction false} ResolvableMember(pending: seq<Observation>, identities: Identities, now: Timestamp, m: Match)
    requires m in Resolvable(pending, identities, now)
    ensures !IsExpired(m.observation, now) && |Candidates(identities, m.observation)| == 1
    ensures m.observation in pending
    decreases |pending|
  {
    if pending != [] && m in Resolvable(pending[1..], identities, now) {
      ResolvableMember(pending[1..], identities, now, m);
    }
  }

  /** The purge of a step drops no anchor without dropping the observation at the same clock. */
  lemma ResolvedWhileAnchored(c: Cache, step: CacheStep, o: Observation)
    requires Guarded(c, o) && Gentle(c, step) && ArrivesContested(c, step, o) && Resolving(c, step).Some?
    ensures var r := Resolving(c, step).value;
            o in r.pending && !IsExpired(o, r.now) ==> Anchored(r.identities, o)
  {
    var r := Resolving(c, step).value;
    if o in r.pending && !IsExpired(o, r.now) {
      LivePendingMember(c.pending, r.now, o);
      if step.Collecting? && o !in Purge(c, r.now).pending {
        EnqueuedAre(Purge(c, r.now).pending, PrepareAll(step.observations), o);
        PreparedAre(step.observations, o);
        assert Ingests(step) == step.observations && Brings(step, o);
      }
      PurgeKeepsAnchors(c.identities, o, r.now);
      if step.Learning? {
        LearningKeepsAnchors(LiveIdentities(c.identities, r.now), step.flows, r.now, o);
      }
    }
  }

  lemma GuardedIsNotBound(c: Cache, step: CacheStep, o: Observation)
    requires Guarded(c, o) && Gentle(c, step) && ArrivesContested(c, step, o)
    ensures forall ev :: ev in Events(c, step) ==> ev.observation != o
  {
    forall ev | ev in Events(c, step) ensures ev.observation != o {
      var r := Resolving(c, step).value;
      var m :| m in Resolvable(r.pending, r.identities, r.now)
          && ev == Event(m.mac, m.observation, r.identities, r.now);
      ResolvableMember(r.pending, r.identities, r.now, m);
      ResolvedWhileAnchored(c, step, o);
      if m.observation == o {
        AnchoredIsAmbiguous(r.identities, o);
        AmbiguousIsNotSole(r.identities, o);
      }
    }
  }

  lemma NextIdentities(c: Cache, step: CacheStep)
    requires step.Collecting? || step.Learning? || step.Expiring?
    ensures Resolving(c, step).Some? ==> Next(c, step).identities == Resolving(c, step).value.identities
    ensures Resolving(c, step).None? ==>
              || Next(c, step).identities == c.identities
              || Next(c, step).identities == LiveIdentities(c.identities, ClockOf(step).value)
  {
    match step
    case Collecting(os, now) =>
      var purged := Purge(c, now).(pending := EnqueueAll(Purge(c, now).pending, PrepareAll(os)));
      AddMatchesKeep(purged.(pending := Unresolved(purged.pending, purged.identities, now)),
          Resolvable(purged.pending, purged.identities, now));
    case Learning(flows, now) =>
      var purged := Purge(c, now).(identities := LearnAll(Purge(c, now).identities, flows, now));
      AddMatchesKeep(purged.(pending := Unresolved(purged.pending, purged.identities, now)),
          Resolvable(purged.pending, purged.identities, now));
    case Expiring(now) =>
  }

  /** What a resolving step leaves waiting is not over. */
  lemma WaitsOn(c: Cache, step: CacheStep, o: Observation)
    requires Resolving(c, step).Some? && o in Next(c, step).pending
    ensures !IsExpired(o, Resolving(c, step).value.now)
  {
    var r := Resolving(c, step).value;
    var before := Purge(c, r.now).(pending := r.pending, identities := r.identities);
    var kept := Unresolved(r.pending, r.identities, r.now);
    AddMatchesKeep(before.(pending := kept), Resolvable(r.pending, r.identities, r.now));
    UnresolvedMember(r.pending, r.identities, r.now, o);
  }

  lemma GuardedStep(c: Cache, step: CacheStep, o: Observation)
    requires Guarded(c, o) && Gentle(c, step) && ArrivesContested(c, step, o)
    ensures Guarded(Next(c, step), o)
  {
    if o in Next(c, step).pending {
      NextPending(c, step, o);
      if Resolving(c, step).Some? {
        WaitsOn(c, step, o);
        ResolvedWhileAnchored(c, step, o);
        NextIdentities(c, step);
      } else if step.Expiring? {
        LivePendingMember(c.pending, step.now, o);
        PurgeKeepsAnchors(c.identities, o, step.now);
      } else if step.Requeueing? {
        RequeueKeepsBindings(c, step.bindings);
      }
    }
  }

  /** An observation that is anchored while it waits, and whenever it arrives, is never bound. */
  lemma {:induction false} GuardedStaysUnbound(c: Cache, steps: seq<CacheStep>, o: Observation)
    requires Guarded(c, o) && GentleRun(c, steps, o)
    ensures forall ev :: ev in Log(c, steps) ==> ev.observation != o
    decreases |steps|
  {
    if steps != [] {
      GuardedIsNotBound(c, steps[0], o);
      GuardedStep(c, steps[0], o);
      GuardedStaysUnbound(Next(c, steps[0]), steps[1..], o);
    }
  }

  /** Gentle steps, whatever they bring in. */
  ghost predicate AllGentle(c: Cache, steps: seq<CacheStep>)
    decreases |steps|
  {
    steps == [] || (Gentle(c, steps[0]) && AllGentle(Next(c, steps[0]), steps[1..]))
  }

  lemma {:induction false} NeverArrives(c: Cache, steps: seq<CacheStep>, o: Observation)
    requires AllGentle(c, steps) && !Ingested(steps, o)
    ensures GentleRun(c, steps, o)
    decreases |steps|
  {
    if steps != [] {
      forall i, j | 0 <= i < |steps[1..]| && 0 <= j < |Ingests(steps[1..][i])|
        ensures Prepare(Ingests(steps[1..][i])[j]) != Some(o)
      {
        assert steps[1..][i] == steps[i + 1];
      }
      NeverArrives(Next(c, steps[0]), steps[1..], o);
    }
  }

  /**
   * An observation inside the live identity intervals of two devices is never bound for as long as it waits, however
   * the loops run on with identities that only widen and no deletion that forgets identities. The clocks may go back:
   * each loop reads its own.
   */
  lemma ContestedIsNeverBound(c: Cache, steps: seq<CacheStep>, o: Observation, a: FlowId, b: FlowId)
    requires AllGentle(c, steps) && !Ingested(steps, o)
    requires o.pendingExpiresAt <= o.observedAt + MAX_PENDING_AGE_MS
    requires a in c.identities && b in c.identities && c.identities[a].clientMac != c.identities[b].clientMac
    requires Contains(c.identities[a], o) && Contains(c.identities[b], o)
    ensures forall ev :: ev in Log(c, steps) ==> ev.observation != o
  {
    ContainmentAnchors(c.identities, o, a, b);
    NeverArrives(c, steps, o);
    GuardedStaysUnbound(c, steps, o);
  }

  // ----- with clocks that do not go back -----

  function ClockOf(step: CacheStep): Option<Timestamp> {
    match step
    case Collecting(_, now) => Some(now)
    case Learning(_, now) => Some(now)
    case Expiring(now) => Some(now)
    case _ => None
  }

  function ClockAfter(clock: Timestamp, step: CacheStep): Timestamp {
    if ClockOf(step).Some? then ClockOf(step).value else clock
  }

  ghost predicate SteadyRun(c: Cache, clock: Timestamp, steps: seq<CacheStep>)
    decreases |steps|
  {
    steps == [] ||
    (Gentle(c, steps[0]) && ClockAfter(clock, steps[0]) >= clock
     && SteadyRun(Next(c, steps[0]), ClockAfter(clock, steps[0]), steps[1..]))
  }

  /** Either still claimed by two remembered devices, or over. */
  ghost predicate Hopeless(c: Cache, clock: Timestamp, o: Observation) {
    Anchored(c.identities, o) || IsExpired(o, clock)
  }

  lemma HopelessStep(c: Cache, clock: Timestamp, step: CacheStep, o: Observation)
    requires Hopeless(c, clock, o) && Gentle(c, step) && ClockAfter(clock, step) >= clock
    ensures Hopeless(Next(c, step), ClockAfter(clock, step), o)
  {
    if step.Requeueing? {
      RequeueKeepsBindings(c, step.bindings);
    }
    if ClockOf(step).Some? && !IsExpired(o, ClockOf(step).value) {
      var now := ClockOf(step).value;
      PurgeKeepsAnchors(c.identities, o, now);
      if step.Learning? {
        LearningKeepsAnchors(LiveIdentities(c.identities, now), step.flows, now, o);
      }
      NextIdentities(c, step);
    }
  }

  lemma {:induction false} HopelessIsContested(c: Cache, clock: Timestamp, steps: seq<CacheStep>, o: Observation)
    requires Hopeless(c, clock, o) && SteadyRun(c, clock, steps)
    ensures GentleRun(c, steps, o)
    decreases |steps|
  {
    if steps != [] {
      HopelessStep(c, clock, steps[0], o);
      HopelessIsContested(Next(c, steps[0]), ClockAfter(clock, steps[0]), steps[1..], o);
    }
  }

  /** With a clock that does not go back, not even an equal answer that arrives later is bound. */
  lemma ContestedForGood(c: Cache, clock: Timestamp, steps: seq<CacheStep>, o: Observation, a: FlowId, b: FlowId)
    requires SteadyRun(c, clock, steps)
    requires o.pendingExpiresAt <= o.observedAt + MAX_PENDING_AGE_MS
    requires a in c.identities && b in c.identities && c.identities[a].clientMac != c.identities[b].clientMac
    requires Contains(c.identities[a], o) && Contains(c.identities[b], o)
    ensures forall ev :: ev in Log(c, steps) ==> ev.observation != o
  {
    ContainmentAnchors(c.identities, o, a, b);
    HopelessIsContested(c, clock, steps, o);
    GuardedStaysUnbound(c, steps, o);
  }
}
