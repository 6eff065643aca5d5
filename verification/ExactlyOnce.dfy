/**
 * The effect of failed flushes, whatever the cache does between them: at-least-once delivery into an idempotent
 * ledger leaves the books of a run in which every flush succeeded at once.
 */
module ExactlyOnce {
  import opened Domain
  import opened Sequences
  import opened Ledger
  import opened LedgerInvariant
  import opened LedgerRuns
  import opened Timing
  import opened BatchLaws
  import opened DnsCache
  import opened DnsInvariant
  import opened DnsHistory
  import opened Delivery

  // ----- caches that differ in the queue of announcements only -----

  ghost predicate SameButQueue(c: Cache, d: Cache) {
    c.bindings == d.bindings && c.identities == d.identities && c.pending == d.pending
  }

  predicate Quiet(step: CacheStep) { !step.Draining? && !step.Requeueing? }

  lemma {:induction false} AddBindingsAside(c: Cache, d: Cache, mac: Mac, targets: seq<Address>, o: Observation)
    requires SameButQueue(c, d)
    ensures SameButQueue(AddBindings(c, mac, targets, o), AddBindings(d, mac, targets, o))
    decreases |targets|
  {
    if targets != [] {
      var key := Key(mac, targets[0]);
      AddBindingsAside(AddBinding(c, key, o), AddBinding(d, key, o), mac, targets[1..], o);
    }
  }

  lemma {:induction false} AddMatchesAside(c: Cache, d: Cache, matches: seq<Match>)
    requires SameButQueue(c, d)
    ensures SameButQueue(AddMatches(c, matches), AddMatches(d, matches))
    decreases |matches|
  {
    if matches != [] {
      var m := matches[0];
      AddBindingsAside(c, d, m.mac, m.observation.targets, m.observation);
      AddMatchesAside(AddBindings(c, m.mac, m.observation.targets, m.observation),
                      AddBindings(d, m.mac, m.observation.targets, m.observation), matches[1..]);
    }
  }

  lemma ResolvePendingAside(c: Cache, d: Cache, now: Timestamp)
    requires SameButQueue(c, d)
    ensures SameButQueue(ResolvePending(c, now), ResolvePending(d, now))
  {
    var kept := Unresolved(c.pending, c.identities, now);
    AddMatchesAside(c.(pending := kept), d.(pending := kept), Resolvable(c.pending, c.identities, now));
  }

  /** Nothing but the queue depends on the queue. */
  lemma NextAside(c: Cache, d: Cache, step: CacheStep)
    requires SameButQueue(c, d) && Quiet(step)
    ensures SameButQueue(Next(c, step), Next(d, step)) && Binds(c, step) == Binds(d, step)
  {
    match step {
      case Collecting(os, now) =>
        if PrepareAll(os) != [] {
          var pending := EnqueueAll(LivePending(c.pending, now), PrepareAll(os));
          ResolvePendingAside(Purge(c, now).(pending := pending), Purge(d, now).(pending := pending), now);
        }
      case Learning(flows, now) =>
        var identities := LearnAll(LiveIdentities(c.identities, now), flows, now);
        ResolvePendingAside(Purge(c, now).(identities := identities), Purge(d, now).(identities := identities), now);
      case Expiring(now) =>
      case ForgettingDevice(_) =>
      case ForgettingDomain(_, _) =>
      case ForgettingRange(_) =>
    }
  }

  // ----- who is queued after a step -----

  predicate AgreeOn(c: Cache, d: Cache, x: Binding) { x in c.resolved <==> x in d.resolved }

  /** Room for `n` more announcements in both queues. */
  predicate Roomy(c: Cache, d: Cache, n: nat) {
    |c.resolved| + n <= MAX_RESOLVED_BINDINGS && |d.resolved| + n <= MAX_RESOLVED_BINDINGS
  }

  lemma AddBindingAlike(c: Cache, d: Cache, key: Key, o: Observation, x: Binding, n: nat)
    requires SameButQueue(c, d) && AgreeOn(c, d, x) && Roomy(c, d, n + 1)
    ensures AgreeOn(AddBinding(c, key, o), AddBinding(d, key, o), x)
    ensures Roomy(AddBinding(c, key, o), AddBinding(d, key, o), n)
  {
    WithoutMember(c.resolved, key.mac, V4(key.target), x);
    WithoutMember(d.resolved, key.mac, V4(key.target), x);
    FilterLength((b: Binding) => !IsFor(b, key.mac, V4(key.target)), c.resolved);
    FilterLength((b: Binding) => !IsFor(b, key.mac, V4(key.target)), d.resolved);
  }

  lemma {:induction false} AddBindingsAlike(
      c: Cache, d: Cache, mac: Mac, targets: seq<Address>, o: Observation, x: Binding, n: nat)
    requires SameButQueue(c, d) && AgreeOn(c, d, x) && Roomy(c, d, n + |targets|)
    ensures AgreeOn(AddBindings(c, mac, targets, o), AddBindings(d, mac, targets, o), x)
    ensures Roomy(AddBindings(c, mac, targets, o), AddBindings(d, mac, targets, o), n)
    decreases |targets|
  {
    if targets != [] {
      var key := Key(mac, targets[0]);
      AddBindingAlike(c, d, key, o, x, n + |targets[1..]|);
      AddBindingsAlike(AddBinding(c, key, o), AddBinding(d, key, o), mac, targets[1..], o, x, n);
    }
  }

  lemma {:induction false} AddMatchesAlike(c: Cache, d: Cache, matches: seq<Match>, x: Binding)
    requires SameButQueue(c, d) && AgreeOn(c, d, x) && Roomy(c, d, Load(matches))
    ensures AgreeOn(AddMatches(c, matches), AddMatches(d, matches), x)
    decreases |matches|
  {
    if matches != [] {
      var m := matches[0];
      AddBindingsAside(c, d, m.mac, m.observation.targets, m.observation);
      AddBindingsAlike(c, d, m.mac, m.observation.targets, m.observation, x, Load(matches[1..]));
      AddMatchesAlike(AddBindings(c, m.mac, m.observation.targets, m.observation),
                      AddBindings(d, m.mac, m.observation.targets, m.observation), matches[1..], x);
    }
  }

  lemma PurgeAlike(c: Cache, d: Cache, now: Timestamp, x: Binding)
    requires SameButQueue(c, d) && AgreeOn(c, d, x)
    ensures AgreeOn(Purge(c, now), Purge(d, now), x)
    ensures |Purge(c, now).resolved| <= |c.resolved| && |Purge(d, now).resolved| <= |d.resolved|
  {
    FilterMember((b: Binding) => Outlasts(b, now), c.resolved, x);
    FilterMember((b: Binding) => Outlasts(b, now), d.resolved, x);
    FilterLength((b: Binding) => Outlasts(b, now), c.resolved);
    FilterLength((b: Binding) => Outlasts(b, now), d.resolved);
  }

  lemma ResolvingAlike(c: Cache, d: Cache, r: Resolution, x: Binding)
    requires SameButQueue(c, d) && AgreeOn(c, d, x) && Roomy(c, d, Load(Resolvable(r.pending, r.identities, r.now)))
    ensures AgreeOn(ResolvePending(BeforeResolving(c, r), r.now), ResolvePending(BeforeResolving(d, r), r.now), x)
  {
    PurgeAlike(c, d, r.now, x);
    var kept := Unresolved(r.pending, r.identities, r.now);
    AddMatchesAlike(BeforeResolving(c, r).(pending := kept), BeforeResolving(d, r).(pending := kept),
                    Resolvable(r.pending, r.identities, r.now), x);
  }

  /** Queues that agree on a binding agree on it after the step. */
  lemma NextAlike(c: Cache, d: Cache, step: CacheStep, x: Binding)
    requires SameButQueue(c, d) && Quiet(step) && AgreeOn(c, d, x) && HasRoom(c, step) && HasRoom(d, step)
    ensures AgreeOn(Next(c, step), Next(d, step), x)
  {
    match step {
      case Collecting(os, now) =>
        if PrepareAll(os) != [] {
          ResolvingAlike(c, d, Resolving(c, step).value, x);
        }
      case Learning(flows, now) => ResolvingAlike(c, d, Resolving(c, step).value, x);
      case Expiring(now) => PurgeAlike(c, d, now, x);
      case ForgettingDevice(mac) =>
        FilterMember((b: Binding) => b.clientMac != mac, c.resolved, x);
        FilterMember((b: Binding) => b.clientMac != mac, d.resolved, x);
      case ForgettingDomain(scope, domain) =>
        if domain.Some? && scope != Some(EMPTY) {
          var keep := (b: Binding) => b.attribution.domain != domain.value || !InScope(scope, b.clientMac);
          FilterMember(keep, c.resolved, x);
          FilterMember(keep, d.resolved, x);
        }
      case ForgettingRange(range) =>
        FilterMember((b: Binding) => !range.Contains(b.attribution.associatedAt), c.resolved, x);
        FilterMember((b: Binding) => !range.Contains(b.attribution.associatedAt), d.resolved, x);
    }
  }

  // ----- a step announces nothing it leaves alone -----

  lemma {:induction false} AddBindingsLeave(c: Cache, mac: Mac, targets: seq<Address>, o: Observation, x: Binding)
    requires x !in c.resolved && !(mac == x.clientMac && x.targetIp.V4? && x.targetIp.bits in targets)
    ensures x !in AddBindings(c, mac, targets, o).resolved
    decreases |targets|
  {
    if targets != [] {
      var key := Key(mac, targets[0]);
      assert targets[0] in targets;
      WithoutMember(c.resolved, key.mac, V4(key.target), x);
      assert x !in AddBinding(c, key, o).resolved;
      AddBindingsLeave(AddBinding(c, key, o), mac, targets[1..], o, x);
    }
  }

  lemma {:induction false} AddMatchesLeave(c: Cache, matches: seq<Match>, x: Binding)
    requires x !in c.resolved && Leaves(matches, x)
    ensures x !in AddMatches(c, matches).resolved
    decreases |matches|
  {
    if matches != [] {
      var m := matches[0];
      assert m in matches;
      AddBindingsLeave(c, m.mac, m.observation.targets, m.observation, x);
      AddMatchesLeave(AddBindings(c, m.mac, m.observation.targets, m.observation), matches[1..], x);
    }
  }

  lemma ResolvingLeaves(c: Cache, r: Resolution, x: Binding)
    requires x !in c.resolved && Leaves(Resolvable(r.pending, r.identities, r.now), x)
    ensures x !in ResolvePending(BeforeResolving(c, r), r.now).resolved
  {
    FilterMember((b: Binding) => Outlasts(b, r.now), c.resolved, x);
    var kept := Unresolved(r.pending, r.identities, r.now);
    AddMatchesLeave(BeforeResolving(c, r).(pending := kept), Resolvable(r.pending, r.identities, r.now), x);
  }

  lemma NextLeaves(c: Cache, step: CacheStep, x: Binding)
    requires Quiet(step) && x !in c.resolved && Leaves(Binds(c, step), x)
    ensures x !in Next(c, step).resolved
  {
    match step {
      case Collecting(os, now) =>
        if PrepareAll(os) != [] {
          ResolvingLeaves(c, Resolving(c, step).value, x);
        }
      case Learning(flows, now) => ResolvingLeaves(c, Resolving(c, step).value, x);
      case Expiring(now) => FilterMember((b: Binding) => Outlasts(b, now), c.resolved, x);
      case ForgettingDevice(mac) => FilterMember((b: Binding) => b.clientMac != mac, c.resolved, x);
      case ForgettingDomain(scope, domain) =>
        if domain.Some? && scope != Some(EMPTY) {
          FilterMember((b: Binding) => b.attribution.domain != domain.value
              || !InScope(scope, b.clientMac), c.resolved, x);
        }
      case ForgettingRange(range) =>
        FilterMember((b: Binding) => !range.Contains(b.attribution.associatedAt), c.resolved, x);
    }
  }

  // ----- a queue split into what is in flight and what is not -----

  /** `u` has queued what `a` has queued and, besides, what is in flight. */
  ghost predicate Splits(u: Cache, a: Cache, inFlight: seq<Binding>) {
    && SameButQueue(u, a) && Valid(u) && Valid(a) && DistinctQueue(inFlight)
    && (forall x :: x in u.resolved <==> x in a.resolved || x in inFlight)
    && (forall x :: x in inFlight ==> x !in a.resolved)
  }

  function Elements(q: seq<Binding>): set<Binding> { set x | x in q }

  lemma {:induction false} DistinctCount(q: seq<Binding>)
    requires DistinctQueue(q)
    ensures |Elements(q)| == |q|
    decreases |q|
  {
    if q != [] {
      var rest := q[1..];
      assert q == [q[0]] + rest;
      forall i, j | 0 <= i < j < |rest| ensures DifferentTargets(rest[i], rest[j]) {
        assert DifferentTargets(q[i + 1], q[j + 1]);
      }
      DistinctCount(rest);
      forall i | 0 <= i < |rest| ensures rest[i] != q[0] {
        assert DifferentTargets(q[0], q[i + 1]);
      }
      assert Elements(q) == {q[0]} + Elements(rest);
    }
  }

  lemma SplitLengths(u: Cache, a: Cache, inFlight: seq<Binding>)
    requires Splits(u, a, inFlight)
    ensures |u.resolved| == |a.resolved| + |inFlight|
  {
    DistinctCount(u.resolved);
    DistinctCount(a.resolved);
    DistinctCount(inFlight);
    assert Elements(u.resolved) == Elements(a.resolved) + Elements(inFlight);
    assert Elements(a.resolved) !! Elements(inFlight);
  }

  lemma SplitStep(u: Cache, a: Cache, inFlight: seq<Binding>, step: CacheStep)
    requires Splits(u, a, inFlight) && Quiet(step) && HasRoom(u, step)
    requires forall b :: b in inFlight ==> Untouched(u, step, b)
    ensures Splits(Next(u, step), Next(a, step), inFlight)
  {
    var v, d := Next(u, step), Next(a, step);
    NextAside(u, a, step);
    NextValid(u, step);
    NextValid(a, step);
    SplitLengths(u, a, inFlight);
    forall x ensures x in v.resolved <==> x in d.resolved || x in inFlight ensures x in inFlight ==> x !in d.resolved {
      if x in inFlight {
        assert Untouched(u, step, x);
        NextSpares(u, step, x);
        NextLeaves(a, step, x);
      } else {
        NextAlike(u, a, step, x);
      }
    }
  }

  predicate AllQuiet(steps: seq<CacheStep>) { forall step :: step in steps ==> Quiet(step) }

  ghost predicate UntouchedAlong(c: Cache, steps: seq<CacheStep>, b: Binding)
    decreases |steps|
  {
    steps == [] || (Untouched(c, steps[0], b) && UntouchedAlong(Next(c, steps[0]), steps[1..], b))
  }

  ghost predicate RoomAlong(c: Cache, steps: seq<CacheStep>)
    decreases |steps|
  {
    steps == [] || (HasRoom(c, steps[0]) && RoomAlong(Next(c, steps[0]), steps[1..]))
  }

  /** What is in flight stays apart from what is queued meanwhile, as long as it is left untouched. */
  lemma {:induction false} SplitRun(u: Cache, a: Cache, inFlight: seq<Binding>, steps: seq<CacheStep>)
    requires Splits(u, a, inFlight) && AllQuiet(steps) && RoomAlong(u, steps)
    requires forall b :: b in inFlight ==> UntouchedAlong(u, steps, b)
    ensures Splits(RunCache(u, steps), RunCache(a, steps), inFlight)
    ensures forall b :: b in inFlight ==> Current(u.bindings, b) ==> Current(RunCache(a, steps).bindings, b)
    decreases |steps|
  {
    if steps != [] {
      assert steps[0] in steps;
      forall b | b in inFlight ensures Untouched(u, steps[0], b) && UntouchedAlong(Next(u, steps[0]), steps[1..], b) {
        assert UntouchedAlong(u, steps, b);
      }
      SplitStep(u, a, inFlight, steps[0]);
      SplitRun(Next(u, steps[0]), Next(a, steps[0]), inFlight, steps[1..]);
    }
  }

  lemma DrainSplits(u: Cache, a: Cache)
    requires Splits(u, a, [])
    ensures Splits(u, Drained(a), a.resolved)
    ensures forall b :: b in a.resolved ==> Current(u.bindings, b)
  {}

  /** A failed batch whose bindings are untouched goes back in full: the queue is what it would be without the flush. */
  lemma RequeueJoins(u: Cache, a: Cache, inFlight: seq<Binding>)
    requires Splits(u, a, inFlight)
    ensures Splits(u, Requeue(a, inFlight), [])
  {
    SplitLengths(u, a, inFlight);
    forall b | b in inFlight ensures Current(a.bindings, b) && Announced(b) {
      assert b in u.resolved && Current(u.bindings, b);
    }
    RequeueValid(a, inFlight);
    RequeueKeepsBindings(a, inFlight);
    forall x ensures x in Requeue(a, inFlight).resolved <==> x in u.resolved {
      RequeueExactly(a, inFlight, x);
    }
  }

  // ----- attempts -----

  /** A flush that fails, with what the cache does while the batch is in flight and what it does afterwards. */
  datatype Attempt = Attempt(during: seq<CacheStep>, after: seq<CacheStep>)

  function Steps(attempts: seq<Attempt>): seq<CacheStep>
    decreases |attempts|
  {
    if attempts == [] then [] else (attempts[0].during + attempts[0].after) + Steps(attempts[1..])
  }

  function OnCaches(steps: seq<CacheStep>): seq<Action> {
    seq(|steps|, i requires 0 <= i < |steps| => OnCache(steps[i]))
  }

  function Failing(t: Thread, attempts: seq<Attempt>): seq<Action>
    decreases |attempts|
  {
    if attempts == [] then []
    else
      var a := attempts[0];
      ([StartFlush(t)] + OnCaches(a.during) + [FailFlush(t)] + OnCaches(a.after)) + Failing(t, attempts[1..])
  }

  /** Whatever is in flight during an attempt is left untouched until the attempt has failed. */
  ghost predicate UntouchedInFlight(c: Cache, attempts: seq<Attempt>)
    decreases |attempts|
  {
    attempts == [] ||
    (var a := attempts[0];
     (forall b :: b in c.resolved ==> UntouchedAlong(c, a.during, b)) &&
     UntouchedInFlight(RunCache(c, a.during + a.after), attempts[1..]))
  }

  lemma {:induction false} RunSystemConcat(s: System, first: seq<Action>, second: seq<Action>)
    ensures RunSystem(s, first + second) == RunSystem(RunSystem(s, first), second)
    decreases |first|
  {
    if first == [] {
      assert first + second == second;
    } else {
      assert (first + second)[1..] == first[1..] + second;
      RunSystemConcat(Perform(s, first[0]), first[1..], second);
    }
  }

  lemma {:induction false} OnCachesRun(s: System, steps: seq<CacheStep>)
    ensures RunSystem(s, OnCaches(steps)) == s.(cache := RunCache(s.cache, steps))
    decreases |steps|
  {
    if steps != [] {
      assert OnCaches(steps)[1..] == OnCaches(steps[1..]);
      OnCachesRun(Perform(s, OnCache(steps[0])), steps[1..]);
    }
  }

  lemma {:induction false} RunCacheConcat(c: Cache, first: seq<CacheStep>, second: seq<CacheStep>)
    ensures RunCache(c, first + second) == RunCache(RunCache(c, first), second)
    ensures RoomAlong(c, first + second) <==> RoomAlong(c, first) && RoomAlong(RunCache(c, first), second)
    decreases |first|
  {
    if first == [] {
      assert first + second == second;
    } else {
      assert (first + second)[1..] == first[1..] + second;
      RunCacheConcat(Next(c, first[0]), first[1..], second);
    }
  }

  lemma {:induction false} EnabledRunConcat(owner: Owner, s: System, first: seq<Action>, second: seq<Action>)
    ensures EnabledRun(owner, s, first + second)
       <==> EnabledRun(owner, s, first) && EnabledRun(owner, RunSystem(s, first), second)
    decreases |first|
  {
    if first == [] {
      assert first + second == second;
    } else {
      assert (first + second)[1..] == first[1..] + second;
      EnabledRunConcat(owner, Perform(s, first[0]), first[1..], second);
    }
  }

  lemma OneAction(s: System, a: Action)
    ensures RunSystem(s, [a]) == Perform(s, a)
  {
    assert [a][1..] == [];
    assert RunSystem(Perform(s, a), []) == Perform(s, a);
  }

  function OneFailure(t: Thread, a: Attempt): seq<Action> {
    [StartFlush(t)] + OnCaches(a.during) + [FailFlush(t)] + OnCaches(a.after)
  }

  lemma OneFailureRuns(s: System, t: Thread, a: Attempt)
    requires t !in s.inFlight
    ensures var failed := Requeue(RunCache(Drained(s.cache), a.during), s.cache.resolved);
            RunSystem(s, OneFailure(t, a)) == s.(cache := RunCache(failed, a.after))
  {
    var started := Perform(s, StartFlush(t));
    var flying := started.(cache := RunCache(started.cache, a.during));
    var start := [StartFlush(t)];
    RunSystemConcat(s, start + OnCaches(a.during) + [FailFlush(t)], OnCaches(a.after));
    RunSystemConcat(s, start + OnCaches(a.during), [FailFlush(t)]);
    RunSystemConcat(s, start, OnCaches(a.during));
    OneAction(s, StartFlush(t));
    OnCachesRun(started, a.during);
    OneAction(flying, FailFlush(t));
    LandedAgain(s.inFlight, t, s.cache.resolved);
    OnCachesRun(Perform(flying, FailFlush(t)), a.after);
  }

  /** One failed attempt: no trace in the ledger, and the queue holds what it would hold without the flush. */
  lemma OneFailureIsInvisible(s: System, u: Cache, t: Thread, a: Attempt)
    requires Splits(u, s.cache, []) && t !in s.inFlight
    requires AllQuiet(a.during + a.after) && RoomAlong(u, a.during + a.after)
    requires forall b :: b in u.resolved ==> UntouchedAlong(u, a.during, b)
    ensures var e := RunSystem(s, OneFailure(t, a));
            && e.ledger == s.ledger && e.inFlight == s.inFlight
            && Splits(RunCache(u, a.during + a.after), e.cache, [])
  {
    RunCacheConcat(u, a.during, a.after);
    OneFailureRuns(s, t, a);
    DrainSplits(u, s.cache);
    assert forall step :: step in a.during || step in a.after ==> step in a.during + a.after;
    SplitRun(u, Drained(s.cache), s.cache.resolved, a.during);
    RequeueJoins(RunCache(u, a.during), RunCache(Drained(s.cache), a.during), s.cache.resolved);
    SplitRun(RunCache(u, a.during), Requeue(RunCache(Drained(s.cache), a.during), s.cache.resolved), [], a.after);
  }

  /**
   * Failed flushes are invisible whatever the cache does meanwhile: if what is in flight is left untouched, the
   * ledger stays as it was and the queue holds the announcements of a run without any flush.
   */
  lemma {:induction false} FailuresAreInvisible(s: System, u: Cache, t: Thread, attempts: seq<Attempt>)
    requires Splits(u, s.cache, []) && t !in s.inFlight
    requires AllQuiet(Steps(attempts)) && RoomAlong(u, Steps(attempts)) && UntouchedInFlight(u, attempts)
    ensures var e := RunSystem(s, Failing(t, attempts));
            && e.ledger == s.ledger && e.inFlight == s.inFlight
            && Splits(RunCache(u, Steps(attempts)), e.cache, [])
    decreases |attempts|
  {
    if attempts != [] {
      var a, rest := attempts[0], attempts[1..];
      var steps := a.during + a.after;
      assert forall step :: step in steps || step in Steps(rest) ==> step in Steps(attempts);
      RunCacheConcat(u, steps, Steps(rest));
      OneFailureIsInvisible(s, u, t, a);
      RunSystemConcat(s, OneFailure(t, a), Failing(t, rest));
      FailuresAreInvisible(RunSystem(s, OneFailure(t, a)), RunCache(u, steps), t, rest);
    }
  }

  // ----- the join -----

  /** Every flush but the last fails. */
  function Delayed(t: Thread, attempts: seq<Attempt>, late: seq<Work>): seq<Action> {
    Failing(t, attempts) + [StartFlush(t), CommitFlush(t, late)]
  }

  /** The first flush succeeds at once, and one more after the same steps of the cache. */
  function Prompt(t: Thread, attempts: seq<Attempt>, first: seq<Work>, second: seq<Work>): seq<Action> {
    [StartFlush(t), CommitFlush(t, first)] + (OnCaches(Steps(attempts)) + [StartFlush(t), CommitFlush(t, second)])
  }

  lemma FlushRuns(owner: Owner, s: System, t: Thread, work: seq<Work>)
    requires t !in s.inFlight && EnabledRun(owner, s, [StartFlush(t), CommitFlush(t, work)])
    ensures Carries(work, s.cache.resolved) && FaithfulWork(s.ledger, work)
    ensures RunSystem(s, [StartFlush(t), CommitFlush(t, work)])
         == s.(ledger := Apply(s.ledger, Backfill(work)), cache := Drained(s.cache))
  {
    var started := Perform(s, StartFlush(t));
    var flush := [StartFlush(t), CommitFlush(t, work)];
    assert flush[1..] == [CommitFlush(t, work)];
    OneAction(started, CommitFlush(t, work));
    LandedAgain(s.inFlight, t, s.cache.resolved);
  }

  lemma CarriedIsDelivered(work: seq<Work>, bindings: seq<Binding>)
    requires Carries(work, bindings)
    ensures forall b :: Delivers(work, b) <==> b in bindings
  {
    forall b ensures Delivers(work, b) <==> b in bindings {
      if b in bindings {
        var i :| 0 <= i < |bindings| && bindings[i] == b;
        assert work[i].binding == b;
      }
    }
  }

  lemma SplitTargetsDiffer(u: Cache, a: Cache, inFlight: seq<Binding>, first: seq<Work>, second: seq<Work>)
    requires Splits(u, a, inFlight) && Carries(first, inFlight) && Carries(second, a.resolved)
    ensures DistinctTargets(first + second)
  {
    CarriedTargetsDiffer(first, inFlight);
    CarriedTargetsDiffer(second, a.resolved);
    forall i, j | 0 <= i < |first| && 0 <= j < |second| ensures !SameTarget(first[i].binding, second[j].binding) {
      var x, y := inFlight[i], a.resolved[j];
      assert x in inFlight && y in a.resolved && x in u.resolved && y in u.resolved;
      var k :| 0 <= k < |u.resolved| && u.resolved[k] == x;
      var l :| 0 <= l < |u.resolved| && u.resolved[l] == y;
      assert DifferentTargets(u.resolved[if k < l then k else l], u.resolved[if k < l then l else k]);
    }
  }

  /**
   * Exactly once in effect: any number of failed attempts, with any steps of the cache during and after each,
   * followed by a flush that succeeds, leaves the books, the cache and the batches in flight of the run in which
   * the first flush succeeded. What is in flight must be left untouched until its attempt has failed, what the
   * first flush drained until the end, and the queue must have room.
   */
  lemma FailuresHaveNoEffect(
      owner: Owner, s: System, t: Thread, attempts: seq<Attempt>,
      late: seq<Work>, first: seq<Work>, second: seq<Work>)
    requires Sound(owner, s) && t !in s.inFlight
    requires AllQuiet(Steps(attempts)) && RoomAlong(s.cache, Steps(attempts)) && UntouchedInFlight(s.cache, attempts)
    requires forall b :: b in s.cache.resolved ==> UntouchedAlong(s.cache, Steps(attempts), b)
    requires EnabledRun(owner, s, Delayed(t, attempts, late))
    requires EnabledRun(owner, s, Prompt(t, attempts, first, second))
    ensures var delayed, prompt := RunSystem(s, Delayed(t, attempts, late)),
        RunSystem(s, Prompt(t, attempts, first, second));
            && SameBooks(prompt.ledger, delayed.ledger)
            && prompt.cache == delayed.cache && prompt.inFlight == delayed.inFlight
  {
    var steps := Steps(attempts);
    var u := RunCache(s.cache, steps);
    var failed := DelayedRuns(owner, s, t, attempts, late);
    var behind := PromptRuns(owner, s, t, attempts, first, second);
    DrainSplits(s.cache, s.cache);
    SplitRun(s.cache, Drained(s.cache), s.cache.resolved, steps);
    SplitTargetsDiffer(u, behind, s.cache.resolved, first, second);
    CarriedTargetsDiffer(late, failed);
    CarriedIsDelivered(first, s.cache.resolved);
    CarriedIsDelivered(second, behind.resolved);
    CarriedIsDelivered(late, failed);
    RetryEqualsTimely(owner, s.ledger, first, second, late);
  }

  lemma DelayedRuns(owner: Owner, s: System, t: Thread, attempts: seq<Attempt>, late: seq<Work>)
      returns (queue: seq<Binding>)
    requires Sound(owner, s) && t !in s.inFlight
    requires AllQuiet(Steps(attempts)) && RoomAlong(s.cache, Steps(attempts)) && UntouchedInFlight(s.cache, attempts)
    requires EnabledRun(owner, s, Delayed(t, attempts, late))
    ensures Carries(late, queue) && FaithfulWork(s.ledger, late) && DistinctQueue(queue)
    ensures var u := RunCache(s.cache, Steps(attempts));
            && (forall x :: x in queue <==> x in u.resolved)
            && RunSystem(s, Delayed(t, attempts, late))
               == s.(ledger := Apply(s.ledger, Backfill(late)), cache := Drained(u))
  {
    var flush := [StartFlush(t), CommitFlush(t, late)];
    FailuresAreInvisible(s, s.cache, t, attempts);
    RunSystemConcat(s, Failing(t, attempts), flush);
    EnabledRunConcat(owner, s, Failing(t, attempts), flush);
    var e := RunSystem(s, Failing(t, attempts));
    FlushRuns(owner, e, t, late);
    queue := e.cache.resolved;
  }

  lemma PromptRuns(owner: Owner, s: System, t: Thread, attempts: seq<Attempt>, first: seq<Work>, second: seq<Work>)
    returns (behind: Cache)
    requires Sound(owner, s) && t !in s.inFlight && EnabledRun(owner, s, Prompt(t, attempts, first, second))
    ensures behind == RunCache(Drained(s.cache), Steps(attempts))
    ensures Carries(first, s.cache.resolved) && FaithfulWork(s.ledger, first)
    ensures Carries(second, behind.resolved) && FaithfulWork(s.ledger, second)
    ensures BackfillAll(s.ledger, first).Ok?
    ensures RunSystem(s, Prompt(t, attempts, first, second))
         == s.(ledger := Apply(BackfillAll(s.ledger, first).value.state, Backfill(second)), cache := Drained(behind))
  {
    var one, two := [StartFlush(t), CommitFlush(t, first)], [StartFlush(t), CommitFlush(t, second)];
    var middle := OnCaches(Steps(attempts));
    RunSystemConcat(s, one, middle + two);
    EnabledRunConcat(owner, s, one, middle + two);
    FlushRuns(owner, s, t, first);
    BackfillAllCoherent(owner, s.ledger, first);
    var flushed := RunSystem(s, one);
    RunSystemConcat(flushed, middle, two);
    EnabledRunConcat(owner, flushed, middle, two);
    OnCachesRun(flushed, Steps(attempts));
    behind := RunCache(Drained(s.cache), Steps(attempts));
    FlushRuns(owner, RunSystem(flushed, middle), t, second);
    SameRowsFaithful(flushed.ledger, s.ledger, second);
  }
}
