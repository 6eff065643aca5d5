/**
 * The loop that joins cache and ledger (src/main.rs:261-280): drain, backfill, requeue on failure. Threads
 * interleave at the granularity of locked cache operations and ledger transactions.
 */
module Delivery {
  import opened Domain
  import opened Sequences
  import opened Ledger
  import opened LedgerInvariant
  import opened LedgerRuns
  import opened Timing
  import opened BatchLaws
  import DnsCache
  import DnsInvariant
  import DnsHistory

  type Thread = nat

  datatype System = System(ledger: State, cache: DnsCache.Cache, inFlight: map<Thread, seq<Binding>>)

  datatype Action =
    | OnCache(cacheStep: DnsCache.CacheStep)
    | OnLedger(step: Step)
    | StartFlush(thread: Thread)
    | CommitFlush(thread: Thread, work: seq<Work>)
    | FailFlush(thread: Thread)

  ghost predicate Enabled(owner: Owner, s: System, a: Action) {
    match a
    case OnCache(step) => !step.Draining? && !step.Requeueing?
    case OnLedger(step) => !step.Backfill? && Legal(owner, s.ledger, step)
    case StartFlush(t) => t !in s.inFlight
    case CommitFlush(t, work) => t in s.inFlight && Carries(work, s.inFlight[t]) && FaithfulWork(s.ledger, work)
    case FailFlush(t) => t in s.inFlight
  }

  ghost function Perform(s: System, a: Action): System {
    match a
    case OnCache(step) => s.(cache := DnsCache.Next(s.cache, step))
    case OnLedger(step) => s.(ledger := Apply(s.ledger, step))
    case StartFlush(t) => s.(cache := DnsCache.Drained(s.cache), inFlight := s.inFlight[t := s.cache.resolved])
    case CommitFlush(t, work) => s.(ledger := Apply(s.ledger, Backfill(work)), inFlight := s.inFlight - {t})
    case FailFlush(t) =>
      s.(cache := if t in s.inFlight then DnsCache.Requeue(s.cache, s.inFlight[t]) else s.cache,
         inFlight := s.inFlight - {t})
  }

  ghost function RunSystem(s: System, actions: seq<Action>): System
    decreases |actions|
  {
    if actions == [] then s else RunSystem(Perform(s, actions[0]), actions[1..])
  }

  ghost predicate EnabledRun(owner: Owner, s: System, actions: seq<Action>)
    decreases |actions|
  {
    actions == [] || (Enabled(owner, s, actions[0]) && EnabledRun(owner, Perform(s, actions[0]), actions[1..]))
  }

  // ----- what every interleaving keeps -----

  /** A batch as a drain hands it out. */
  ghost predicate Deliverable(bindings: seq<Binding>) {
    DnsInvariant.DistinctQueue(bindings) && forall b :: b in bindings ==> DnsInvariant.Announced(b)
  }

  ghost predicate Sound(owner: Owner, s: System) {
    && Coherent(owner, s.ledger)
    && DnsInvariant.Valid(s.cache)
    && forall t :: t in s.inFlight ==> Deliverable(s.inFlight[t])
  }

  lemma QueueIsDeliverable(c: DnsCache.Cache)
    requires DnsInvariant.Valid(c)
    ensures Deliverable(c.resolved)
  {}

  lemma PerformSound(owner: Owner, s: System, a: Action)
    requires Sound(owner, s) && Enabled(owner, s, a)
    ensures Sound(owner, Perform(s, a))
  {
    match a
    case OnCache(step) => DnsInvariant.NextValid(s.cache, step);
    case OnLedger(step) => StepCoherent(owner, s.ledger, step);
    case StartFlush(t) =>
      QueueIsDeliverable(s.cache);
      DnsInvariant.NextValid(s.cache, DnsCache.Draining);
    case CommitFlush(t, work) => StepCoherent(owner, s.ledger, Backfill(work));
    case FailFlush(t) => DnsInvariant.RequeueValid(s.cache, s.inFlight[t]);
  }

  lemma {:induction false} EverySystemIsSound(owner: Owner, s: System, actions: seq<Action>)
    requires Sound(owner, s) && EnabledRun(owner, s, actions)
    ensures Sound(owner, RunSystem(s, actions))
    decreases |actions|
  {
    if actions != [] {
      PerformSound(owner, s, actions[0]);
      EverySystemIsSound(owner, Perform(s, actions[0]), actions[1..]);
    }
  }

  lemma CarriedTargetsDiffer(work: seq<Work>, bindings: seq<Binding>)
    requires Carries(work, bindings) && DnsInvariant.DistinctQueue(bindings)
    ensures DistinctTargets(work)
  {}

  /** In every reachable system a drained batch commits: the books never refuse it, and it settles each binding. */
  lemma FlushNeverFailsOnBooks(owner: Owner, s: System, actions: seq<Action>, t: Thread, work: seq<Work>)
    requires Sound(owner, s) && EnabledRun(owner, s, actions)
    requires Enabled(owner, RunSystem(s, actions), CommitFlush(t, work))
    ensures var now := RunSystem(s, actions);
            && BackfillAll(now.ledger, work).Ok?
            && (forall i :: 0 <= i < |work| ==> Settled(Perform(now, CommitFlush(t, work)).ledger, work[i].binding))
  {
    EverySystemIsSound(owner, s, actions);
    var now := RunSystem(s, actions);
    BackfillAllCoherent(owner, now.ledger, work);
    assert Deliverable(now.inFlight[t]);
    CarriedTargetsDiffer(work, now.inFlight[t]);
    forall i | 0 <= i < |work| ensures Settled(Perform(now, CommitFlush(t, work)).ledger, work[i].binding) {
      DeliveredIsSettled(owner, now.ledger, work, i);
    }
  }

  // ----- requeueing -----

  lemma StillUniqueIsCurrent(bindings: DnsCache.Bindings, b: Binding)
    requires DnsInvariant.Announced(b)
    ensures DnsCache.StillUnique(bindings, b) <==> DnsInvariant.Current(bindings, b)
  {}

  lemma RequeueOneExactly(c: DnsCache.Cache, b: Binding, x: Binding)
    requires DnsInvariant.Valid(c) && DnsInvariant.Announced(b) && |c.resolved| < DnsCache.MAX_RESOLVED_BINDINGS
    ensures var d := DnsCache.RequeueOne(c, b);
            && (x in d.resolved <==> x in c.resolved || (x == b && DnsInvariant.Current(c.bindings, b)))
            && |d.resolved| <= |c.resolved| + 1
  {
    StillUniqueIsCurrent(c.bindings, b);
    if DnsInvariant.Current(c.bindings, b) {
      var others := DnsCache.Without(c.resolved, b.clientMac, b.targetIp);
      DnsInvariant.WithoutMember(c.resolved, b.clientMac, b.targetIp, x);
      DnsInvariant.WithoutDistinct(c.resolved, b.clientMac, b.targetIp);
      if x in c.resolved && DnsCache.IsFor(x, b.clientMac, b.targetIp) {
        assert DnsInvariant.Current(c.bindings, x);
        assert x == b;
      }
    }
  }

  /**
   * A failed batch goes back exactly as far as it is still true: besides what is queued already, the queue
   * gains each binding whose key is still held by that sole entry. Capacity eviction aside.
   */
  lemma {:induction false} RequeueExactly(c: DnsCache.Cache, bs: seq<Binding>, x: Binding)
    requires DnsInvariant.Valid(c) && (forall b :: b in bs ==> DnsInvariant.Announced(b))
    requires |c.resolved| + |bs| <= DnsCache.MAX_RESOLVED_BINDINGS
    ensures x in DnsCache.Requeue(c, bs).resolved <==>
              x in c.resolved || (x in bs && DnsInvariant.Current(c.bindings, x))
    decreases |bs|
  {
    if bs != [] {
      assert bs[0] in bs && bs == [bs[0]] + bs[1..];
      RequeueOneExactly(c, bs[0], x);
      assert [bs[0]][1..] == [];
      assert DnsCache.Requeue(c, [bs[0]]) == DnsCache.RequeueOne(c, bs[0]);
      DnsInvariant.RequeueValid(c, [bs[0]]);
      RequeueExactly(DnsCache.RequeueOne(c, bs[0]), bs[1..], x);
    }
  }

  lemma {:induction false} RequeueRebuilds(c: DnsCache.Cache, front: seq<Binding>, back: seq<Binding>)
    requires DnsInvariant.DistinctQueue(front + back) && |front + back| <= DnsCache.MAX_RESOLVED_BINDINGS
    requires forall b :: b in back ==> DnsInvariant.Current(c.bindings, b)
    ensures DnsCache.Requeue(c.(resolved := front), back) == c.(resolved := front + back)
    decreases |back|
  {
    if back == [] {
      assert front + back == front;
    } else {
      var b := back[0];
      assert b in back && DnsCache.StillUnique(c.bindings, b);
      forall x | x in front ensures !DnsCache.IsFor(x, b.clientMac, b.targetIp) {
        var i :| 0 <= i < |front| && front[i] == x;
        assert DnsInvariant.DifferentTargets((front + back)[i], (front + back)[|front|]);
      }
      FilterAll((x: Binding) => !DnsCache.IsFor(x, b.clientMac, b.targetIp), front);
      assert (front + [b]) + back[1..] == front + back;
      RequeueRebuilds(c, front + [b], back[1..]);
    }
  }

  lemma RequeueUndoesDrain(c: DnsCache.Cache)
    requires DnsInvariant.Valid(c)
    ensures DnsCache.Requeue(DnsCache.Drained(c), c.resolved) == c
  {
    assert [] + c.resolved == c.resolved;
    RequeueRebuilds(c, [], c.resolved);
    assert c.(resolved := c.resolved) == c;
  }

  lemma LandedAgain<V>(m: map<Thread, V>, t: Thread, v: V)
    requires t !in m
    ensures m[t := v] - {t} == m
  {}

  /** A flush that fails with nothing in between leaves the whole system as it was. */
  lemma FailedFlushIsInvisible(owner: Owner, s: System, t: Thread)
    requires Sound(owner, s) && t !in s.inFlight
    ensures Perform(Perform(s, StartFlush(t)), FailFlush(t)) == s
  {
    RequeueUndoesDrain(s.cache);
    LandedAgain(s.inFlight, t, s.cache.resolved);
    var started := Perform(s, StartFlush(t));
    assert started == s.(cache := DnsCache.Drained(s.cache), inFlight := s.inFlight[t := s.cache.resolved]);
  }

  /** Any number of failed attempts before a successful one are invisible too. */
  function Attempts(t: Thread, n: nat): seq<Action> {
    if n == 0 then [] else [StartFlush(t), FailFlush(t)] + Attempts(t, n - 1)
  }

  lemma {:induction false} RetriesAreInvisible(owner: Owner, s: System, t: Thread, n: nat, rest: seq<Action>)
    requires Sound(owner, s) && t !in s.inFlight
    ensures RunSystem(s, Attempts(t, n) + rest) == RunSystem(s, rest)
    decreases n
  {
    if n == 0 {
      assert Attempts(t, n) + rest == rest;
    } else {
      var again := Attempts(t, n - 1) + rest;
      var all := Attempts(t, n) + rest;
      assert all == [StartFlush(t), FailFlush(t)] + again;
      assert all[0] == StartFlush(t) && all[1..][0] == FailFlush(t) && all[1..][1..] == again;
      FailedFlushIsInvisible(owner, s, t);
      RetriesAreInvisible(owner, s, t, n - 1, rest);
    }
  }

  // ----- nothing true is lost -----

  /** Queued, or drained and not yet committed. */
  ghost predicate Tracked(s: System, b: Binding) {
    b in s.cache.resolved || exists t :: t in s.inFlight && b in s.inFlight[t]
  }

  /** How many announcements a resolution can make. */
  function Load(matches: seq<DnsCache.Match>): nat
    decreases |matches|
  {
    if matches == [] then 0 else |matches[0].observation.targets| + Load(matches[1..])
  }

  ghost predicate Leaves(matches: seq<DnsCache.Match>, b: Binding) {
    forall m :: m in matches ==> !(m.mac == b.clientMac && b.targetIp.V4? && b.targetIp.bits in m.observation.targets)
  }

  /** The matches a cache step binds. */
  ghost function Binds(c: DnsCache.Cache, step: DnsCache.CacheStep): seq<DnsCache.Match> {
    match DnsHistory.Resolving(c, step)
    case None => []
    case Some(r) => DnsCache.Resolvable(r.pending, r.identities, r.now)
  }

  /** The step neither refreshes, contradicts, expires nor purges the binding. */
  ghost predicate Untouched(c: DnsCache.Cache, step: DnsCache.CacheStep, b: Binding) {
    Leaves(Binds(c, step), b) && DnsInvariant.Current(DnsCache.Next(c, step).bindings, b)
  }

  /** The queue has room for whatever the step announces. */
  ghost predicate HasRoom(c: DnsCache.Cache, step: DnsCache.CacheStep) {
    |c.resolved| + Load(Binds(c, step)) <= DnsCache.MAX_RESOLVED_BINDINGS
  }

  /** The action leaves the binding untouched and overflows no queue. */
  ghost predicate Spares(s: System, a: Action, b: Binding) {
    match a
    case OnCache(step) => Untouched(s.cache, step, b) && HasRoom(s.cache, step)
    case FailFlush(t) => t in s.inFlight ==> |s.cache.resolved| + |s.inFlight[t]| <= DnsCache.MAX_RESOLVED_BINDINGS
    case _ => true
  }

  ghost predicate SparesRun(s: System, actions: seq<Action>, b: Binding)
    decreases |actions|
  {
    actions == [] || (Spares(s, actions[0], b) && SparesRun(Perform(s, actions[0]), actions[1..], b))
  }

  /** Some flush of the run commits the binding. */
  ghost predicate Delivered(actions: seq<Action>, b: Binding) {
    exists i :: 0 <= i < |actions| && actions[i].CommitFlush? && Delivers(actions[i].work, b)
  }

  lemma AddBindingSpares(c: DnsCache.Cache, key: DnsCache.Key, o: DnsCache.Observation, b: Binding)
    requires b in c.resolved && !DnsCache.IsFor(b, key.mac, V4(key.target))
    requires |c.resolved| < DnsCache.MAX_RESOLVED_BINDINGS
    ensures b in DnsCache.AddBinding(c, key, o).resolved
    ensures |DnsCache.AddBinding(c, key, o).resolved| <= |c.resolved| + 1
  {
    DnsInvariant.WithoutMember(c.resolved, key.mac, V4(key.target), b);
    FilterLength((x: Binding) => !DnsCache.IsFor(x, key.mac, V4(key.target)), c.resolved);
  }

  lemma {:induction false} AddBindingsSpare(c: DnsCache.Cache, mac: Mac, targets: seq<DnsCache.Address>,
      o: DnsCache.Observation, b: Binding)
    requires b in c.resolved && |c.resolved| + |targets| <= DnsCache.MAX_RESOLVED_BINDINGS
    requires !(mac == b.clientMac && b.targetIp.V4? && b.targetIp.bits in targets)
    ensures b in DnsCache.AddBindings(c, mac, targets, o).resolved
    ensures |DnsCache.AddBindings(c, mac, targets, o).resolved| <= |c.resolved| + |targets|
    decreases |targets|
  {
    if targets != [] {
      assert targets[0] in targets;
      AddBindingSpares(c, DnsCache.Key(mac, targets[0]), o, b);
      AddBindingsSpare(DnsCache.AddBinding(c, DnsCache.Key(mac, targets[0]), o), mac, targets[1..], o, b);
    }
  }

  lemma {:induction false} AddMatchesSpare(c: DnsCache.Cache, matches: seq<DnsCache.Match>, b: Binding)
    requires b in c.resolved && |c.resolved| + Load(matches) <= DnsCache.MAX_RESOLVED_BINDINGS && Leaves(matches, b)
    ensures b in DnsCache.AddMatches(c, matches).resolved
    decreases |matches|
  {
    if matches != [] {
      var m := matches[0];
      assert m in matches;
      AddBindingsSpare(c, m.mac, m.observation.targets, m.observation, b);
      AddMatchesSpare(DnsCache.AddBindings(c, m.mac, m.observation.targets, m.observation), matches[1..], b);
    }
  }

  /** An entry that is still stored after a purge was not expired, so its announcement outlasts the purge. */
  lemma PurgeSpares(c: DnsCache.Cache, now: Timestamp, b: Binding)
    requires b in c.resolved && DnsCache.Outlasts(b, now)
    ensures b in DnsCache.Purge(c, now).resolved && |DnsCache.Purge(c, now).resolved| <= |c.resolved|
  {
    FilterMember((x: Binding) => DnsCache.Outlasts(x, now), c.resolved, b);
    FilterLength((x: Binding) => DnsCache.Outlasts(x, now), c.resolved);
  }

  lemma UnboundKeyStays(c: DnsCache.Cache, matches: seq<DnsCache.Match>, b: Binding)
    requires b.targetIp.V4? && Leaves(matches, b)
    ensures var k := DnsCache.Key(b.clientMac, b.targetIp.bits);
            DnsCache.EntriesAt(DnsCache.AddMatches(c, matches).bindings, k) == DnsCache.EntriesAt(c.bindings, k)
    decreases |matches|
  {
    if matches != [] {
      var m := matches[0];
      assert m in matches;
      UnboundKeyStaysFor(c, m.mac, m.observation.targets, m.observation, b);
      UnboundKeyStays(DnsCache.AddBindings(c, m.mac, m.observation.targets, m.observation), matches[1..], b);
    }
  }

  lemma UnboundKeyStaysFor(c: DnsCache.Cache, mac: Mac, targets: seq<DnsCache.Address>, o: DnsCache.Observation,
      b: Binding)
    requires b.targetIp.V4? && !(mac == b.clientMac && b.targetIp.bits in targets)
    ensures var k := DnsCache.Key(b.clientMac, b.targetIp.bits);
            DnsCache.EntriesAt(DnsCache.AddBindings(c, mac, targets, o).bindings, k)
                == DnsCache.EntriesAt(c.bindings, k)
    decreases |targets|
  {
    if targets != [] {
      assert targets[0] in targets;
      UnboundKeyStaysFor(DnsCache.AddBinding(c, DnsCache.Key(mac, targets[0]), o), mac, targets[1..], o, b);
    }
  }

  /** The entries of the binding's key that a purge keeps. */
  function LiveAt(bindings: DnsCache.Bindings, now: Timestamp, b: Binding): seq<DnsCache.Entry>
    requires b.targetIp.V4?
  {
    DnsCache.EntriesAt(DnsCache.LiveBindings(bindings, now), DnsCache.Key(b.clientMac, b.targetIp.bits))
  }

  lemma LiveEntriesOutlast(bindings: DnsCache.Bindings, now: Timestamp, b: Binding)
    requires b.targetIp.V4? && LiveAt(bindings, now, b) != []
    requires b.attribution.expiresAt == Some(LiveAt(bindings, now, b)[0].expiresAt)
    ensures DnsCache.Outlasts(b, now)
  {
    var k, entries := DnsCache.Key(b.clientMac, b.targetIp.bits), LiveAt(bindings, now, b);
    assert entries[0] in entries;
    FilterMember((e: DnsCache.Entry) => e.expiresAt > now, bindings[k], entries[0]);
  }

  /** The cache as a resolving step finds it, purged and with the step's own input added. */
  ghost function BeforeResolving(c: DnsCache.Cache, r: DnsHistory.Resolution): DnsCache.Cache {
    DnsCache.Purge(c, r.now).(pending := r.pending, identities := r.identities)
  }

  lemma ResolvingSpares(c: DnsCache.Cache, r: DnsHistory.Resolution, b: Binding)
    requires b in c.resolved && b.targetIp.V4?
    requires Leaves(DnsCache.Resolvable(r.pending, r.identities, r.now), b)
    requires |c.resolved| + Load(DnsCache.Resolvable(r.pending, r.identities, r.now)) <= DnsCache.MAX_RESOLVED_BINDINGS
    requires DnsInvariant.Current(DnsCache.ResolvePending(BeforeResolving(c, r), r.now).bindings, b)
    ensures b in DnsCache.ResolvePending(BeforeResolving(c, r), r.now).resolved
  {
    var matches := DnsCache.Resolvable(r.pending, r.identities, r.now);
    var before := BeforeResolving(c, r);
    var start := before.(pending := DnsCache.Unresolved(before.pending, before.identities, r.now));
    UnboundKeyStays(start, matches, b);
    LiveEntriesOutlast(c.bindings, r.now, b);
    PurgeSpares(c, r.now, b);
    AddMatchesSpare(start, matches, b);
  }

  lemma NextSpares(c: DnsCache.Cache, step: DnsCache.CacheStep, b: Binding)
    requires !step.Draining? && !step.Requeueing? && b in c.resolved
    requires Leaves(Binds(c, step), b) && |c.resolved| + Load(Binds(c, step)) <= DnsCache.MAX_RESOLVED_BINDINGS
    requires DnsInvariant.Current(DnsCache.Next(c, step).bindings, b)
    ensures b in DnsCache.Next(c, step).resolved
  {
    match step {
      case Collecting(os, now) =>
        if DnsHistory.Resolving(c, step).Some? {
          ResolvingSpares(c, DnsHistory.Resolving(c, step).value, b);
        }
      case Learning(flows, now) => ResolvingSpares(c, DnsHistory.Resolving(c, step).value, b);
      case Expiring(now) =>
        LiveEntriesOutlast(c.bindings, now, b);
        PurgeSpares(c, now, b);
      case ForgettingDevice(mac) => ForgettingDeviceSpares(c, mac, b);
      case ForgettingDomain(scope, domain) => ForgettingDomainSpares(c, scope, domain, b);
      case ForgettingRange(range) => ForgettingRangeSpares(c, range, b);
    }
  }

  lemma ForgettingDeviceSpares(c: DnsCache.Cache, mac: Mac, b: Binding)
    requires b in c.resolved && DnsInvariant.Current(DnsCache.PurgeDevice(c, mac).bindings, b)
    ensures b in DnsCache.PurgeDevice(c, mac).resolved
  {
    FilterMember((x: Binding) => x.clientMac != mac, c.resolved, b);
  }

  lemma ForgettingDomainSpares(c: DnsCache.Cache, scope: Option<Mac>, domain: Option<DomainName>, b: Binding)
    requires b in c.resolved && DnsInvariant.Current(DnsCache.PurgeDomain(c, scope, domain).bindings, b)
    ensures b in DnsCache.PurgeDomain(c, scope, domain).resolved
  {
    if domain.Some? && scope != Some(EMPTY) {
      var d := domain.value;
      var k := DnsCache.Key(b.clientMac, b.targetIp.bits);
      var keep := (j: DnsCache.Key, e: DnsCache.Entry) => !(InScope(scope, j.mac) && e.domain == d);
      KeptSatisfies(c.bindings, keep, k);
      FilterMember((x: Binding) => x.attribution.domain != d || !InScope(scope, x.clientMac), c.resolved, b);
    }
  }

  lemma ForgettingRangeSpares(c: DnsCache.Cache, range: TimeRange, b: Binding)
    requires b in c.resolved && DnsInvariant.Current(DnsCache.PurgeRange(c, range).bindings, b)
    ensures b in DnsCache.PurgeRange(c, range).resolved
  {
    var k := DnsCache.Key(b.clientMac, b.targetIp.bits);
    KeptSatisfies(c.bindings, (j: DnsCache.Key, e: DnsCache.Entry) => !range.Contains(e.associatedAt), k);
    FilterMember((x: Binding) => !range.Contains(x.attribution.associatedAt), c.resolved, b);
  }

  lemma KeptSatisfies(bindings: DnsCache.Bindings, keep: (DnsCache.Key, DnsCache.Entry) -> bool, k: DnsCache.Key)
    requires k in DnsCache.KeepEntries(bindings, keep) && |DnsCache.KeepEntries(bindings, keep)[k]| == 1
    ensures keep(k, DnsCache.KeepEntries(bindings, keep)[k][0])
  {
    var here := (e: DnsCache.Entry) => keep(k, e);
    var kept := DnsCache.KeepEntries(bindings, keep)[k];
    assert kept == DnsCache.KeptAt(bindings[k], keep, k) == Filter(here, bindings[k]);
    assert kept[0] in kept;
    FilterMember(here, bindings[k], kept[0]);
  }

  lemma PerformSpares(owner: Owner, s: System, a: Action, b: Binding)
    requires Sound(owner, s) && Enabled(owner, s, a) && Spares(s, a, b)
    requires DnsInvariant.Current(s.cache.bindings, b) && Tracked(s, b)
    ensures DnsInvariant.Current(Perform(s, a).cache.bindings, b)
    ensures Tracked(Perform(s, a), b) || (a.CommitFlush? && Delivers(a.work, b))
  {
    var next := Perform(s, a);
    match a {
      case OnCache(step) =>
        if b in s.cache.resolved {
          NextSpares(s.cache, step, b);
        }
      case OnLedger(step) =>
      case StartFlush(t) =>
        if b in s.cache.resolved {
          assert t in next.inFlight && b in next.inFlight[t];
        } else {
          var u :| u in s.inFlight && b in s.inFlight[u];
          assert u in next.inFlight && b in next.inFlight[u];
        }
      case CommitFlush(t, work) =>
        if b in s.inFlight[t] {
          var i :| 0 <= i < |s.inFlight[t]| && s.inFlight[t][i] == b;
          assert work[i].binding == b;
        } else if b !in s.cache.resolved {
          var u :| u in s.inFlight && b in s.inFlight[u];
          assert u in next.inFlight && b in next.inFlight[u];
        }
      case FailFlush(t) =>
        DnsHistory.RequeueKeepsBindings(s.cache, s.inFlight[t]);
        assert Deliverable(s.inFlight[t]);
        RequeueExactly(s.cache, s.inFlight[t], b);
        if b !in next.cache.resolved {
          var u :| u in s.inFlight && b in s.inFlight[u];
          assert u in next.inFlight && b in next.inFlight[u];
        }
    }
  }

  /**
   * At least once: through any interleaving with failed flushes, a queued or drained binding that stays its
   * key's sole, untouched entry is still tracked at the end unless some flush committed it.
   */
  lemma {:induction false} NothingTrueIsLost(owner: Owner, s: System, actions: seq<Action>, b: Binding)
    requires Sound(owner, s) && EnabledRun(owner, s, actions) && SparesRun(s, actions, b)
    requires DnsInvariant.Current(s.cache.bindings, b) && Tracked(s, b)
    ensures Tracked(RunSystem(s, actions), b) || Delivered(actions, b)
    decreases |actions|
  {
    if actions != [] {
      PerformSound(owner, s, actions[0]);
      PerformSpares(owner, s, actions[0], b);
      if !(actions[0].CommitFlush? && Delivers(actions[0].work, b)) {
        NothingTrueIsLost(owner, Perform(s, actions[0]), actions[1..], b);
        if Delivered(actions[1..], b) {
          var i :| 0 <= i < |actions[1..]| && actions[1..][i].CommitFlush? && Delivers(actions[1..][i].work, b);
          assert actions[i + 1] == actions[1..][i];
        }
      }
    }
  }

  // ----- more than once is as good as once -----

  lemma {:induction false} BackfillAllConcat(s: State, one: seq<Work>, two: seq<Work>)
    requires BackfillAll(s, one).Ok? && BackfillAll(BackfillAll(s, one).value.state, two).Ok?
    ensures BackfillAll(s, one + two).Ok?
    ensures BackfillAll(s, one + two).value.state == BackfillAll(BackfillAll(s, one).value.state, two).value.state
    decreases |one|
  {
    if one == [] {
      assert one + two == two;
    } else {
      assert (one + two)[1..] == one[1..] + two;
      BackfillAllConcat(BackfillRows(s, one[0].binding, one[0].rows).value.state, one[1..], two);
    }
  }

  /**
   * Delivering two batches in turn, or all their bindings in one later batch after the first attempt failed,
   * leaves the same books, in whatever order the retried batch lists them.
   */
  lemma RetryEqualsTimely(owner: Owner, s: State, one: seq<Work>, two: seq<Work>, all: seq<Work>)
    requires Coherent(owner, s) && FaithfulWork(s, one) && FaithfulWork(s, two) && FaithfulWork(s, all)
    requires DistinctTargets(one + two) && DistinctTargets(all)
    requires forall b :: Delivers(all, b) <==> Delivers(one, b) || Delivers(two, b)
    ensures BackfillAll(s, one).Ok? && BackfillAll(BackfillAll(s, one).value.state, two).Ok? && BackfillAll(s, all).Ok?
    ensures SameBooks(BackfillAll(BackfillAll(s, one).value.state, two).value.state, BackfillAll(s, all).value.state)
  {
    BackfillAllCoherent(owner, s, one);
    var t := BackfillAll(s, one).value.state;
    SameRowsFaithful(s, t, two);
    BackfillAllCoherent(owner, t, two);
    BackfillAllConcat(s, one, two);
    forall b ensures Delivers(one + two, b) <==> Delivers(one, b) || Delivers(two, b) {
      if Delivers(one, b) {
        var i :| 0 <= i < |one| && one[i].binding == b;
        assert (one + two)[i].binding == b;
      }
      if Delivers(two, b) {
        var i :| 0 <= i < |two| && two[i].binding == b;
        assert (one + two)[|one| + i].binding == b;
      }
    }
    OrderIsIrrelevant(owner, s, one + two, all);
  }
}
