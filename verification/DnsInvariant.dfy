/** What every interleaving of cache operations keeps: queued bindings are current, unambiguous and bounded. */
module DnsInvariant {
  import opened Domain
  import opened Sequences
  import opened DnsCache

  // ----- the invariant -----

  predicate DifferentDomains(a: Entry, b: Entry) { a.domain != b.domain }

  ghost predicate DistinctDomains(entries: seq<Entry>) { Pairwise(DifferentDomains, entries) }

  predicate DifferentTargets(a: Binding, b: Binding) { !(a.clientMac == b.clientMac && a.targetIp == b.targetIp) }

  ghost predicate DistinctQueue(resolved: seq<Binding>) { Pairwise(DifferentTargets, resolved) }

  /** The announcement of the sole entry stored for its device and target. */
  predicate Current(bindings: Bindings, b: Binding) {
    && b.targetIp.V4?
    && var key := Key(b.clientMac, b.targetIp.bits);
      && key in bindings && |bindings[key]| == 1
      && b == Announce(key, bindings[key][0])
  }

  ghost predicate ValidBindings(bindings: Bindings) {
    forall k :: k in bindings ==> bindings[k] != [] && DistinctDomains(bindings[k])
  }

  ghost predicate ValidQueue(bindings: Bindings, resolved: seq<Binding>) {
    && (forall b :: b in resolved ==> Current(bindings, b))
    && DistinctQueue(resolved)
    && |resolved| <= MAX_RESOLVED_BINDINGS
  }

  ghost predicate Valid(c: Cache) {
    && ValidBindings(c.bindings)
    && ValidQueue(c.bindings, c.resolved)
    && |c.pending| <= MAX_PENDING_OBSERVATIONS
  }

  // ----- who may have asked -----

  /** Some flow has the device at the observation's address when it was made, or up to five seconds before. */
  ghost predicate MayHaveAsked(identities: Identities, mac: Mac, o: Observation) {
    exists id ::
      && id in identities && identities[id].clientMac == mac && identities[id].clientIp == o.clientIp
      && identities[id].firstSeen <= o.observedAt <= identities[id].lastSeen + 5_000
  }

  ghost predicate OnlyAsker(identities: Identities, mac: Mac, o: Observation) {
    forall m: Mac :: MayHaveAsked(identities, m, o) <==> m == mac
  }

  lemma CandidatesMayHaveAsked(identities: Identities, mac: Mac, o: Observation)
    ensures mac in Candidates(identities, o) <==> MayHaveAsked(identities, mac, o)
  {}

  lemma SoleCandidateIsOnlyAsker(identities: Identities, mac: Mac, o: Observation)
    ensures Candidates(identities, o) == {mac} <==> OnlyAsker(identities, mac, o)
    ensures Candidates(identities, o) == {mac} <==> IsOnlyFrom(identities, o, mac)
  {
    forall m: Mac ensures m in Candidates(identities, o) <==> MayHaveAsked(identities, m, o) {
      CandidatesMayHaveAsked(identities, m, o);
    }
    if OnlyAsker(identities, mac, o) {
      assert MayHaveAsked(identities, mac, o);
      assert forall m :: m in Candidates(identities, o) <==> m in {mac};
      assert Candidates(identities, o) == {mac};
    }
    if |Candidates(identities, o)| == 1 {
      SoleElement(Candidates(identities, o));
    }
  }

  // ----- queues -----

  lemma WithoutMember(resolved: seq<Binding>, mac: Mac, target: Ip, b: Binding)
    ensures b in Without(resolved, mac, target) <==> b in resolved && !IsFor(b, mac, target)
  {
    FilterMember((x: Binding) => !IsFor(x, mac, target), resolved, b);
  }

  lemma WithoutDistinct(resolved: seq<Binding>, mac: Mac, target: Ip)
    requires DistinctQueue(resolved)
    ensures DistinctQueue(Without(resolved, mac, target)) && |Without(resolved, mac, target)| <= |resolved|
  {
    var keep := (x: Binding) => !IsFor(x, mac, target);
    FilterPairwise(keep, DifferentTargets, resolved);
    FilterLength(keep, resolved);
  }

  lemma PushDistinct(resolved: seq<Binding>, b: Binding)
    requires DistinctQueue(resolved) && |resolved| <= MAX_RESOLVED_BINDINGS
    requires forall x :: x in resolved ==> DifferentTargets(x, b)
    ensures DistinctQueue(PushBounded(resolved, b, MAX_RESOLVED_BINDINGS))
    ensures |PushBounded(resolved, b, MAX_RESOLVED_BINDINGS)| <= MAX_RESOLVED_BINDINGS
    ensures forall x :: x in PushBounded(resolved, b, MAX_RESOLVED_BINDINGS) ==> x in resolved || x == b
  {}

  /** Replacing the announcement of one target keeps a valid queue valid. */
  lemma AnnounceKeepsQueue(bindings: Bindings, resolved: seq<Binding>, b: Binding)
    requires ValidQueue(bindings, resolved) && Current(bindings, b)
    ensures ValidQueue(bindings, PushBounded(Without(resolved, b.clientMac, b.targetIp), b, MAX_RESOLVED_BINDINGS))
  {
    var others := Without(resolved, b.clientMac, b.targetIp);
    WithoutDistinct(resolved, b.clientMac, b.targetIp);
    forall x | x in others ensures DifferentTargets(x, b) && Current(bindings, x) {
      WithoutMember(resolved, b.clientMac, b.targetIp, x);
    }
    PushDistinct(others, b);
  }

  // ----- learning a binding -----

  lemma LiveDistinct(entries: seq<Entry>, now: Timestamp)
    requires DistinctDomains(entries)
    ensures DistinctDomains(Live(entries, now)) && |Live(entries, now)| <= |entries|
    ensures forall e :: e in Live(entries, now) <==> e in entries && e.expiresAt > now
  {
    var keep := (e: Entry) => e.expiresAt > now;
    FilterPairwise(keep, DifferentDomains, entries);
    FilterLength(keep, entries);
    forall e ensures e in Live(entries, now) <==> e in entries && e.expiresAt > now {
      FilterMember(keep, entries, e);
    }
  }

  lemma RefreshedDistinct(live: seq<Entry>, o: Observation)
    requires DistinctDomains(live)
    ensures DistinctDomains(Refreshed(live, o)) && Refreshed(live, o) != []
    ensures forall e :: e in Refreshed(live, o) ==> e in live || e == NewEntry(o)
  {}

  /** Announcements of other keys do not notice. */
  lemma OtherKeysStayCurrent(bindings: Bindings, key: Key, entries: seq<Entry>, b: Binding)
    requires Current(bindings, b) && !IsFor(b, key.mac, V4(key.target))
    ensures Current(bindings[key := entries], b)
  {}

  lemma StaleKeepsQueue(c: Cache, key: Key, o: Observation)
    requires Valid(c) && IsStale(Live(EntriesAt(c.bindings, key), o.observedAt), o)
    ensures ValidQueue(c.bindings[key := Live(EntriesAt(c.bindings, key), o.observedAt)], c.resolved)
  {
    var entries := EntriesAt(c.bindings, key);
    var live := Live(entries, o.observedAt);
    LiveDistinct(entries, o.observedAt);
    forall b | b in c.resolved ensures Current(c.bindings[key := live], b) {
      assert Current(c.bindings, b);
      if IsFor(b, key.mac, V4(key.target)) {
        assert |entries| == 1 && |live| >= 1 && live[0] in live;
        assert live == entries;
      } else {
        OtherKeysStayCurrent(c.bindings, key, live, b);
      }
    }
  }

  lemma FreshKeepsQueue(c: Cache, key: Key, entries: seq<Entry>)
    requires Valid(c)
    ensures ValidQueue(c.bindings[key := entries], Without(c.resolved, key.mac, V4(key.target)))
  {
    var others := Without(c.resolved, key.mac, V4(key.target));
    WithoutDistinct(c.resolved, key.mac, V4(key.target));
    forall b | b in others ensures Current(c.bindings[key := entries], b) {
      WithoutMember(c.resolved, key.mac, V4(key.target), b);
      OtherKeysStayCurrent(c.bindings, key, entries, b);
    }
  }

  lemma AddBindingValid(c: Cache, key: Key, o: Observation)
    requires Valid(c)
    ensures Valid(AddBinding(c, key, o))
  {
    var live := Live(EntriesAt(c.bindings, key), o.observedAt);
    LiveDistinct(EntriesAt(c.bindings, key), o.observedAt);
    if IsStale(live, o) {
      StaleKeepsQueue(c, key, o);
    } else {
      var entries := Refreshed(live, o);
      RefreshedDistinct(live, o);
      FreshKeepsQueue(c, key, entries);
      if |entries| == 1 {
        var others := Without(c.resolved, key.mac, V4(key.target));
        var b := Announce(key, entries[0]);
        AnnounceKeepsQueue(c.bindings[key := entries], others, b);
        WithoutTwice(c.resolved, key.mac, V4(key.target));
      }
    }
  }

  lemma WithoutTwice(resolved: seq<Binding>, mac: Mac, target: Ip)
    ensures Without(Without(resolved, mac, target), mac, target) == Without(resolved, mac, target)
  {
    var keep := (b: Binding) => !IsFor(b, mac, target);
    FilterTwice(keep, keep, resolved);
  }

  lemma {:induction false} AddBindingsValid(c: Cache, mac: Mac, targets: seq<Address>, o: Observation)
    requires Valid(c)
    ensures var d := AddBindings(c, mac, targets, o); Valid(d) && d.pending == c.pending && d.identities == c.identities
    decreases |targets|
  {
    if targets != [] {
      AddBindingValid(c, Key(mac, targets[0]), o);
      AddBindingsValid(AddBinding(c, Key(mac, targets[0]), o), mac, targets[1..], o);
    }
  }

  lemma {:induction false} AddMatchesValid(c: Cache, matches: seq<Match>)
    requires Valid(c)
    ensures var d := AddMatches(c, matches); Valid(d) && d.pending == c.pending && d.identities == c.identities
    decreases |matches|
  {
    if matches != [] {
      var m := matches[0];
      AddBindingsValid(c, m.mac, m.observation.targets, m.observation);
      AddMatchesValid(AddBindings(c, m.mac, m.observation.targets, m.observation), matches[1..]);
    }
  }

  lemma ResolvePendingValid(c: Cache, now: Timestamp)
    requires Valid(c)
    ensures var d := ResolvePending(c, now);
            Valid(d) && d.pending == Unresolved(c.pending, c.identities, now) && d.identities == c.identities
  {
    FilterLength(o => KeepsWaiting(c.identities, o, now), c.pending);
    AddMatchesValid(c.(pending := Unresolved(c.pending, c.identities, now)), Resolvable(c.pending, c.identities, now));
  }

  // ----- forgetting -----

  /** Filtering every list by a test that spares the announced entries keeps the filtered queue valid. */
  ghost predicate Thins(before: Bindings, after: Bindings) {
    forall k :: k in after ==> k in before && DistinctDomains(after[k]) && after[k] != []
  }

  lemma ThinnedValid(c: Cache, d: Cache, keepQueued: Binding -> bool)
    requires Valid(c) && Thins(c.bindings, d.bindings) && |d.pending| <= |c.pending|
    requires d.resolved == Filter(keepQueued, c.resolved)
    requires forall b :: b in c.resolved && keepQueued(b) ==>
               var k := Key(b.clientMac, b.targetIp.bits);
               k in d.bindings && d.bindings[k] == c.bindings[k]
    ensures Valid(d)
  {
    FilterPairwise(keepQueued, DifferentTargets, c.resolved);
    FilterLength(keepQueued, c.resolved);
    forall b | b in d.resolved ensures Current(d.bindings, b) {
      FilterMember(keepQueued, c.resolved, b);
      assert Current(c.bindings, b);
    }
  }

  lemma PurgeValid(c: Cache, now: Timestamp)
    requires Valid(c)
    ensures Valid(Purge(c, now))
  {
    var d := Purge(c, now);
    FilterLength((o: Observation) => !IsExpired(o, now), c.pending);
    forall k | k in d.bindings ensures DistinctDomains(d.bindings[k]) {
      LiveDistinct(c.bindings[k], now);
    }
    var keep := (b: Binding) => Outlasts(b, now);
    forall b | b in c.resolved && keep(b)
      ensures var k := Key(b.clientMac, b.targetIp.bits); k in d.bindings && d.bindings[k] == c.bindings[k]
    {
      assert Current(c.bindings, b);
      FilterAll((e: Entry) => e.expiresAt > now, c.bindings[Key(b.clientMac, b.targetIp.bits)]);
    }
    ThinnedValid(c, d, keep);
  }

  lemma KeepEntriesThins(bindings: Bindings, keep: (Key, Entry) -> bool)
    requires ValidBindings(bindings)
    ensures Thins(bindings, KeepEntries(bindings, keep))
  {
    var after := KeepEntries(bindings, keep);
    forall k | k in after ensures DistinctDomains(after[k]) {
      KeptAtDistinct(bindings[k], keep, k);
    }
  }

  lemma KeptAtDistinct(entries: seq<Entry>, keep: (Key, Entry) -> bool, k: Key)
    requires DistinctDomains(entries)
    ensures DistinctDomains(KeptAt(entries, keep, k))
  {
    var here := (e: Entry) => keep(k, e);
    FilterPairwise(here, DifferentDomains, entries);
  }

  lemma KeepEntriesSpares(bindings: Bindings, keep: (Key, Entry) -> bool, k: Key)
    requires k in bindings && |bindings[k]| == 1 && keep(k, bindings[k][0])
    ensures k in KeepEntries(bindings, keep) && KeepEntries(bindings, keep)[k] == bindings[k]
  {
    FilterAll((e: Entry) => keep(k, e), bindings[k]);
  }

  lemma PurgeDeviceValid(c: Cache, mac: Mac)
    requires Valid(c)
    ensures Valid(PurgeDevice(c, mac))
  {
    if mac != EMPTY {
      FilterLength((o: Observation) => !IsOnlyFrom(c.identities, o, mac), c.pending);
      forall b | b in c.resolved ensures Current(c.bindings, b) {}
      ThinnedValid(c, PurgeDevice(c, mac), (b: Binding) => b.clientMac != mac);
    }
  }

  lemma PurgeDomainValid(c: Cache, scope: Option<Mac>, domain: Option<DomainName>)
    requires Valid(c)
    ensures Valid(PurgeDomain(c, scope, domain))
  {
    if domain.Some? && scope != Some(EMPTY) {
      var d := domain.value;
      var keep := (k: Key, e: Entry) => !(InScope(scope, k.mac) && e.domain == d);
      var keepQueued := (b: Binding) => b.attribution.domain != d || !InScope(scope, b.clientMac);
      FilterLength((o: Observation) => o.domain != d || (scope.Some? && !IsOnlyFrom(c.identities, o, scope.value)),
          c.pending);
      KeepEntriesThins(c.bindings, keep);
      forall b | b in c.resolved && keepQueued(b)
        ensures var k := Key(b.clientMac, b.targetIp.bits);
                k in KeepEntries(c.bindings, keep) && KeepEntries(c.bindings, keep)[k] == c.bindings[k]
      {
        assert Current(c.bindings, b);
        KeepEntriesSpares(c.bindings, keep, Key(b.clientMac, b.targetIp.bits));
      }
      ThinnedValid(c, PurgeDomain(c, scope, domain), keepQueued);
    }
  }

  lemma PurgeRangeValid(c: Cache, range: TimeRange)
    requires Valid(c)
    ensures Valid(PurgeRange(c, range))
  {
    var keep := (k: Key, e: Entry) => !range.Contains(e.associatedAt);
    var keepQueued := (b: Binding) => !range.Contains(b.attribution.associatedAt);
    FilterLength((o: Observation) => !range.Contains(o.observedAt), c.pending);
    KeepEntriesThins(c.bindings, keep);
    forall b | b in c.resolved && keepQueued(b)
      ensures var k := Key(b.clientMac, b.targetIp.bits);
              k in KeepEntries(c.bindings, keep) && KeepEntries(c.bindings, keep)[k] == c.bindings[k]
    {
      assert Current(c.bindings, b);
      KeepEntriesSpares(c.bindings, keep, Key(b.clientMac, b.targetIp.bits));
    }
    ThinnedValid(c, PurgeRange(c, range), keepQueued);
  }

  // ----- the steps -----

  lemma {:induction false} EnqueueAllBounded(pending: seq<Observation>, os: seq<Observation>)
    requires |pending| <= MAX_PENDING_OBSERVATIONS
    ensures |EnqueueAll(pending, os)| <= MAX_PENDING_OBSERVATIONS
    decreases |os|
  {
    if os != [] {
      EnqueueAllBounded(PushBounded(pending, os[0], MAX_PENDING_OBSERVATIONS), os[1..]);
    }
  }

  /** A requeued binding was announced by the cache: a high-confidence DNS attribution. */
  predicate Announced(b: Binding) {
    b.targetIp.V4? && b.attribution.source == Dns && b.attribution.confidence == High && b.attribution.expiresAt.Some?
  }

  lemma {:induction false} RequeueValid(c: Cache, bs: seq<Binding>)
    requires Valid(c) && (forall b :: b in bs ==> Announced(b))
    ensures Valid(Requeue(c, bs))
    decreases |bs|
  {
    if bs != [] {
      if StillUnique(c.bindings, bs[0]) {
        assert bs[0] in bs;
        assert Current(c.bindings, bs[0]);
        AnnounceKeepsQueue(c.bindings, c.resolved, bs[0]);
      }
      RequeueValid(RequeueOne(c, bs[0]), bs[1..]);
    }
  }

  /** Only what a drain handed out comes back. */
  ghost predicate LegalStep(step: CacheStep) {
    step.Requeueing? ==> forall b :: b in step.bindings ==> Announced(b)
  }

  lemma NextValid(c: Cache, step: CacheStep)
    requires Valid(c) && LegalStep(step)
    ensures Valid(Next(c, step))
  {
    match step
    case Collecting(os, now) =>
      PurgeValid(c, now);
      var purged := Purge(c, now);
      EnqueueAllBounded(purged.pending, PrepareAll(os));
      ResolvePendingValid(purged.(pending := EnqueueAll(purged.pending, PrepareAll(os))), now);
    case Learning(flows, now) =>
      PurgeValid(c, now);
      var purged := Purge(c, now);
      ResolvePendingValid(purged.(identities := LearnAll(purged.identities, flows, now)), now);
    case Expiring(now) => PurgeValid(c, now);
    case Draining =>
    case Requeueing(bs) => RequeueValid(c, bs);
    case ForgettingDevice(mac) => PurgeDeviceValid(c, mac);
    case ForgettingDomain(scope, domain) => PurgeDomainValid(c, scope, domain);
    case ForgettingRange(range) => PurgeRangeValid(c, range);
  }

  /**
   * Over all interleavings of the cache's operations: each queued binding announces the sole entry stored for
   * its device and target, no target is queued twice, no key holds an empty list or a domain twice, and both
   * queues stay within their bounds.
   */
  lemma {:induction false} EveryCacheIsValid(c: Cache, steps: seq<CacheStep>)
    requires Valid(c) && (forall i :: 0 <= i < |steps| ==> LegalStep(steps[i]))
    ensures Valid(RunCache(c, steps))
    decreases |steps|
  {
    if steps != [] {
      assert LegalStep(steps[0]);
      NextValid(c, steps[0]);
      EveryCacheIsValid(Next(c, steps[0]), steps[1..]);
    }
  }

  // ----- the algebra of a step -----

  /** After a resolution nobody waits who could be bound: each waiting observation has no or several candidates. */
  lemma NothingResolvableWaits(c: Cache, now: Timestamp, o: Observation)
    requires Valid(c)
    ensures o in ResolvePending(c, now).pending <==>
              o in c.pending && !IsExpired(o, now) && |Candidates(c.identities, o)| != 1
    ensures o in ResolvePending(c, now).pending ==> |Candidates(ResolvePending(c, now).identities, o)| != 1
    ensures o in ResolvePending(c, now).pending <==>
              && o in c.pending && o.pendingExpiresAt > now && o.bindingExpiresAt > now
              && forall mac: Mac :: !OnlyAsker(c.identities, mac, o)
  {
    forall mac: Mac ensures Candidates(c.identities, o) == {mac} <==> OnlyAsker(c.identities, mac, o) {
      SoleCandidateIsOnlyAsker(c.identities, mac, o);
    }
    if |Candidates(c.identities, o)| == 1 {
      SoleElement(Candidates(c.identities, o));
    }
    ResolvePendingValid(c, now);
    FilterMember((x: Observation) => KeepsWaiting(c.identities, x, now), c.pending, o);
    UnresolvedMember(c.pending, c.identities, now, o);
  }

  lemma UnresolvedMember(pending: seq<Observation>, identities: Identities, now: Timestamp, o: Observation)
    ensures o in Unresolved(pending, identities, now) <==> o in pending && KeepsWaiting(identities, o, now)
  {
    FilterMember(x => KeepsWaiting(identities, x, now), pending, o);
  }

  /** How many observations expire unbound. */
  function ExpiredCount(pending: seq<Observation>, now: Timestamp): nat {
    |Filter((o: Observation) => IsExpired(o, now), pending)|
  }

  /** A resolution partitions the queue: each observation expires, is bound to its only candidate, or waits on. */
  lemma {:induction false} ResolutionPartitions(pending: seq<Observation>, identities: Identities, now: Timestamp)
    ensures |pending| == ExpiredCount(pending, now) + |Resolvable(pending, identities, now)|
        + |Unresolved(pending, identities, now)|
    ensures forall m :: m in Resolvable(pending, identities, now) ==>
              m.observation in pending && !IsExpired(m.observation, now)
                  && Candidates(identities, m.observation) == {m.mac}
    decreases |pending|
  {
    if pending != [] {
      ResolutionPartitions(pending[1..], identities, now);
      var candidates := Candidates(identities, pending[0]);
      if |candidates| == 1 {
        SoleElement(candidates);
      }
    }
  }

  lemma LiveTwice(entries: seq<Entry>, first: Timestamp, second: Timestamp)
    requires first <= second
    ensures Live(Live(entries, first), second) == Live(entries, second)
  {
    FilterTwice((e: Entry) => e.expiresAt > first, (e: Entry) => e.expiresAt > second, entries);
  }

  /** Purging at an earlier moment first makes no difference. */
  lemma PurgesCompose(c: Cache, first: Timestamp, second: Timestamp)
    requires first <= second
    ensures Purge(Purge(c, first), second) == Purge(c, second)
  {
    var once, twice := Purge(c, second), Purge(Purge(c, first), second);
    forall k
      ensures k in once.bindings <==> k in twice.bindings
      ensures k in once.bindings ==> once.bindings[k] == twice.bindings[k]
    {
      if k in c.bindings {
        LiveTwice(c.bindings[k], first, second);
      }
    }
    assert once.bindings == twice.bindings;
    assert once.identities == twice.identities;
    FilterTwice((o: Observation) => !IsExpired(o, first), (o: Observation) => !IsExpired(o, second), c.pending);
    FilterTwice((b: Binding) => Outlasts(b, first), (b: Binding) => Outlasts(b, second), c.resolved);
  }
}
