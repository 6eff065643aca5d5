/** The cache object of src/dns.rs: every method is one critical section and refines its function in DnsCache. */
module DnsAttributionCache {
  import opened Domain
  import opened Sequences
  import opened Sums
  import opened DnsCache
  import opened DnsInvariant
  import opened DnsHistory
  import opened DnsBinding

  // ----- counting what is held -----

  function ListLengths(bindings: Bindings): map<Key, nat> { map k | k in bindings :: |bindings[k]| }

  ghost function EntryCount(bindings: Bindings): nat { Sum(ListLengths(bindings)) }

  ghost function ItemCount(c: Cache): nat {
    EntryCount(c.bindings) + |c.identities| + |c.pending| + |c.resolved|
  }

  /** `after` holds no key, entry, identity or queue item beyond `before`. */
  ghost predicate Smaller(after: Cache, before: Cache) {
    && (forall k :: k in after.bindings ==> k in before.bindings && |after.bindings[k]| <= |before.bindings[k]|)
    && after.identities.Keys <= before.identities.Keys
    && |after.pending| <= |before.pending| && |after.resolved| <= |before.resolved|
  }

  lemma KeysOfSmaller<K, V>(after: map<K, V>, before: map<K, V>)
    requires after.Keys <= before.Keys
    ensures |after| <= |before|
  {
    var rest := before.Keys - after.Keys;
    assert before.Keys == after.Keys + rest;
    assert |before.Keys| == |after.Keys| + |rest|;
  }

  lemma SmallerCounts(after: Cache, before: Cache)
    requires Smaller(after, before)
    ensures EntryCount(after.bindings) <= EntryCount(before.bindings)
    ensures |after.identities| <= |before.identities| && ItemCount(after) <= ItemCount(before)
  {
    SumOfPart(ListLengths(after.bindings), ListLengths(before.bindings));
    KeysOfSmaller(after.identities, before.identities);
  }

  lemma PurgeIsSmaller(c: Cache, now: Timestamp)
    ensures Smaller(Purge(c, now), c)
  {
    forall k | k in LiveBindings(c.bindings, now) ensures |LiveBindings(c.bindings, now)[k]| <= |c.bindings[k]| {
      FilterLength((e: Entry) => e.expiresAt > now, c.bindings[k]);
    }
    FilterLength((o: Observation) => !IsExpired(o, now), c.pending);
    FilterLength((b: Binding) => Outlasts(b, now), c.resolved);
  }

  lemma KeptIsShorter(bindings: Bindings, keep: (Key, Entry) -> bool)
    ensures forall k :: k in KeepEntries(bindings, keep) ==>
              k in bindings && |KeepEntries(bindings, keep)[k]| <= |bindings[k]|
  {
    forall k | k in KeepEntries(bindings, keep) ensures |KeepEntries(bindings, keep)[k]| <= |bindings[k]| {
      KeptLength(bindings[k], keep, k);
    }
  }

  lemma KeptLength(entries: seq<Entry>, keep: (Key, Entry) -> bool, k: Key)
    ensures |KeptAt(entries, keep, k)| <= |entries|
  {
    var here := (e: Entry) => keep(k, e);
    FilterLength(here, entries);
  }

  lemma PurgeDeviceIsSmaller(c: Cache, mac: Mac)
    ensures Smaller(PurgeDevice(c, mac), c)
  {
    FilterLength((o: Observation) => !IsOnlyFrom(c.identities, o, mac), c.pending);
    FilterLength((b: Binding) => b.clientMac != mac, c.resolved);
  }

  lemma PurgeDomainIsSmaller(c: Cache, scope: Option<Mac>, domain: Option<DomainName>)
    ensures Smaller(PurgeDomain(c, scope, domain), c)
  {
    if domain.Some? {
      var d := domain.value;
      KeptIsShorter(c.bindings, (k: Key, e: Entry) => !(InScope(scope, k.mac) && e.domain == d));
      FilterLength((o: Observation) => o.domain != d || (scope.Some? && !IsOnlyFrom(c.identities, o, scope.value)),
          c.pending);
      FilterLength((b: Binding) => b.attribution.domain != d || !InScope(scope, b.clientMac), c.resolved);
    }
  }

  lemma PurgeRangeIsSmaller(c: Cache, range: TimeRange)
    ensures Smaller(PurgeRange(c, range), c)
  {
    KeptIsShorter(c.bindings, (k: Key, e: Entry) => !range.Contains(e.associatedAt));
    FilterLength((o: Observation) => !range.Contains(o.observedAt), c.pending);
    FilterLength((b: Binding) => !range.Contains(b.attribution.associatedAt), c.resolved);
  }

  /** A privacy purge only removes, and keeps the invariant. */
  lemma Forgets(c: Cache, step: CacheStep)
    requires step.ForgettingDevice? || step.ForgettingDomain? || step.ForgettingRange?
    ensures ItemCount(Next(c, step)) <= ItemCount(c)
    ensures Valid(c) ==> Valid(Next(c, step))
  {
    match step {
      case ForgettingDevice(mac) => PurgeDeviceIsSmaller(c, mac);
      case ForgettingDomain(scope, domain) => PurgeDomainIsSmaller(c, scope, domain);
      case ForgettingRange(range) => PurgeRangeIsSmaller(c, range);
    }
    SmallerCounts(Next(c, step), c);
    if Valid(c) {
      NextValid(c, step);
    }
  }

  /** The number of distinct devices decides, whatever order the identities are visited in. */
  lemma OneCandidate(candidates: set<Mac>, mac: Mac)
    requires |candidates| == 1 && mac in candidates
    ensures mac == Sole(candidates)
  {}

  lemma UnresolvedCons(pending: seq<Observation>, identities: Identities, now: Timestamp)
    requires pending != []
    ensures Unresolved(pending, identities, now)
         == (if KeepsWaiting(identities, pending[0], now) then [pending[0]] else [])
             + Unresolved(pending[1..], identities, now)
  {}

  /** Binding the first match, and then the rest. */
  lemma MatchesCons(c: Cache, m: Match, rest: seq<Match>)
    ensures var next := AddBindings(c, m.mac, m.observation.targets, m.observation);
            && AddMatches(c, [m] + rest) == AddMatches(next, rest)
            && MatchUpdates(c, [m] + rest)
               == TargetUpdates(c, m.mac, m.observation.targets, m.observation) + MatchUpdates(next, rest)
  {
    assert ([m] + rest)[0] == m && ([m] + rest)[1..] == rest;
  }

  /** What is left to bind, and what has been bound, together make up the whole resolution. */
  ghost predicate Progress(start: Cache, all: seq<Match>, c: Cache, left: seq<Match>, updated: nat) {
    AddMatches(c, left) == AddMatches(start, all) && updated + MatchUpdates(c, left) == MatchUpdates(start, all)
  }

  /** Handling the head of the queue is progress. */
  lemma ProgressStep(
      start: Cache, all: seq<Match>, c: Cache, queue: seq<Observation>,
      identities: Identities, now: Timestamp, updated: nat)
    requires queue != [] && Progress(start, all, c, Resolvable(queue, identities, now), updated)
    ensures var head := Resolvable([queue[0]], identities, now);
            Progress(start, all, AddMatches(c, head), Resolvable(queue[1..], identities, now),
                     updated + MatchUpdates(c, head))
  {
    var o, rest := queue[0], Resolvable(queue[1..], identities, now);
    var head := Resolvable([o], identities, now);
    assert [o][1..] == [] && Resolvable([], identities, now) == [];
    assert Resolvable(queue, identities, now) == head + rest;
    if head != [] {
      var m := head[0];
      assert head == [m] && [m] + [] == [m];
      MatchesCons(c, m, rest);
      MatchesCons(c, m, []);
    }
  }

  /** The queue of `before` has been taken, and `queue` of it is left; `unresolved` waits on. */
  ghost predicate Halfway(
      before: Cache, c: Cache, queue: seq<Observation>, unresolved: seq<Observation>, now: Timestamp, updated: nat)
  {
    && c.identities == before.identities && c.pending == []
    && Progress(before.(pending := []), Resolvable(before.pending, before.identities, now),
                c, Resolvable(queue, before.identities, now), updated)
    && unresolved + Unresolved(queue, before.identities, now) == Unresolved(before.pending, before.identities, now)
  }

  lemma HalfwayStep(
      before: Cache, c: Cache, queue: seq<Observation>, unresolved: seq<Observation>, now: Timestamp, updated: nat)
    requires queue != [] && Halfway(before, c, queue, unresolved, now, updated)
    ensures var head := Resolvable([queue[0]], c.identities, now);
            var waiting := if KeepsWaiting(c.identities, queue[0], now) then unresolved + [queue[0]] else unresolved;
            Halfway(before, AddMatches(c, head), queue[1..], waiting, now, updated + MatchUpdates(c, head))
  {
    var head := Resolvable([queue[0]], c.identities, now);
    ProgressStep(before.(pending := []), Resolvable(before.pending, before.identities, now), c, queue,
        before.identities, now, updated);
    UnresolvedCons(queue, before.identities, now);
    AddMatchesKeep(c, head);
    assert unresolved + [] == unresolved;
  }

  lemma HalfwayStart(before: Cache, now: Timestamp)
    ensures Halfway(before, before.(pending := []), before.pending, [], now, 0)
  {}

  /** When the queue is empty, what waits on completes the resolution. */
  lemma HalfwayEnd(before: Cache, c: Cache, unresolved: seq<Observation>, now: Timestamp, updated: nat)
    requires Halfway(before, c, [], unresolved, now, updated)
    ensures c.(pending := unresolved) == ResolvePending(before, now) && updated == ResolveUpdates(before, now)
  {
    var start, all := before.(pending := []), Resolvable(before.pending, before.identities, now);
    assert unresolved == Unresolved(before.pending, before.identities, now);
    MatchesIgnorePending(start, unresolved, all);
    UpdatesIgnorePending(start, before.pending, all);
    assert start.(pending := before.pending) == before;
  }

  class DnsAttributionCache {
    var bindings: Bindings
    var identities: Identities
    var pending: seq<Observation>
    var resolved: seq<Binding>

    ghost function View(): Cache
      reads this
    {
      Cache(bindings, identities, pending, resolved)
    }

    constructor ()
      ensures View() == EMPTY_CACHE && Valid(View())
    {
      bindings, identities, pending, resolved := map[], map[], [], [];
    }

    method CountEntries() returns (n: nat)
      ensures n == EntryCount(bindings)
    {
      n := 0;
      var todo := ListLengths(bindings);
      while todo != map[]
        invariant n + Sum(todo) == EntryCount(bindings)
        decreases |todo|
      {
        var k :| k in todo;
        SumWithout(todo, k);
        n := n + todo[k];
        todo := todo - {k};
      }
    }

    method CountItems() returns (n: nat)
      ensures n == ItemCount(View())
    {
      n := CountEntries();
      n := n + |identities| + |pending| + |resolved|;
    }

    method EnqueuePending(o: Observation)
      modifies this`pending
      ensures pending == PushBounded(old(pending), o, MAX_PENDING_OBSERVATIONS)
    {
      ghost var dropped := 0;
      while |pending| >= MAX_PENDING_OBSERVATIONS
        invariant dropped <= |old(pending)| && pending == old(pending)[dropped..]
        invariant dropped > 0 ==> |pending| >= MAX_PENDING_OBSERVATIONS - 1
      {
        pending := pending[1..];
        dropped := dropped + 1;
      }
      pending := pending + [o];
    }

    method PushResolved(b: Binding)
      modifies this`resolved
      ensures resolved == PushBounded(old(resolved), b, MAX_RESOLVED_BINDINGS)
    {
      ghost var dropped := 0;
      while |resolved| >= MAX_RESOLVED_BINDINGS
        invariant dropped <= |old(resolved)| && resolved == old(resolved)[dropped..]
        invariant dropped > 0 ==> |resolved| >= MAX_RESOLVED_BINDINGS - 1
      {
        resolved := resolved[1..];
        dropped := dropped + 1;
      }
      resolved := resolved + [b];
    }

    method AddDomainBinding(key: Key, o: Observation) returns (updated: bool)
      modifies this`bindings, this`resolved
      ensures View() == AddBinding(old(View()), key, o)
      ensures updated <==> AddUpdates(old(View()), key, o) == 1
    {
      var entries := Live(if key in bindings then bindings[key] else [], o.observedAt);
      var i := IndexOf(entries, o.domain);
      if i < |entries| {
        if o.observedAt < entries[i].associatedAt {
          bindings := bindings[key := entries];
          return false;
        }
        entries := entries[i := NewEntry(o)];
      } else {
        entries := entries + [NewEntry(o)];
      }
      bindings := bindings[key := entries];
      resolved := Without(resolved, key.mac, V4(key.target));
      if |entries| == 1 {
        PushResolved(Announce(key, entries[0]));
      }
      updated := true;
    }

    method AddDomainBindings(mac: Mac, o: Observation) returns (updated: nat)
      modifies this`bindings, this`resolved
      ensures View() == AddBindings(old(View()), mac, o.targets, o)
      ensures updated == TargetUpdates(old(View()), mac, o.targets, o)
      ensures Valid(old(View())) ==> updated == |NewUnder(old(bindings), mac, o.targets, o)|
      ensures Valid(old(View())) ==> forall t :: t in o.targets ==>
                && Key(mac, t) in bindings
                && Learns(EntriesAt(old(bindings), Key(mac, t)), bindings[Key(mac, t)], o)
    {
      ghost var before := View();
      updated := 0;
      assert o.targets[0..] == o.targets;
      for i := 0 to |o.targets|
        invariant AddBindings(View(), mac, o.targets[i..], o) == AddBindings(old(View()), mac, o.targets, o)
        invariant updated + TargetUpdates(View(), mac, o.targets[i..], o)
            == TargetUpdates(old(View()), mac, o.targets, o)
      {
        assert o.targets[i..][1..] == o.targets[i + 1..];
        var fresher := AddDomainBinding(Key(mac, o.targets[i]), o);
        if fresher {
          updated := updated + 1;
        }
      }
      if Valid(before) {
        UpdatesAreCounted(before, mac, o.targets, o);
        forall t | t in o.targets
          ensures && Key(mac, t) in bindings
                  && Learns(EntriesAt(before.bindings, Key(mac, t)), bindings[Key(mac, t)], o)
        {
          AnswerIsLearned(before, mac, o.targets, o, Key(mac, t));
        }
      }
    }

    /** Bind one observation if it has exactly one candidate device. */
    method ResolveObservation(o: Observation, now: Timestamp) returns (waits: bool, updated: nat)
      modifies this`bindings, this`resolved
      ensures waits == KeepsWaiting(identities, o, now)
      ensures View() == AddMatches(old(View()), Resolvable([o], identities, now))
      ensures updated == MatchUpdates(old(View()), Resolvable([o], identities, now))
    {
      assert [o][1..] == [] && Resolvable([], identities, now) == [];
      if IsExpired(o, now) {
        return false, 0;
      }
      var candidates := Candidates(identities, o);
      if |candidates| != 1 {
        return true, 0;
      }
      var mac :| mac in candidates;
      OneCandidate(candidates, mac);
      assert Resolvable([o], identities, now) == [Match(mac, o)] && [Match(mac, o)] + [] == [Match(mac, o)];
      MatchesCons(View(), Match(mac, o), []);
      waits := false;
      updated := AddDomainBindings(mac, o);
    }

    method ResolvePendingObservations(now: Timestamp) returns (updated: nat)
      modifies this
      ensures View() == ResolvePending(old(View()), now)
      ensures updated == ResolveUpdates(old(View()), now)
    {
      ghost var before := View();
      updated := 0;
      var queue, unresolved := pending, [];
      HalfwayStart(before, now);
      pending := [];
      while queue != []
        invariant Halfway(before, View(), queue, unresolved, now, updated)
        decreases |queue|
      {
        HalfwayStep(before, View(), queue, unresolved, now, updated);
        var o := queue[0];
        var waits, n := ResolveObservation(o, now);
        unresolved := if waits then unresolved + [o] else unresolved;
        queue, updated := queue[1..], updated + n;
      }
      HalfwayEnd(before, View(), unresolved, now, updated);
      pending := unresolved;
    }

    method PurgeState(now: Timestamp)
      modifies this
      ensures View() == Purge(old(View()), now)
    {
      bindings := LiveBindings(bindings, now);
      identities := LiveIdentities(identities, now);
      pending := LivePending(pending, now);
      resolved := LiveResolved(resolved, now);
    }

    method CollectFrom(observations: seq<DnsObservation>, now: Timestamp) returns (updated: nat)
      modifies this
      ensures updated == CollectUpdates(old(View()), observations, now)
      ensures View() == Collect(old(View()), observations, now)
      ensures Valid(old(View())) ==> Valid(View())
      ensures Valid(old(View())) ==> BindsAndKeeps(old(View()), Collecting(observations, now), bindings)
    {
      updated := 0;
      ghost var before := View();
      var prepared := PrepareAll(observations);
      if prepared != [] {
        PurgeState(now);
        ghost var purged := View();
        assert prepared[0..] == prepared;
        for i := 0 to |prepared|
          invariant EnqueueAll(pending, prepared[i..]) == EnqueueAll(purged.pending, prepared)
          invariant View() == purged.(pending := pending)
        {
          assert prepared[i..][1..] == prepared[i + 1..];
          EnqueuePending(prepared[i]);
        }
        updated := ResolvePendingObservations(now);
      }
      if Valid(before) {
        NextValid(before, Collecting(observations, now));
        StepBinds(before, Collecting(observations, now));
      }
    }

    method LearnFlowIdentities(flows: seq<Flow>, now: Timestamp) returns (learned: nat)
      modifies this
      ensures View() == Learn(old(View()), flows, now)
      ensures learned == |Filter((f: Flow) => Teaches(f, now), flows)|
      ensures Valid(old(View())) ==> Valid(View())
      ensures Valid(old(View())) ==> BindsAndKeeps(old(View()), Learning(flows, now), bindings)
    {
      ghost var before := View();
      PurgeState(now);
      ghost var purged := View();
      ghost var keep := (f: Flow) => Teaches(f, now);
      learned := 0;
      assert flows[0..] == flows;
      for i := 0 to |flows|
        invariant LearnAll(identities, flows[i..], now) == LearnAll(purged.identities, flows, now)
        invariant learned + |Filter(keep, flows[i..])| == |Filter(keep, flows)|
        invariant View() == purged.(identities := identities)
      {
        assert flows[i..][1..] == flows[i + 1..];
        FilterCons(keep, flows[i..]);
        if Learnable(flows[i], now) {
          identities := identities[flows[i].flowId := IdentityOf(flows[i])];
          learned := learned + 1;
        }
      }
      var _ := ResolvePendingObservations(now);
      if Valid(before) {
        NextValid(before, Learning(flows, now));
        StepBinds(before, Learning(flows, now));
      }
    }

    /** Label one flow in place of the caller's copy; an exact DNS match replaces any weaker attribution. */
    method AttributeFlow(f: Flow) returns (labelled: bool, flow: Flow)
      ensures labelled == Labelled(bindings, f).Some?
      ensures flow == if labelled then Labelled(bindings, f).value else f
      ensures labelled <==>
                && f.Mac() != EMPTY && f.endpoints.destinationIp.V4?
                && exists i: nat :: OnlyInForce(EntriesFor(bindings, f), f, i)
      ensures labelled ==> forall i: nat :: OnlyInForce(EntriesFor(bindings, f), f, i) ==>
                flow == LabelOf(f, EntriesFor(bindings, f)[i])
    {
      LabelledExactly(bindings, f);
      labelled, flow := false, f;
      if f.Mac() == EMPTY || !f.endpoints.destinationIp.V4? {
        return;
      }
      var key := Key(f.Mac(), f.endpoints.destinationIp.bits);
      if key !in bindings {
        assert InForceEntries([], f) == [];
        return;
      }
      var inForce := InForceEntries(bindings[key], f);
      if |inForce| == 1 {
        labelled, flow := true, f.(domain := Some(Announce(key, inForce[0]).attribution));
      }
    }

    method AttributeFlows(flows: array<Flow>) returns (n: nat)
      modifies flows
      ensures forall i :: 0 <= i < flows.Length ==>
                flows[i] == if Labelled(bindings, old(flows[i])).Some? then Labelled(bindings, old(flows[i])).value
                    else old(flows[i])
      ensures n == |Filter((f: Flow) => Labelled(old(bindings), f).Some?, old(flows[..]))|
    {
      n := 0;
      ghost var keep := (f: Flow) => Labelled(old(bindings), f).Some?;
      ghost var before := flows[..];
      assert before[0..] == before;
      for i := 0 to flows.Length
        invariant flows[i..] == before[i..]
        invariant forall j :: 0 <= j < i ==>
                    flows[j] == if Labelled(bindings, before[j]).Some? then Labelled(bindings, before[j]).value
                        else before[j]
        invariant n + |Filter(keep, before[i..])| == |Filter(keep, before)|
      {
        assert before[i..][1..] == before[i + 1..] && flows[i] == before[i];
        FilterCons(keep, before[i..]);
        var labelled, flow := AttributeFlow(flows[i]);
        flows[i] := flow;
        if labelled {
          n := n + 1;
        }
        assert flows[i + 1..] == before[i + 1..];
      }
    }

    /** Reports the bindings, identities and waiting observations removed; the queue of announcements is not counted. */
    method PurgeExpired(now: Timestamp) returns (n: nat)
      modifies this
      ensures View() == Purge(old(View()), now)
      ensures n == (EntryCount(old(bindings)) - EntryCount(bindings)) + (|old(identities)| - |identities|)
          + (|old(pending)| - |pending|)
      ensures Valid(old(View())) ==> Valid(View())
    {
      ghost var before := View();
      var was := CountEntries();
      was := was + |identities| + |pending|;
      PurgeState(now);
      var remaining := CountItems();
      PurgeIsSmaller(before, now);
      SmallerCounts(View(), before);
      n := was - (remaining - |resolved|);
      if Valid(before) {
        NextValid(before, Expiring(now));
      }
    }

    method DrainResolvedBindings() returns (drained: seq<Binding>)
      modifies this`resolved
      ensures drained == old(resolved) && View() == Drained(old(View()))
    {
      drained := resolved;
      resolved := [];
    }

    method RequeueResolvedBindings(bs: seq<Binding>)
      modifies this`resolved
      ensures View() == Requeue(old(View()), bs)
      ensures Valid(old(View())) && (forall b :: b in bs ==> Announced(b)) ==> Valid(View())
    {
      ghost var before := View();
      assert bs[0..] == bs;
      for i := 0 to |bs|
        invariant Requeue(View(), bs[i..]) == Requeue(before, bs)
      {
        assert bs[i..][1..] == bs[i + 1..];
        if StillUnique(bindings, bs[i]) {
          resolved := Without(resolved, bs[i].clientMac, bs[i].targetIp);
          PushResolved(bs[i]);
        }
      }
      if Valid(before) && (forall b :: b in bs ==> Announced(b)) {
        NextValid(before, Requeueing(bs));
      }
    }

    method PurgeDeviceData(mac: Mac) returns (n: nat)
      modifies this
      ensures View() == PurgeDevice(old(View()), mac) && n == ItemCount(old(View())) - ItemCount(View())
      ensures Valid(old(View())) ==> Valid(View())
    {
      if mac == EMPTY {
        return 0;
      }
      ghost var before := View();
      var was := CountItems();
      var known := identities;
      bindings := map k | k in bindings && k.mac != mac :: bindings[k];
      identities := map id | id in identities && identities[id].clientMac != mac :: identities[id];
      pending := Filter((o: Observation) => !IsOnlyFrom(known, o, mac), pending);
      resolved := Filter((b: Binding) => b.clientMac != mac, resolved);
      assert View() == PurgeDevice(before, mac);
      Forgets(before, ForgettingDevice(mac));
      var now := CountItems();
      n := was - now;
    }

    method PurgeDomainData(scope: Option<Mac>, domain: Option<DomainName>) returns (n: nat)
      modifies this
      ensures View() == PurgeDomain(old(View()), scope, domain) && n == ItemCount(old(View())) - ItemCount(View())
      ensures Valid(old(View())) ==> Valid(View())
    {
      if domain.None? || scope == Some(EMPTY) {
        return 0;
      }
      ghost var before := View();
      var was := CountItems();
      var d, known := domain.value, identities;
      bindings := KeepEntries(bindings, (k: Key, e: Entry) => !(InScope(scope, k.mac) && e.domain == d));
      pending := Filter((o: Observation) => o.domain != d
          || (scope.Some? && !IsOnlyFrom(known, o, scope.value)), pending);
      resolved := Filter((b: Binding) => b.attribution.domain != d || !InScope(scope, b.clientMac), resolved);
      assert View() == PurgeDomain(before, scope, domain);
      Forgets(before, ForgettingDomain(scope, domain));
      var now := CountItems();
      n := was - now;
    }

    method PurgeDataRange(range: TimeRange) returns (n: nat)
      modifies this
      ensures View() == PurgeRange(old(View()), range) && n == ItemCount(old(View())) - ItemCount(View())
      ensures Valid(old(View())) ==> Valid(View())
    {
      ghost var before := View();
      var was := CountItems();
      bindings := KeepEntries(bindings, (k: Key, e: Entry) => !range.Contains(e.associatedAt));
      identities := map id | id in identities && !TouchesRange(identities[id], range) :: identities[id];
      pending := Filter((o: Observation) => !range.Contains(o.observedAt), pending);
      resolved := Filter((b: Binding) => !range.Contains(b.attribution.associatedAt), resolved);
      assert View() == PurgeRange(before, range);
      Forgets(before, ForgettingRange(range));
      var now := CountItems();
      n := was - now;
    }
  }

  lemma {:induction false} BindingsIgnorePending(c: Cache, p: seq<Observation>, mac: Mac, targets: seq<Address>,
      o: Observation)
    ensures AddBindings(c.(pending := p), mac, targets, o) == AddBindings(c, mac, targets, o).(pending := p)
    decreases |targets|
  {
    if targets != [] {
      BindingsIgnorePending(AddBinding(c, Key(mac, targets[0]), o), p, mac, targets[1..], o);
    }
  }

  /** Binding does not look at the queue of waiting observations. */
  lemma {:induction false} MatchesIgnorePending(c: Cache, p: seq<Observation>, matches: seq<Match>)
    ensures AddMatches(c.(pending := p), matches) == AddMatches(c, matches).(pending := p)
    decreases |matches|
  {
    if matches != [] {
      var m := matches[0];
      BindingsIgnorePending(c, p, m.mac, m.observation.targets, m.observation);
      MatchesIgnorePending(AddBindings(c, m.mac, m.observation.targets, m.observation), p, matches[1..]);
    }
  }

  lemma {:induction false} TargetUpdatesIgnorePending(
      c: Cache, p: seq<Observation>, mac: Mac, targets: seq<Address>, o: Observation)
    ensures TargetUpdates(c.(pending := p), mac, targets, o) == TargetUpdates(c, mac, targets, o)
    decreases |targets|
  {
    if targets != [] {
      TargetUpdatesIgnorePending(AddBinding(c, Key(mac, targets[0]), o), p, mac, targets[1..], o);
    }
  }

  lemma {:induction false} UpdatesIgnorePending(c: Cache, p: seq<Observation>, matches: seq<Match>)
    ensures MatchUpdates(c.(pending := p), matches) == MatchUpdates(c, matches)
    decreases |matches|
  {
    if matches != [] {
      var m := matches[0];
      BindingsIgnorePending(c, p, m.mac, m.observation.targets, m.observation);
      TargetUpdatesIgnorePending(c, p, m.mac, m.observation.targets, m.observation);
      UpdatesIgnorePending(AddBindings(c, m.mac, m.observation.targets, m.observation), p, matches[1..]);
    }
  }
}
