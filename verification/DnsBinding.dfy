/** What a resolution binds: every address of every answer whose device is known, and nothing is lost over it. */
module DnsBinding {
  import opened Domain
  import opened Sequences
  import opened DnsCache
  import opened DnsInvariant
  import opened DnsHistory

  // ----- one answer and one list -----

  /** An entry of the answer's domain that was in force when the answer was made, and began after it. */
  ghost predicate Outdates(before: seq<Entry>, o: Observation, e: Entry) {
    e in before && e.domain == o.domain && e.expiresAt > o.observedAt && e.associatedAt > o.observedAt
  }

  ghost predicate IsOutdated(before: seq<Entry>, o: Observation) { exists e :: Outdates(before, o, e) }

  /**
   * The list after the answer: of other domains exactly the entries that were not over; of its own domain the
   * newer entry if there was one, and otherwise the answer's start and end.
   */
  ghost predicate Learns(before: seq<Entry>, after: seq<Entry>, o: Observation) {
    forall e ::
      e in after <==>
        if e.domain != o.domain then e in before && e.expiresAt > o.observedAt
        else if IsOutdated(before, o) then Outdates(before, o, e)
        else e == Entry(o.domain, o.observedAt, o.bindingExpiresAt)
  }

  lemma StaleIsOutdated(before: seq<Entry>, o: Observation)
    requires DistinctDomains(before)
    ensures IsStale(Live(before, o.observedAt), o) <==> IsOutdated(before, o)
  {
    var live := Live(before, o.observedAt);
    LiveDistinct(before, o.observedAt);
    var i := IndexOf(live, o.domain);
    if IsStale(live, o) {
      assert live[i] in live;
      assert Outdates(before, o, live[i]);
    }
    if e :| Outdates(before, o, e) {
      assert e in live;
      var j :| 0 <= j < |live| && live[j] == e;
      assert i < j ==> DifferentDomains(live[i], live[j]);
    }
  }

  lemma BindingIsLearned(c: Cache, key: Key, o: Observation)
    requires Valid(c)
    ensures key in AddBinding(c, key, o).bindings
    ensures Learns(EntriesAt(c.bindings, key), AddBinding(c, key, o).bindings[key], o)
  {
    var before := EntriesAt(c.bindings, key);
    var live := Live(before, o.observedAt);
    var after := AddBinding(c, key, o).bindings[key];
    LiveDistinct(before, o.observedAt);
    StaleIsOutdated(before, o);
    if IsStale(live, o) {
      var i := IndexOf(live, o.domain);
      forall e | e in after && e.domain == o.domain ensures Outdates(before, o, e) {
        var j :| 0 <= j < |live| && live[j] == e;
        SameDomainSameEntry(live, i, j);
      }
    } else {
      RefreshedMembers(live, o);
    }
  }

  lemma SameDomainSameEntry(entries: seq<Entry>, i: nat, j: nat)
    requires DistinctDomains(entries) && i < |entries| && j < |entries| && entries[i].domain == entries[j].domain
    ensures i == j
  {}

  /** Refreshing puts the new entry in the place of the domain's old one, or at the end. */
  lemma RefreshedMembers(live: seq<Entry>, o: Observation)
    requires DistinctDomains(live)
    ensures forall e :: e in Refreshed(live, o) <==> (e in live && e.domain != o.domain) || e == NewEntry(o)
  {
    var i, after := IndexOf(live, o.domain), Refreshed(live, o);
    assert after[i] == NewEntry(o);
    forall e | e in live && e.domain != o.domain ensures e in after {
      var j :| 0 <= j < |live| && live[j] == e;
      assert after[j] == e;
    }
    forall e | e in after && e != NewEntry(o) ensures e in live && e.domain != o.domain {
      var j :| 0 <= j < |after| && after[j] == e;
      assert live[j] == e && j != i;
      assert i < j ==> DifferentDomains(live[i], live[j]);
    }
  }

  /** Learning the same answer twice is learning it once. */
  lemma LearnsTwice(a: seq<Entry>, b: seq<Entry>, c: seq<Entry>, o: Observation)
    requires Learns(a, b, o) && Learns(b, c, o)
    ensures Learns(a, c, o) && (IsOutdated(a, o) <==> IsOutdated(b, o))
  {
    forall e ensures Outdates(a, o, e) <==> Outdates(b, o, e) {}
    assert IsOutdated(a, o) <==> IsOutdated(b, o);
  }

  // ----- one answer and the whole table -----

  predicate Concerns(k: Key, mac: Mac, targets: seq<Address>) { k.mac == mac && k.target in targets }

  /** An answer bound to a device is learned under every one of its addresses, and no other key changes. */
  lemma {:induction false} AnswerIsLearned(c: Cache, mac: Mac, targets: seq<Address>, o: Observation, k: Key)
    requires Valid(c)
    ensures var d := AddBindings(c, mac, targets, o);
            if k.mac == mac && k.target in targets then
              k in d.bindings && Learns(if k in c.bindings then c.bindings[k] else [], d.bindings[k], o)
            else
              (k in d.bindings <==> k in c.bindings) && (k in d.bindings ==> d.bindings[k] == c.bindings[k])
    decreases |targets|
  {
    if targets != [] {
      var key := Key(mac, targets[0]);
      var next := AddBinding(c, key, o);
      assert targets == [targets[0]] + targets[1..];
      BindingIsLearned(c, key, o);
      AddBindingValid(c, key, o);
      AnswerIsLearned(next, mac, targets[1..], o, k);
      if k == key && k.target in targets[1..] {
        LearnsTwice(EntriesAt(c.bindings, k), next.bindings[k], AddBindings(c, mac, targets, o).bindings[k], o);
      }
    }
  }

  /** The addresses under which the answer is news. */
  ghost function NewUnder(bindings: Bindings, mac: Mac, targets: seq<Address>, o: Observation): seq<Address> {
    Filter(t => !IsOutdated(EntriesAt(bindings, Key(mac, t)), o), targets)
  }

  /** Learning an answer under one address does not make it news, or old, under another. */
  lemma StaysFresh(c: Cache, key: Key, o: Observation, k: Key)
    requires Valid(c)
    ensures IsOutdated(EntriesAt(AddBinding(c, key, o).bindings, k), o) <==> IsOutdated(EntriesAt(c.bindings, k), o)
  {
    var next := AddBinding(c, key, o);
    if k == key {
      BindingIsLearned(c, key, o);
      AddBindingValid(c, key, o);
      BindingIsLearned(next, key, o);
      LearnsTwice(EntriesAt(c.bindings, key), next.bindings[key], AddBinding(next, key, o).bindings[key], o);
    }
  }

  /** Every address counts, except those that know of a newer answer for the domain. */
  lemma {:induction false} UpdatesAreCounted(c: Cache, mac: Mac, targets: seq<Address>, o: Observation)
    requires Valid(c)
    ensures TargetUpdates(c, mac, targets, o) == |NewUnder(c.bindings, mac, targets, o)|
    decreases |targets|
  {
    if targets != [] {
      var key, rest := Key(mac, targets[0]), targets[1..];
      var next := AddBinding(c, key, o);
      AddBindingValid(c, key, o);
      UpdatesAreCounted(next, mac, rest, o);
      forall t | t in rest
        ensures IsOutdated(EntriesAt(next.bindings, Key(mac, t)), o)
           <==> IsOutdated(EntriesAt(c.bindings, Key(mac, t)), o)
      {
        StaysFresh(c, key, o, Key(mac, t));
      }
      FilterAgrees(t => !IsOutdated(EntriesAt(c.bindings, Key(mac, t)), o),
          t => !IsOutdated(EntriesAt(next.bindings, Key(mac, t)), o), rest);
      StaleCounts(c, key, o);
    }
  }

  lemma StaleCounts(c: Cache, key: Key, o: Observation)
    requires Valid(c)
    ensures AddUpdates(c, key, o) == if IsOutdated(EntriesAt(c.bindings, key), o) then 0 else 1
  {
    if key in c.bindings {
      StaleIsOutdated(c.bindings[key], o);
    } else {
      StaleIsOutdated([], o);
    }
  }

  // ----- announcements -----

  /** What the ledger is told when the answer becomes the only binding of a device and an address. */
  function Announcement(key: Key, o: Observation): Binding {
    Binding(key.mac, V4(key.target), Attribution(o.domain, Dns, High, o.observedAt, Some(o.bindingExpiresAt)))
  }

  predicate SpeaksOf(b: Binding, key: Key) { b.clientMac == key.mac && b.targetIp == V4(key.target) }

  /**
   * A stale answer leaves the queue alone. Any other withdraws what was queued for the key, and announces the
   * answer exactly when it is all the key has; announcements of other keys stay, as far as there is room.
   */
  lemma BindingIsAnnounced(c: Cache, key: Key, o: Observation)
    requires Valid(c)
    ensures var d, stale := AddBinding(c, key, o), IsOutdated(EntriesAt(c.bindings, key), o);
            && (stale ==> d.resolved == c.resolved)
            && (!stale ==> forall b :: b in d.resolved && SpeaksOf(b, key) <==>
                  d.bindings[key] == [Entry(o.domain, o.observedAt, o.bindingExpiresAt)] && b == Announcement(key, o))
            && (forall b :: b in d.resolved && !SpeaksOf(b, key) ==> b in c.resolved)
            && (|c.resolved| < 4_096 ==>
                  |d.resolved| <= |c.resolved| + 1
                  && forall b :: b in c.resolved && !SpeaksOf(b, key) ==> b in d.resolved)
  {
    var d := AddBinding(c, key, o);
    var others := Without(c.resolved, key.mac, V4(key.target));
    StaleCounts(c, key, o);
    BindingIsLearned(c, key, o);
    WithoutDistinct(c.resolved, key.mac, V4(key.target));
    forall b ensures b in others <==> b in c.resolved && !SpeaksOf(b, key) {
      WithoutMember(c.resolved, key.mac, V4(key.target), b);
    }
    if !IsOutdated(EntriesAt(c.bindings, key), o) {
      var entries := d.bindings[key];
      assert NewEntry(o) in entries;
      if |entries| == 1 {
        assert entries == [NewEntry(o)];
        assert d.resolved == PushBounded(others, Announcement(key, o), MAX_RESOLVED_BINDINGS);
        assert d.resolved[|d.resolved| - 1] == Announcement(key, o);
      }
    }
  }

  /** With room in the queue, each address of which the answer becomes the only binding is announced. */
  lemma {:induction false} AnswerIsAnnounced(c: Cache, mac: Mac, targets: seq<Address>, o: Observation, k: Key)
    requires Valid(c) && |c.resolved| + |targets| <= 4_096
    ensures var d := AddBindings(c, mac, targets, o);
            if Concerns(k, mac, targets) && !IsOutdated(EntriesAt(c.bindings, k), o) then
              forall b :: b in d.resolved && SpeaksOf(b, k) <==>
                EntriesAt(d.bindings, k) == [Entry(o.domain, o.observedAt, o.bindingExpiresAt)]
                && b == Announcement(k, o)
            else
              forall b :: SpeaksOf(b, k) ==> (b in d.resolved <==> b in c.resolved)
    decreases |targets|
  {
    if targets != [] {
      var key, rest := Key(mac, targets[0]), targets[1..];
      var next := AddBinding(c, key, o);
      assert targets == [targets[0]] + rest;
      BindingIsLearned(c, key, o);
      BindingIsAnnounced(c, key, o);
      AddBindingValid(c, key, o);
      AnswerIsAnnounced(next, mac, rest, o, k);
      AnswerIsLearned(next, mac, rest, o, k);
      StaysFresh(c, key, o, k);
    }
  }

  // ----- a whole resolution -----

  /** The key has an entry of the domain that began no earlier than `from` and is not over. */
  ghost predicate Held(bindings: Bindings, k: Key, d: DomainName, from: Timestamp, now: Timestamp) {
    k in bindings && exists e :: e in bindings[k] && e.domain == d && e.associatedAt >= from && e.expiresAt > now
  }

  ghost predicate NothingOver(bindings: Bindings, now: Timestamp) {
    forall k, e :: k in bindings && e in bindings[k] ==> e.expiresAt > now
  }

  /** An observation for the key that claims to be from the future. */
  ghost predicate Foretells(p: Observation, k: Key, now: Timestamp) { k.target in p.targets && p.observedAt > now }

  /** One list under an answer that is not over: its domain is held from then on, and so is every other. */
  lemma LearnedIsHeld(before: seq<Entry>, after: seq<Entry>, o: Observation, now: Timestamp)
    requires Learns(before, after, o) && o.bindingExpiresAt > now && (forall e :: e in before ==> e.expiresAt > now)
    ensures forall e :: e in after ==> e.expiresAt > now
    ensures exists e :: e in after && e.domain == o.domain && e.associatedAt >= o.observedAt
  {
    if IsOutdated(before, o) {
      var e :| Outdates(before, o, e);
      assert e in after;
    } else {
      assert NewEntry(o) in after;
    }
  }

  lemma HeldIsLearned(before: seq<Entry>, after: seq<Entry>, o: Observation, now: Timestamp, e: Entry)
    requires Learns(before, after, o) && o.observedAt <= now && e in before && e.expiresAt > now
    ensures exists x :: x in after && x.domain == e.domain && x.associatedAt >= e.associatedAt
  {
    if e.domain == o.domain {
      if IsOutdated(before, o) {
        var x :| Outdates(before, o, x);
        assert x in after;
        assert Outdates(before, o, e) ==> e in after;
      } else {
        assert !Outdates(before, o, e);
        assert NewEntry(o) in after;
      }
    }
  }

  lemma MatchKeepsLive(c: Cache, m: Match, now: Timestamp)
    requires Valid(c) && NothingOver(c.bindings, now) && m.observation.bindingExpiresAt > now
    ensures NothingOver(AddBindings(c, m.mac, m.observation.targets, m.observation).bindings, now)
  {
    var o := m.observation;
    var after := AddBindings(c, m.mac, o.targets, o).bindings;
    forall k: Key, e: Entry | k in after && e in after[k] ensures e.expiresAt > now {
      AnswerIsLearned(c, m.mac, o.targets, o, k);
      if Concerns(k, m.mac, o.targets) {
        LearnedIsHeld(EntriesAt(c.bindings, k), after[k], o, now);
      }
    }
  }

  lemma MatchHolds(c: Cache, m: Match, k: Key, d: DomainName, from: Timestamp, now: Timestamp)
    requires Valid(c) && NothingOver(c.bindings, now) && m.observation.bindingExpiresAt > now
    ensures var o := m.observation;
            var after := AddBindings(c, m.mac, o.targets, o).bindings;
            && NothingOver(after, now)
            && (Concerns(k, m.mac, o.targets) ==> Held(after, k, o.domain, o.observedAt, now))
            && (Held(c.bindings, k, d, from, now) && !(m.mac == k.mac && Foretells(o, k, now)) ==>
                  Held(after, k, d, from, now))
  {
    var o := m.observation;
    var after := AddBindings(c, m.mac, o.targets, o).bindings;
    MatchKeepsLive(c, m, now);
    AnswerIsLearned(c, m.mac, o.targets, o, k);
    if Concerns(k, m.mac, o.targets) {
      var before := EntriesAt(c.bindings, k);
      LearnedIsHeld(before, after[k], o, now);
      if Held(c.bindings, k, d, from, now) && o.observedAt <= now {
        var e :| e in before && e.domain == d && e.associatedAt >= from && e.expiresAt > now;
        HeldIsLearned(before, after[k], o, now, e);
      }
    }
  }

  lemma {:induction false} MatchesHold(c: Cache, matches: seq<Match>, k: Key, d: DomainName, from: Timestamp,
      now: Timestamp)
    requires Valid(c) && NothingOver(c.bindings, now) && Held(c.bindings, k, d, from, now)
    requires forall m: Match :: m in matches ==> m.observation.bindingExpiresAt > now
    ensures || Held(AddMatches(c, matches).bindings, k, d, from, now)
            || exists m: Match :: m in matches && m.mac == k.mac && Foretells(m.observation, k, now)
    decreases |matches|
  {
    if matches != [] {
      var m, rest := matches[0], matches[1..];
      assert m in matches && forall x: Match :: x in rest ==> x in matches;
      MatchHolds(c, m, k, d, from, now);
      if !(m.mac == k.mac && Foretells(m.observation, k, now)) {
        AddBindingsValid(c, m.mac, m.observation.targets, m.observation);
        MatchesHold(AddBindings(c, m.mac, m.observation.targets, m.observation), rest, k, d, from, now);
      }
    }
  }

  lemma {:induction false} MatchesBind(c: Cache, matches: seq<Match>, m: Match, t: Address, now: Timestamp)
    requires Valid(c) && NothingOver(c.bindings, now) && m in matches && t in m.observation.targets
    requires forall x: Match :: x in matches ==> x.observation.bindingExpiresAt > now
    ensures var k := Key(m.mac, t);
            || Held(AddMatches(c, matches).bindings, k, m.observation.domain, m.observation.observedAt, now)
            || exists x: Match :: x in matches && x.mac == m.mac && Foretells(x.observation, k, now)
    decreases |matches|
  {
    var first, rest := matches[0], matches[1..];
    var k, o := Key(m.mac, t), m.observation;
    assert matches == [first] + rest;
    assert first in matches && forall x: Match :: x in rest ==> x in matches;
    var next := AddBindings(c, first.mac, first.observation.targets, first.observation);
    MatchHolds(c, first, k, o.domain, o.observedAt, now);
    AddBindingsValid(c, first.mac, first.observation.targets, first.observation);
    if m == first {
      MatchesHold(next, rest, k, o.domain, o.observedAt, now);
    } else {
      MatchesBind(next, rest, m, t, now);
    }
  }

  lemma {:induction false} ResolvableIff(pending: seq<Observation>, identities: Identities, now: Timestamp, m: Match)
    ensures m in Resolvable(pending, identities, now) <==>
              && m.observation in pending && OnlyAsker(identities, m.mac, m.observation)
              && m.observation.pendingExpiresAt > now && m.observation.bindingExpiresAt > now
    decreases |pending|
  {
    if pending != [] {
      var o := pending[0];
      assert pending == [o] + pending[1..];
      ResolvableIff(pending[1..], identities, now, m);
      SoleCandidateIsOnlyAsker(identities, m.mac, o);
      if |Candidates(identities, o)| == 1 {
        SoleElement(Candidates(identities, o));
      }
    }
  }

  /** Of the queue, every observation whose device is known and that is not over. */
  ghost predicate Resolves(r: Resolution, o: Observation, mac: Mac) {
    o in r.pending && o.pendingExpiresAt > r.now && o.bindingExpiresAt > r.now && OnlyAsker(r.identities, mac, o)
  }

  /** A queued observation of that device for the key that claims to be from the future. */
  ghost predicate IsForetold(r: Resolution, k: Key) {
    exists p :: Resolves(r, p, k.mac) && Foretells(p, k, r.now)
  }

  /** Every address of every observation that can be resolved is bound. */
  ghost predicate BindsAll(r: Resolution, after: Bindings) {
    forall o, mac, t :: Resolves(r, o, mac) && t in o.targets ==>
      Held(after, Key(mac, t), o.domain, o.observedAt, r.now) || IsForetold(r, Key(mac, t))
  }

  /** Every binding that is not over stays, or is refreshed. */
  ghost predicate KeepsAll(before: Bindings, r: Resolution, after: Bindings) {
    forall k, e :: k in before && e in before[k] && e.expiresAt > r.now ==>
      Held(after, k, e.domain, e.associatedAt, r.now) || IsForetold(r, k)
  }

  lemma ForetoldBy(r: Resolution, k: Key, m: Match)
    requires m in Resolvable(r.pending, r.identities, r.now) && m.mac == k.mac && Foretells(m.observation, k, r.now)
    ensures IsForetold(r, k)
  {
    ResolvableIff(r.pending, r.identities, r.now, m);
    assert Resolves(r, m.observation, k.mac);
  }

  lemma ResolutionBinds(c: Cache, now: Timestamp)
    requires Valid(c) && NothingOver(c.bindings, now)
    ensures var r := Resolution(c.pending, c.identities, now);
            BindsAll(r, ResolvePending(c, now).bindings) && KeepsAll(c.bindings, r, ResolvePending(c, now).bindings)
  {
    var r, after := Resolution(c.pending, c.identities, now), ResolvePending(c, now).bindings;
    var start, matches := c.(pending := Unresolved(c.pending, c.identities, now)),
        Resolvable(c.pending, c.identities, now);
    FilterLength(o => KeepsWaiting(c.identities, o, now), c.pending);
    forall m | m in matches ensures m.observation.bindingExpiresAt > now {
      ResolvableIff(c.pending, c.identities, now, m);
    }
    forall o, mac, t | Resolves(r, o, mac) && t in o.targets
      ensures Held(after, Key(mac, t), o.domain, o.observedAt, now) || IsForetold(r, Key(mac, t))
    {
      ResolvableIff(c.pending, c.identities, now, Match(mac, o));
      MatchesBind(start, matches, Match(mac, o), t, now);
      if m :| m in matches && m.mac == mac && Foretells(m.observation, Key(mac, t), now) {
        ForetoldBy(r, Key(mac, t), m);
      }
    }
    forall k, e | k in c.bindings && e in c.bindings[k]
      ensures Held(after, k, e.domain, e.associatedAt, now) || IsForetold(r, k)
    {
      assert Held(start.bindings, k, e.domain, e.associatedAt, now);
      MatchesHold(start, matches, k, e.domain, e.associatedAt, now);
      if m :| m in matches && m.mac == k.mac && Foretells(m.observation, k, now) {
        ForetoldBy(r, k, m);
      }
    }
  }

  // ----- collecting and learning -----

  lemma PurgedIsNotOver(bindings: Bindings, now: Timestamp)
    ensures NothingOver(LiveBindings(bindings, now), now)
    ensures forall k, e :: k in bindings && e in bindings[k] && e.expiresAt > now ==>
              k in LiveBindings(bindings, now) && e in LiveBindings(bindings, now)[k]
  {
    forall k, e | k in bindings ensures e in Live(bindings[k], now) <==> e in bindings[k] && e.expiresAt > now {
      FilterMember((x: Entry) => x.expiresAt > now, bindings[k], e);
    }
  }

  /**
   * A step that resolves the queue binds every address of every observation in it that is not over and whose device
   * is known, and loses no binding that is not over, except where an observation from the future is bound as well.
   */
  lemma StepBinds(c: Cache, step: CacheStep)
    requires Valid(c)
    ensures BindsAndKeeps(c, step, Next(c, step).bindings)
  {
    if Resolving(c, step).Some? {
      ResolvingBinds(c, step);
    }
  }

  ghost predicate BindsAndKeeps(c: Cache, step: CacheStep, after: Bindings) {
    var r := Resolving(c, step);
    r.Some? ==> BindsAll(r.value, after) && KeepsAll(c.bindings, r.value, after)
  }

  lemma ResolvingBinds(c: Cache, step: CacheStep)
    requires Valid(c) && Resolving(c, step).Some?
    ensures BindsAndKeeps(c, step, Next(c, step).bindings)
  {
    var r := Resolving(c, step).value;
    var purged := Purge(c, r.now);
    PurgeValid(c, r.now);
    PurgedIsNotOver(c.bindings, r.now);
    if step.Collecting? {
      EnqueueAllBounded(purged.pending, PrepareAll(step.observations));
    }
    var ready := purged.(pending := r.pending, identities := r.identities);
    assert Next(c, step) == ResolvePending(ready, r.now);
    ResolutionBinds(ready, r.now);
    forall k, e | k in c.bindings && e in c.bindings[k] && e.expiresAt > r.now
      ensures Held(Next(c, step).bindings, k, e.domain, e.associatedAt, r.now) || IsForetold(r, k)
    {
      assert e in purged.bindings[k];
    }
  }

  /** The queue keeps the last 4096 of what waited and what came in, in that order. */
  lemma {:induction false} QueueKeepsTheLast(pending: seq<Observation>, os: seq<Observation>)
    requires |pending| <= MAX_PENDING_OBSERVATIONS
    ensures var all := pending + os;
            EnqueueAll(pending, os) == if |all| > 4_096 then all[|all| - 4_096..] else all
    decreases |os|
  {
    if os == [] {
      assert pending + os == pending;
    } else {
      var next := PushBounded(pending, os[0], MAX_PENDING_OBSERVATIONS);
      QueueKeepsTheLast(next, os[1..]);
      assert pending + os == pending + [os[0]] + os[1..];
      if |pending| == MAX_PENDING_OBSERVATIONS {
        assert next + os[1..] == (pending + os)[1..];
      } else {
        assert next + os[1..] == pending + os;
      }
    }
  }

  lemma {:induction false} PreparedMember(os: seq<DnsObservation>, o: Observation)
    ensures o in PrepareAll(os) <==> exists j :: 0 <= j < |os| && Prepare(os[j]) == Some(o)
    ensures |PrepareAll(os)| <= |os|
    decreases |os|
  {
    if os != [] {
      PreparedMember(os[1..], o);
      if j :| 0 <= j < |os| && Prepare(os[j]) == Some(o) {
        assert j > 0 ==> os[1..][j - 1] == os[j];
      }
      if j :| 0 <= j < |os[1..]| && Prepare(os[1..][j]) == Some(o) {
        assert os[j + 1] == os[1..][j];
      }
    }
  }

  /** An answer is usable if it has a name, addresses and a time to live that does not end before it begins. */
  lemma UsableAnswer(d: DnsObservation)
    ensures Prepare(d).None? <==> d.domain.None? || d.targets == [] || d.ttl == 0 || d.observedAt == MAX_I64
    ensures Prepare(d).Some? ==>
              var o := Prepare(d).value;
              && o.pendingExpiresAt == Saturate(d.observedAt + if d.ttl < 300 then d.ttl * 1_000 else 300_000)
              && o.bindingExpiresAt == Saturate(d.observedAt + d.ttl * 1_000)
  {}

  /** An identity that a purge at `now` leaves. */
  ghost predicate AsksLately(identities: Identities, now: Timestamp, mac: Mac, o: Observation) {
    exists id ::
      && id in identities && identities[id].lastSeen >= now - 300_000
      && identities[id].clientMac == mac && identities[id].clientIp == o.clientIp
      && identities[id].firstSeen <= o.observedAt <= identities[id].lastSeen + 5_000
  }

  lemma PurgedAskers(identities: Identities, now: Timestamp, mac: Mac, o: Observation)
    ensures MayHaveAsked(LiveIdentities(identities, now), mac, o) <==> AsksLately(identities, now, mac, o)
  {
    var live := LiveIdentities(identities, now);
    if MayHaveAsked(live, mac, o) {
      var id :|
        && id in live && live[id].clientMac == mac && live[id].clientIp == o.clientIp
        && live[id].firstSeen <= o.observedAt <= live[id].lastSeen + 5_000;
      assert id in identities && identities[id].lastSeen >= now - 300_000;
    }
    if AsksLately(identities, now, mac, o) {
      var id :|
        && id in identities && identities[id].lastSeen >= now - 300_000
        && identities[id].clientMac == mac && identities[id].clientIp == o.clientIp
        && identities[id].firstSeen <= o.observedAt <= identities[id].lastSeen + 5_000;
      assert id in live && live[id] == identities[id];
    }
  }

  /**
   * From the answer to the binding: a usable answer of the batch that is not over and has one device among those
   * seen in the last five minutes is bound to that device under each of its addresses, by the very step that
   * collects it, given room in the queue and nothing from the future in it.
   */
  lemma CollectedIsBound(c: Cache, os: seq<DnsObservation>, now: Timestamp, d: DnsObservation, mac: Mac, t: Address)
    requires Valid(c) && |c.pending| + |os| <= 4_096 && d in os && t in d.targets && d.domain.Some?
    requires now < d.observedAt + 300_000 && now < d.observedAt + d.ttl * 1_000
    requires (forall p :: p in c.pending ==> p.observedAt <= now) && (forall x :: x in os ==> x.observedAt <= now)
    requires now < MAX_I64
    requires forall o, m :: Prepare(d) == Some(o) ==> (AsksLately(c.identities, now, m, o) <==> m == mac)
    ensures Held(Collect(c, os, now).bindings, Key(mac, t), d.domain.value, d.observedAt, now)
  {
    UsableAnswer(d);
    var o, prepared := Prepare(d).value, PrepareAll(os);
    PreparedFaithfully(d, o);
    PreparedMember(os, o);
    var r := Resolving(c, Collecting(os, now)).value;
    FilterLength((x: Observation) => !IsExpired(x, now), c.pending);
    QueueKeepsTheLast(Purge(c, now).pending, prepared);
    assert r.pending == Purge(c, now).pending + prepared;
    forall m: Mac ensures MayHaveAsked(r.identities, m, o) <==> m == mac {
      PurgedAskers(c.identities, now, m, o);
    }
    assert Resolves(r, o, mac);
    StepBinds(c, Collecting(os, now));
    forall p | p in r.pending ensures p.observedAt <= now {
      LivePendingMember(c.pending, now, p);
      PreparedMember(os, p);
      if j :| 0 <= j < |os| && Prepare(os[j]) == Some(p) {
        assert os[j] in os;
      }
    }
  }

  // ----- why nothing may come from the future -----

  const EARLY := Observation(7, 1, [9], 1_000, 61_000, 61_000)
  const FUTURE := Observation(7, 2, [9], 100_000, 200_000, 200_000)

  lemma ResolvableCons(o: Observation, rest: seq<Observation>, identities: Identities, now: Timestamp, mac: Mac)
    requires !IsExpired(o, now) && OnlyAsker(identities, mac, o)
    ensures Resolvable([o] + rest, identities, now) == [Match(mac, o)] + Resolvable(rest, identities, now)
  {
    SoleCandidateIsOnlyAsker(identities, mac, o);
    assert ([o] + rest)[1..] == rest;
  }

  lemma BoundInTurn(c: Cache)
    requires Valid(c) && c.bindings == map[]
    ensures !Held(AddMatches(c, [Match(1, EARLY), Match(1, FUTURE)]).bindings, Key(1, 9), 1, 1_000, 2_000)
  {
    var once := AddBindings(c, 1, [9], EARLY);
    var twice := AddBindings(once, 1, [9], FUTURE);
    MatchesInTurn(c, Match(1, EARLY), Match(1, FUTURE));
    AddBindingsValid(c, 1, [9], EARLY);
    AnswerIsLearned(c, 1, [9], EARLY, Key(1, 9));
    AnswerIsLearned(once, 1, [9], FUTURE, Key(1, 9));
    assert forall e :: e in once.bindings[Key(1, 9)] ==> e.expiresAt <= 100_000;
  }

  lemma MatchesInTurn(c: Cache, m: Match, n: Match)
    ensures AddMatches(c, [m, n])
         == AddBindings(AddBindings(c, m.mac, m.observation.targets, m.observation), n.mac, n.observation.targets,
                        n.observation)
  {
    var once := AddBindings(c, m.mac, m.observation.targets, m.observation);
    assert [m, n][1..] == [n] && [n][1..] == [];
    assert AddMatches(c, [m, n]) == AddMatches(once, [n]);
    assert AddMatches(once, [n]) == AddMatches(AddBindings(once, n.mac, n.observation.targets, n.observation), []);
  }

  /**
   * At 2 000 two answers for one address wait, the second dated 100 000. Both are bound, and the first, which holds
   * until 61 000, is gone at once: it is over by the second one's date.
   */
  lemma FutureAnswerSupersedes(c: Cache)
    requires c == Cache(map[], map[5 := Identity(7, 1, 0, 100_000)], [EARLY, FUTURE], [])
    ensures Valid(c) && NothingOver(c.bindings, 2_000)
    ensures Resolves(Resolution(c.pending, c.identities, 2_000), EARLY, 1)
    ensures !Held(ResolvePending(c, 2_000).bindings, Key(1, 9), 1, 1_000, 2_000)
  {
    assert 5 in c.identities;
    assert OnlyAsker(c.identities, 1, EARLY) && OnlyAsker(c.identities, 1, FUTURE);
    assert c.pending == [EARLY] + [FUTURE] && [FUTURE] == [FUTURE] + [];
    ResolvableCons(EARLY, [FUTURE], c.identities, 2_000, 1);
    ResolvableCons(FUTURE, [], c.identities, 2_000, 1);
    assert Resolvable(c.pending, c.identities, 2_000) == [Match(1, EARLY), Match(1, FUTURE)];
    FilterLength(o => KeepsWaiting(c.identities, o, 2_000), c.pending);
    BoundInTurn(c.(pending := Unresolved(c.pending, c.identities, 2_000)));
  }

  // ----- the identities that flows teach -----

  /** A flow that shows who had its client address. */
  predicate Teaches(f: Flow, now: Timestamp) {
    && f.endpoints.clientIp.V4? && f.endpoints.clientMac != EMPTY && f.flowId != EMPTY
    && f.firstSeen <= f.lastSeen && f.lastSeen >= now - 300_000
  }

  /** The flow at `i` is the last of its id that shows anything. */
  ghost predicate TeachesLast(flows: seq<Flow>, now: Timestamp, i: nat) {
    && i < |flows| && Teaches(flows[i], now)
    && forall j :: i < j < |flows| && flows[j].flowId == flows[i].flowId ==> !Teaches(flows[j], now)
  }

  /** The last such flow of an id decides what is known under that id; an id without one is as before. */
  lemma {:induction false} IdentitiesAreLearned(identities: Identities, flows: seq<Flow>, now: Timestamp, id: FlowId)
    ensures var after := LearnAll(identities, flows, now);
            && (forall i: nat :: TeachesLast(flows, now, i) && flows[i].flowId == id ==>
                  var f := flows[i];
                  && id in after
                  && after[id] == Identity(f.endpoints.clientIp.bits, f.endpoints.clientMac, f.firstSeen, f.lastSeen))
            && ((forall i :: 0 <= i < |flows| && flows[i].flowId == id ==> !Teaches(flows[i], now)) ==>
                  (id in after <==> id in identities) && (id in after ==> after[id] == identities[id]))
    decreases |flows|
  {
    if flows != [] {
      var f, rest := flows[0], flows[1..];
      assert Learnable(f, now) <==> Teaches(f, now);
      assert forall i :: 0 <= i < |rest| ==> rest[i] == flows[i + 1];
      assert forall i :: 0 < i < |flows| ==> flows[i] == rest[i - 1];
      IdentitiesAreLearned(if Learnable(f, now) then identities[f.flowId := IdentityOf(f)] else identities, rest, now,
          id);
      forall i: nat | TeachesLast(flows, now, i) && i > 0 ensures TeachesLast(rest, now, i - 1) {}
    }
  }

  /** A waiting observation is bound by the step that learns the first and only device that may have made it. */
  lemma LearnedIsBound(c: Cache, flows: seq<Flow>, now: Timestamp, o: Observation, mac: Mac, t: Address)
    requires Valid(c) && o in c.pending && t in o.targets && o.pendingExpiresAt > now && o.bindingExpiresAt > now
    requires forall p :: p in c.pending ==> p.observedAt <= now
    requires OnlyAsker(LearnAll(LiveIdentities(c.identities, now), flows, now), mac, o)
    ensures Held(Learn(c, flows, now).bindings, Key(mac, t), o.domain, o.observedAt, now)
  {
    var r := Resolving(c, Learning(flows, now)).value;
    LivePendingMember(c.pending, now, o);
    assert Resolves(r, o, mac);
    StepBinds(c, Learning(flows, now));
    forall p | p in r.pending ensures p.observedAt <= now {
      LivePendingMember(c.pending, now, p);
    }
  }

  /** Resolving touches no identity. */
  lemma IdentitiesStay(c: Cache, os: seq<DnsObservation>, flows: seq<Flow>, now: Timestamp)
    ensures Collect(c, os, now).identities
         == if PrepareAll(os) == [] then c.identities else LiveIdentities(c.identities, now)
    ensures Learn(c, flows, now).identities == LearnAll(LiveIdentities(c.identities, now), flows, now)
  {
    var purged := Purge(c, now);
    var collected := purged.(pending := EnqueueAll(purged.pending, PrepareAll(os)));
    var learned := purged.(identities := LearnAll(purged.identities, flows, now));
    AddMatchesKeep(collected.(pending := Unresolved(collected.pending, collected.identities, now)),
        Resolvable(collected.pending, collected.identities, now));
    AddMatchesKeep(learned.(pending := Unresolved(learned.pending, learned.identities, now)),
        Resolvable(learned.pending, learned.identities, now));
  }

  /** What a recent flow of the batch shows is known under its id. */
  ghost predicate KnowsFlows(identities: Identities, flows: seq<Flow>, now: Timestamp) {
    forall i: nat :: TeachesLast(flows, now, i) ==>
      var f := flows[i];
      && f.flowId in identities
      && identities[f.flowId] == Identity(f.endpoints.clientIp.bits, f.endpoints.clientMac, f.firstSeen, f.lastSeen)
  }

  lemma LearnedFlowsAreKnown(identities: Identities, flows: seq<Flow>, now: Timestamp)
    ensures KnowsFlows(LearnAll(identities, flows, now), flows, now)
  {
    forall i: nat | TeachesLast(flows, now, i)
      ensures var f, after := flows[i], LearnAll(identities, flows, now);
              && f.flowId in after
              && after[f.flowId] == Identity(f.endpoints.clientIp.bits, f.endpoints.clientMac, f.firstSeen, f.lastSeen)
    {
      IdentitiesAreLearned(identities, flows, now, flows[i].flowId);
    }
  }
}
