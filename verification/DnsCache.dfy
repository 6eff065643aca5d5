/** The DNS attribution cache as a value: what each locked operation of src/dns.rs makes of it. */
module DnsCache {
  import opened Domain
  import opened Sequences

  const IDENTITY_MATCH_GRACE_MS := 5_000
  const IDENTITY_IDLE_RETENTION_MS := 5 * 60 * 1_000
  const MAX_PENDING_AGE_MS := 5 * 60 * 1_000
  const MAX_PENDING_OBSERVATIONS: nat := 4_096
  const MAX_RESOLVED_BINDINGS: nat := 4_096

  /** An IPv4 address. */
  type Address = nat

  type Seconds = n: nat | n < 0x1_0000_0000

  /** One DNS answer; `domain` is None when the name does not normalise. */
  datatype DnsObservation = DnsObservation(
    clientIp: Address, domain: Option<DomainName>, targets: seq<Address>, observedAt: Timestamp, ttl: Seconds)

  datatype Entry = Entry(domain: DomainName, associatedAt: Timestamp, expiresAt: Timestamp)

  /** A flow's evidence that an address belonged to a device for a while. */
  datatype Identity = Identity(clientIp: Address, clientMac: Mac, firstSeen: Timestamp, lastSeen: Timestamp)

  datatype Observation = Observation(
    clientIp: Address, domain: DomainName, targets: seq<Address>,
    observedAt: Timestamp, bindingExpiresAt: Timestamp, pendingExpiresAt: Timestamp)

  datatype Key = Key(mac: Mac, target: Address)

  type Bindings = map<Key, seq<Entry>>
  type Identities = map<FlowId, Identity>

  datatype Cache = Cache(bindings: Bindings, identities: Identities, pending: seq<Observation>, resolved: seq<Binding>)

  const EMPTY_CACHE := Cache(map[], map[], [], [])

  // ----- observations -----

  function InsertSorted(x: Address, s: seq<Address>): seq<Address>
    decreases |s|
  {
    if s == [] || x < s[0] then [x] + s
    else if x == s[0] then s
    else [s[0]] + InsertSorted(x, s[1..])
  }

  /** Sorted and without duplicates. */
  function SortDedup(s: seq<Address>): seq<Address>
    decreases |s|
  {
    if s == [] then [] else InsertSorted(s[0], SortDedup(s[1..]))
  }

  /** Refuses bad names, answers that are already over and answers without addresses. */
  function Prepare(o: DnsObservation): Option<Observation> {
    var expires := Saturate(o.observedAt + o.ttl * 1_000);
    var latest := Saturate(o.observedAt + MAX_PENDING_AGE_MS);
    var targets := SortDedup(o.targets);
    if o.domain.None? || expires <= o.observedAt || targets == [] then None
    else
      var givenUp := if expires < latest then expires else latest;
      Some(Observation(o.clientIp, o.domain.value, targets, o.observedAt, expires, givenUp))
  }

  function PrepareAll(os: seq<DnsObservation>): seq<Observation>
    decreases |os|
  {
    if os == [] then []
    else (var p := Prepare(os[0]); if p.Some? then [p.value] else []) + PrepareAll(os[1..])
  }

  function EnqueueAll(pending: seq<Observation>, os: seq<Observation>): seq<Observation>
    decreases |os|
  {
    if os == [] then pending else EnqueueAll(PushBounded(pending, os[0], MAX_PENDING_OBSERVATIONS), os[1..])
  }

  // ----- matching an observation with a device -----

  predicate Covers(i: Identity, o: Observation) {
    && i.clientIp == o.clientIp
    && i.firstSeen <= o.observedAt
    && o.observedAt <= Saturate(i.lastSeen + IDENTITY_MATCH_GRACE_MS)
  }

  /** The devices that may have asked. */
  function Candidates(identities: Identities, o: Observation): set<Mac> {
    set id | id in identities && Covers(identities[id], o) :: identities[id].clientMac
  }

  predicate IsExpired(o: Observation, now: Timestamp) { o.pendingExpiresAt <= now || o.bindingExpiresAt <= now }

  predicate KeepsWaiting(identities: Identities, o: Observation, now: Timestamp) {
    !IsExpired(o, now) && |Candidates(identities, o)| != 1
  }

  function Unresolved(pending: seq<Observation>, identities: Identities, now: Timestamp): seq<Observation> {
    Filter(o => KeepsWaiting(identities, o, now), pending)
  }

  /** An observation together with the only device that may have made it. */
  datatype Match = Match(mac: Mac, observation: Observation)

  lemma SoleElement(s: set<Mac>)
    requires |s| == 1
    ensures exists m :: s == {m}
  {
    var m :| m in s;
    assert |s - {m}| == 0;
    assert s == {m};
  }

  ghost function Sole(s: set<Mac>): Mac
    requires |s| == 1
  {
    SoleElement(s);
    var m :| s == {m};
    m
  }

  /** The observations a resolution binds, in queue order. */
  ghost function Resolvable(pending: seq<Observation>, identities: Identities, now: Timestamp): seq<Match>
    decreases |pending|
  {
    if pending == [] then []
    else
      var o, rest := pending[0], Resolvable(pending[1..], identities, now);
      var candidates := Candidates(identities, o);
      if !IsExpired(o, now) && |candidates| == 1 then [Match(Sole(candidates), o)] + rest else rest
  }

  // ----- bindings -----

  function Live(entries: seq<Entry>, now: Timestamp): seq<Entry> { Filter((e: Entry) => e.expiresAt > now, entries) }

  /** The position of the domain's entry, or the length when it has none. */
  function IndexOf(entries: seq<Entry>, d: DomainName): (i: nat)
    ensures i <= |entries| && (i < |entries| ==> entries[i].domain == d)
    ensures forall j :: 0 <= j < i ==> entries[j].domain != d
    decreases |entries|
  {
    if entries == [] || entries[0].domain == d then 0 else 1 + IndexOf(entries[1..], d)
  }

  function EntriesAt(bindings: Bindings, key: Key): seq<Entry> { if key in bindings then bindings[key] else [] }

  function NewEntry(o: Observation): Entry { Entry(o.domain, o.observedAt, o.bindingExpiresAt) }

  /** An observation older than the domain's entry refreshes nothing. */
  predicate IsStale(live: seq<Entry>, o: Observation) {
    var i := IndexOf(live, o.domain);
    i < |live| && o.observedAt < live[i].associatedAt
  }

  function Refreshed(live: seq<Entry>, o: Observation): seq<Entry> {
    var i := IndexOf(live, o.domain);
    if i < |live| then live[i := NewEntry(o)] else live + [NewEntry(o)]
  }

  /** The binding announced to the ledger for a key with one entry. */
  function Announce(key: Key, e: Entry): Binding {
    Binding(key.mac, V4(key.target), Attribution(e.domain, Dns, High, e.associatedAt, Some(e.expiresAt)))
  }

  predicate IsFor(b: Binding, mac: Mac, target: Ip) { b.clientMac == mac && b.targetIp == target }

  function Without(resolved: seq<Binding>, mac: Mac, target: Ip): seq<Binding> {
    Filter((b: Binding) => !IsFor(b, mac, target), resolved)
  }

  /** Learn one (device, target) binding; announce it only while it is the key's sole entry. */
  function AddBinding(c: Cache, key: Key, o: Observation): Cache {
    var live := Live(EntriesAt(c.bindings, key), o.observedAt);
    if IsStale(live, o) then c.(bindings := c.bindings[key := live])
    else
      var entries := Refreshed(live, o);
      var others := Without(c.resolved, key.mac, V4(key.target));
      c.(bindings := c.bindings[key := entries],
         resolved := if |entries| == 1 then PushBounded(others, Announce(key, entries[0]), MAX_RESOLVED_BINDINGS)
             else others)
  }

  function AddBindings(c: Cache, mac: Mac, targets: seq<Address>, o: Observation): Cache
    decreases |targets|
  {
    if targets == [] then c else AddBindings(AddBinding(c, Key(mac, targets[0]), o), mac, targets[1..], o)
  }

  function AddMatches(c: Cache, matches: seq<Match>): Cache
    decreases |matches|
  {
    if matches == [] then c
    else
      var m := matches[0];
      AddMatches(AddBindings(c, m.mac, m.observation.targets, m.observation), matches[1..])
  }

  /** Bind what has exactly one candidate device, drop what expired, keep the rest waiting. */
  ghost function ResolvePending(c: Cache, now: Timestamp): Cache {
    AddMatches(c.(pending := Unresolved(c.pending, c.identities, now)), Resolvable(c.pending, c.identities, now))
  }

  // How many bindings a resolution learns or refreshes.

  function AddUpdates(c: Cache, key: Key, o: Observation): nat {
    if IsStale(Live(EntriesAt(c.bindings, key), o.observedAt), o) then 0 else 1
  }

  function TargetUpdates(c: Cache, mac: Mac, targets: seq<Address>, o: Observation): nat
    decreases |targets|
  {
    if targets == [] then 0
    else
      var key := Key(mac, targets[0]);
      AddUpdates(c, key, o) + TargetUpdates(AddBinding(c, key, o), mac, targets[1..], o)
  }

  function MatchUpdates(c: Cache, matches: seq<Match>): nat
    decreases |matches|
  {
    if matches == [] then 0
    else
      var m := matches[0];
      TargetUpdates(c, m.mac, m.observation.targets, m.observation) +
      MatchUpdates(AddBindings(c, m.mac, m.observation.targets, m.observation), matches[1..])
  }

  ghost function ResolveUpdates(c: Cache, now: Timestamp): nat {
    MatchUpdates(c, Resolvable(c.pending, c.identities, now))
  }

  // ----- forgetting -----

  function KeptAt(entries: seq<Entry>, keep: (Key, Entry) -> bool, k: Key): seq<Entry> {
    Filter((e: Entry) => keep(k, e), entries)
  }

  /** `retain` on the lists of the binding table, dropping keys left without entries. */
  function KeepEntries(bindings: Bindings, keep: (Key, Entry) -> bool): Bindings {
    map k | k in bindings && KeptAt(bindings[k], keep, k) != [] :: KeptAt(bindings[k], keep, k)
  }

  function LiveBindings(bindings: Bindings, now: Timestamp): Bindings {
    map k | k in bindings && Live(bindings[k], now) != [] :: Live(bindings[k], now)
  }

  function LiveIdentities(identities: Identities, now: Timestamp): Identities {
    map id | id in identities && identities[id].lastSeen >= Saturate(now - IDENTITY_IDLE_RETENTION_MS) :: identities[id]
  }

  function LivePending(pending: seq<Observation>, now: Timestamp): seq<Observation> {
    Filter((o: Observation) => !IsExpired(o, now), pending)
  }

  predicate Outlasts(b: Binding, now: Timestamp) {
    b.attribution.expiresAt.None? || b.attribution.expiresAt.value > now
  }

  function LiveResolved(resolved: seq<Binding>, now: Timestamp): seq<Binding> {
    Filter((b: Binding) => Outlasts(b, now), resolved)
  }

  function Purge(c: Cache, now: Timestamp): Cache {
    Cache(LiveBindings(c.bindings, now), LiveIdentities(c.identities, now), LivePending(c.pending, now),
        LiveResolved(c.resolved, now))
  }

  // ----- the operations -----

  ghost function Collect(c: Cache, os: seq<DnsObservation>, now: Timestamp): Cache {
    var prepared := PrepareAll(os);
    if prepared == [] then c
    else
      var purged := Purge(c, now);
      ResolvePending(purged.(pending := EnqueueAll(purged.pending, prepared)), now)
  }

  ghost function CollectUpdates(c: Cache, os: seq<DnsObservation>, now: Timestamp): nat {
    var prepared, purged := PrepareAll(os), Purge(c, now);
    if prepared == [] then 0 else ResolveUpdates(purged.(pending := EnqueueAll(purged.pending, prepared)), now)
  }

  predicate Learnable(f: Flow, now: Timestamp) {
    && f.endpoints.clientIp.V4? && f.Mac() != EMPTY && f.flowId != EMPTY
    && f.firstSeen <= f.lastSeen
    && f.lastSeen >= Saturate(now - IDENTITY_IDLE_RETENTION_MS)
  }

  function IdentityOf(f: Flow): Identity
    requires f.endpoints.clientIp.V4?
  {
    Identity(f.endpoints.clientIp.bits, f.Mac(), f.firstSeen, f.lastSeen)
  }

  function LearnAll(identities: Identities, flows: seq<Flow>, now: Timestamp): Identities
    decreases |flows|
  {
    if flows == [] then identities
    else
      LearnAll(if Learnable(flows[0], now) then identities[flows[0].flowId := IdentityOf(flows[0])]
          else identities, flows[1..], now)
  }

  ghost function Learn(c: Cache, flows: seq<Flow>, now: Timestamp): Cache {
    var purged := Purge(c, now);
    ResolvePending(purged.(identities := LearnAll(purged.identities, flows, now)), now)
  }

  predicate InForce(e: Entry, f: Flow) { e.associatedAt <= f.lastSeen && f.firstSeen < e.expiresAt }

  function InForceEntries(entries: seq<Entry>, f: Flow): seq<Entry> { Filter((e: Entry) => InForce(e, f), entries) }

  /** The flow as the cache labels it: only when exactly one binding of its device and destination is in force. */
  function Labelled(bindings: Bindings, f: Flow): Option<Flow> {
    if f.Mac() == EMPTY || !f.endpoints.destinationIp.V4? then None
    else
      var key := Key(f.Mac(), f.endpoints.destinationIp.bits);
      var inForce := InForceEntries(EntriesAt(bindings, key), f);
      if |inForce| != 1 then None else Some(f.(domain := Some(Announce(key, inForce[0]).attribution)))
  }

  function LabelledFlow(bindings: Bindings, f: Flow): Flow {
    if Labelled(bindings, f).Some? then Labelled(bindings, f).value else f
  }

  /** The binding the queue announced is still the key's whole list. */
  predicate StillUnique(bindings: Bindings, b: Binding) {
    && b.targetIp.V4?
    && var entries := EntriesAt(bindings, Key(b.clientMac, b.targetIp.bits));
      && |entries| == 1
      && entries[0].domain == b.attribution.domain
      && entries[0].associatedAt == b.attribution.associatedAt
      && Some(entries[0].expiresAt) == b.attribution.expiresAt
  }

  function RequeueOne(c: Cache, b: Binding): Cache {
    if StillUnique(c.bindings, b)
    then c.(resolved := PushBounded(Without(c.resolved, b.clientMac, b.targetIp), b, MAX_RESOLVED_BINDINGS))
    else c
  }

  function Requeue(c: Cache, bs: seq<Binding>): Cache
    decreases |bs|
  {
    if bs == [] then c else Requeue(RequeueOne(c, bs[0]), bs[1..])
  }

  function Drained(c: Cache): Cache { c.(resolved := []) }

  /** The observation can only have come from this device. */
  predicate IsOnlyFrom(identities: Identities, o: Observation, mac: Mac) {
    |Candidates(identities, o)| == 1 && mac in Candidates(identities, o)
  }

  function PurgeDevice(c: Cache, mac: Mac): Cache {
    if mac == EMPTY then c
    else
      Cache(map k | k in c.bindings && k.mac != mac :: c.bindings[k],
            map id | id in c.identities && c.identities[id].clientMac != mac :: c.identities[id],
            Filter((o: Observation) => !IsOnlyFrom(c.identities, o, mac), c.pending),
            Filter((b: Binding) => b.clientMac != mac, c.resolved))
  }

  function PurgeDomain(c: Cache, scope: Option<Mac>, domain: Option<DomainName>): Cache {
    if domain.None? || scope == Some(EMPTY) then c
    else
      var d := domain.value;
      Cache(KeepEntries(c.bindings, (k: Key, e: Entry) => !(InScope(scope, k.mac) && e.domain == d)),
            c.identities,
            Filter((o: Observation) => o.domain != d || (scope.Some? && !IsOnlyFrom(c.identities, o, scope.value)),
                c.pending),
            Filter((b: Binding) => b.attribution.domain != d || !InScope(scope, b.clientMac), c.resolved))
  }

  predicate TouchesRange(i: Identity, range: TimeRange) {
    i.firstSeen < range.to && Saturate(i.lastSeen + 1) > range.from
  }

  function PurgeRange(c: Cache, range: TimeRange): Cache {
    Cache(KeepEntries(c.bindings, (k: Key, e: Entry) => !range.Contains(e.associatedAt)),
          map id | id in c.identities && !TouchesRange(c.identities[id], range) :: c.identities[id],
          Filter((o: Observation) => !range.Contains(o.observedAt), c.pending),
          Filter((b: Binding) => !range.Contains(b.attribution.associatedAt), c.resolved))
  }

  /** One step of any thread: each operation holds the lock from beginning to end. */
  datatype CacheStep =
    | Collecting(observations: seq<DnsObservation>, now: Timestamp)
    | Learning(flows: seq<Flow>, now: Timestamp)
    | Expiring(now: Timestamp)
    | Draining
    | Requeueing(bindings: seq<Binding>)
    | ForgettingDevice(mac: Mac)
    | ForgettingDomain(scope: Option<Mac>, domain: Option<DomainName>)
    | ForgettingRange(range: TimeRange)

  ghost function Next(c: Cache, step: CacheStep): Cache {
    match step
    case Collecting(os, now) => Collect(c, os, now)
    case Learning(flows, now) => Learn(c, flows, now)
    case Expiring(now) => Purge(c, now)
    case Draining => Drained(c)
    case Requeueing(bs) => Requeue(c, bs)
    case ForgettingDevice(mac) => PurgeDevice(c, mac)
    case ForgettingDomain(scope, domain) => PurgeDomain(c, scope, domain)
    case ForgettingRange(range) => PurgeRange(c, range)
  }

  ghost function RunCache(c: Cache, steps: seq<CacheStep>): Cache
    decreases |steps|
  {
    if steps == [] then c else RunCache(Next(c, steps[0]), steps[1..])
  }
}
