/** What the purges of the cache forget, row by row, and that they forget nothing else. */
module DnsForgetting {
  import opened Domain
  import opened Sequences
  import opened DnsCache
  import opened DnsInvariant
  import opened DnsHistory

  /** The table holds the entry under the key. */
  ghost predicate Stores(bindings: Bindings, k: Key, e: Entry) { k in bindings && e in bindings[k] }

  /** No key is left behind without entries. */
  ghost predicate NoEmptyKeys(bindings: Bindings) { forall k :: k in bindings ==> bindings[k] != [] }

  lemma KeptEntriesAre(bindings: Bindings, keep: (Key, Entry) -> bool)
    ensures NoEmptyKeys(KeepEntries(bindings, keep))
    ensures forall k, e :: Stores(KeepEntries(bindings, keep), k, e) <==> Stores(bindings, k, e) && keep(k, e)
  {
    forall k: Key, e: Entry
      ensures Stores(KeepEntries(bindings, keep), k, e) <==> Stores(bindings, k, e) && keep(k, e)
    {
      if k in bindings {
        var here := (x: Entry) => keep(k, x);
        assert KeptAt(bindings[k], keep, k) == Filter(here, bindings[k]);
        FilterMember(here, bindings[k], e);
      }
    }
  }

  // ----- a device -----

  /**
   * A device is forgotten: no key, identity or queued announcement of it is left, nor any waiting observation that
   * only it can have made; everything of every other device is as it was.
   */
  lemma DeviceIsForgotten(c: Cache, mac: Mac)
    requires mac != EMPTY
    ensures var d := PurgeDevice(c, mac);
            && (forall k :: k in d.bindings <==> k in c.bindings && k.mac != mac)
            && (forall k :: k in d.bindings ==> d.bindings[k] == c.bindings[k])
            && (forall id :: id in d.identities <==> id in c.identities && c.identities[id].clientMac != mac)
            && (forall id :: id in d.identities ==> d.identities[id] == c.identities[id])
            && (forall o :: o in d.pending <==> o in c.pending && !OnlyAsker(c.identities, mac, o))
            && (forall b :: b in d.resolved <==> b in c.resolved && b.clientMac != mac)
    ensures PurgeDevice(c, EMPTY) == c
  {
    var d := PurgeDevice(c, mac);
    forall o: Observation ensures o in d.pending <==> o in c.pending && !OnlyAsker(c.identities, mac, o) {
      SoleCandidateIsOnlyAsker(c.identities, mac, o);
      FilterMember((x: Observation) => !IsOnlyFrom(c.identities, x, mac), c.pending, o);
    }
    forall b: Binding ensures b in d.resolved <==> b in c.resolved && b.clientMac != mac {
      FilterMember((x: Binding) => x.clientMac != mac, c.resolved, b);
    }
  }

  /** No flow of a forgotten device is labelled, and other devices' flows are labelled as before. */
  lemma DeviceIsUnlabelled(c: Cache, mac: Mac, f: Flow)
    requires mac != EMPTY
    ensures Labelled(PurgeDevice(c, mac).bindings, f)
         == if f.endpoints.clientMac == mac then None else Labelled(c.bindings, f)
  {}

  // ----- a domain -----

  /** The deletion for one device, or for all, reaches this device. */
  predicate Selects(scope: Option<Mac>, mac: Mac) { scope.Some? ==> scope.value == mac }

  /**
   * A domain is forgotten: its entries and announcements go for the devices in the scope, and its waiting
   * observations: all of them, or for one device those that only it can have made. Everything else is as it was.
   */
  lemma DomainIsForgotten(c: Cache, scope: Option<Mac>, domain: Option<DomainName>)
    ensures var d := PurgeDomain(c, scope, domain);
            if domain.None? || scope == Some(EMPTY) then d == c
            else
              && (forall k, e :: Stores(d.bindings, k, e) <==>
                    Stores(c.bindings, k, e) && !(Selects(scope, k.mac) && e.domain == domain.value))
              && NoEmptyKeys(d.bindings) && d.identities == c.identities
              && (forall o :: o in d.pending <==>
                    && o in c.pending
                    && !(o.domain == domain.value && (scope.Some? ==> OnlyAsker(c.identities, scope.value, o))))
              && (forall b :: b in d.resolved <==>
                    b in c.resolved && !(Selects(scope, b.clientMac) && b.attribution.domain == domain.value))
  {
    if domain.Some? && scope != Some(EMPTY) {
      var d := PurgeDomain(c, scope, domain);
      var name := domain.value;
      var keep := (k: Key, e: Entry) => !(InScope(scope, k.mac) && e.domain == name);
      KeptEntriesAre(c.bindings, keep);
      assert d.bindings == KeepEntries(c.bindings, keep);
      forall k: Key, e: Entry
        ensures Stores(d.bindings, k, e) <==> Stores(c.bindings, k, e) && !(Selects(scope, k.mac) && e.domain == name)
      {
        assert keep(k, e) <==> !(InScope(scope, k.mac) && e.domain == name);
      }
      forall o: Observation
        ensures o in d.pending <==>
                  o in c.pending && !(o.domain == name && (scope.Some? ==> OnlyAsker(c.identities, scope.value, o)))
      {
        if scope.Some? {
          SoleCandidateIsOnlyAsker(c.identities, scope.value, o);
        }
        FilterMember((x: Observation) => x.domain != name
            || (scope.Some? && !IsOnlyFrom(c.identities, x, scope.value)), c.pending, o);
      }
      forall b: Binding
        ensures b in d.resolved <==> b in c.resolved && !(Selects(scope, b.clientMac) && b.attribution.domain == name)
      {
        FilterMember((x: Binding) => x.attribution.domain != name || !InScope(scope, x.clientMac), c.resolved, b);
      }
    }
  }

  // ----- a range -----

  /**
   * A range is forgotten: the entries and announcements that began in it, the observations made in it, and the
   * identities that touch it, both ends included. Everything else is as it was.
   */
  lemma RangeIsForgotten(c: Cache, range: TimeRange)
    requires range.from < range.to
    ensures var d := PurgeRange(c, range);
            && (forall k, e :: Stores(d.bindings, k, e) <==>
                  Stores(c.bindings, k, e) && !(range.from <= e.associatedAt < range.to))
            && NoEmptyKeys(d.bindings)
            && (forall id :: id in d.identities <==>
                  && id in c.identities
                  && !(c.identities[id].firstSeen < range.to && c.identities[id].lastSeen >= range.from))
            && (forall id :: id in d.identities ==> d.identities[id] == c.identities[id])
            && (forall o :: o in d.pending <==> o in c.pending && !(range.from <= o.observedAt < range.to))
            && (forall b :: b in d.resolved <==>
                  b in c.resolved && !(range.from <= b.attribution.associatedAt < range.to))
  {
    var d := PurgeRange(c, range);
    var keep := (k: Key, e: Entry) => !range.Contains(e.associatedAt);
    KeptEntriesAre(c.bindings, keep);
    assert d.bindings == KeepEntries(c.bindings, keep);
    forall o: Observation
      ensures o in d.pending <==> o in c.pending && !(range.from <= o.observedAt < range.to)
    {
      FilterMember((x: Observation) => !range.Contains(x.observedAt), c.pending, o);
    }
    forall b: Binding
      ensures b in d.resolved <==> b in c.resolved && !(range.from <= b.attribution.associatedAt < range.to)
    {
      FilterMember((x: Binding) => !range.Contains(x.attribution.associatedAt), c.resolved, b);
    }
  }

  /** No label the cache gives afterwards began in the range. */
  lemma RangeIsUnlabelled(c: Cache, range: TimeRange, f: Flow)
    requires range.from < range.to && Labelled(PurgeRange(c, range).bindings, f).Some?
    ensures Labelled(PurgeRange(c, range).bindings, f).value.domain.Some?
    ensures !(range.from <= Labelled(PurgeRange(c, range).bindings, f).value.domain.value.associatedAt < range.to)
  {
    var d := PurgeRange(c, range);
    RangeIsForgotten(c, range);
    LabelledExactly(d.bindings, f);
    var entries := EntriesFor(d.bindings, f);
    var i: nat :| OnlyInForce(entries, f, i);
    assert Stores(d.bindings, Key(f.Mac(), f.endpoints.destinationIp.bits), entries[i]);
  }

  // ----- expiry -----

  /** What is over goes: ended entries and announcements, idle identities, and observations that waited too long. */
  lemma OverIsForgotten(c: Cache, now: Timestamp)
    ensures var d := Purge(c, now);
            && (forall k, e :: Stores(d.bindings, k, e) <==> Stores(c.bindings, k, e) && e.expiresAt > now)
            && NoEmptyKeys(d.bindings)
            && (forall id :: id in d.identities <==>
                  id in c.identities && c.identities[id].lastSeen >= now - 300_000)
            && (forall id :: id in d.identities ==> d.identities[id] == c.identities[id])
            && (forall o :: o in d.pending <==>
                  o in c.pending && o.pendingExpiresAt > now && o.bindingExpiresAt > now)
            && (forall b :: b in d.resolved <==>
                  b in c.resolved && (b.attribution.expiresAt.Some? ==> b.attribution.expiresAt.value > now))
  {
    var d := Purge(c, now);
    forall k: Key, e: Entry
      ensures Stores(d.bindings, k, e) <==> Stores(c.bindings, k, e) && e.expiresAt > now
    {
      if k in c.bindings {
        FilterMember((x: Entry) => x.expiresAt > now, c.bindings[k], e);
      }
    }
    forall o: Observation
      ensures o in d.pending <==> o in c.pending && o.pendingExpiresAt > now && o.bindingExpiresAt > now
    {
      LivePendingMember(c.pending, now, o);
    }
    forall b: Binding
      ensures b in d.resolved <==>
                b in c.resolved && (b.attribution.expiresAt.Some? ==> b.attribution.expiresAt.value > now)
    {
      FilterMember((x: Binding) => Outlasts(x, now), c.resolved, b);
    }
  }
}
