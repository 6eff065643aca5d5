/** Privacy deletions remove what they report, leave nothing that matches, and touch no other row. */
module Deletion {
  import opened Domain
  import opened Ledger
  import opened LedgerInvariant

  /** Rows lost between two versions of a table. */
  function Lost<K, V, W>(before: map<K, V>, after: map<K, W>): int { |before| - |after| }

  lemma Removed<K, V>(before: map<K, V>, gone: set<K>)
    requires gone <= before.Keys
    ensures Lost(before, before - gone) == |gone|
  {}

  /** The rows of `after` are rows of `before`. */
  ghost predicate Keeps<K, V>(before: map<K, V>, after: map<K, V>) {
    forall k :: k in after ==> k in before && after[k] == before[k]
  }

  /**
   * Deleting a device: the report is the number of rows each table loses, the cascade included. The
   * contributions are counted by their own MAC and deleted by their flow's, so this needs coherence.
   */
  lemma DeviceDeletionIsExact(owner: Owner, s: State, mac: Mac)
    requires Coherent(owner, s) && mac in s.devices
    ensures var t, report := DeleteDevice(s, mac).value, DeviceReport(s, mac);
            && report.devices == Lost(s.devices, t.devices) == 1
            && report.flows == Lost(s.flows, t.flows) && report.redacted == 0
            && report.deviceMinutes == Lost(s.deviceMinutes, t.deviceMinutes)
            && report.domainMinutes == Lost(s.domainMinutes, t.domainMinutes)
            && report.slices == Lost(s.slices, t.slices)
  {
    var t := DeleteDevice(s, mac).value;
    CascadeIsByMac(s, mac);
    Removed(s.devices, {mac});
    Removed(s.flows, FlowsOfDevice(s.flows, mac));
    Removed(s.deviceMinutes, MinutesOfDevice(s.deviceMinutes, mac));
    Removed(s.domainMinutes, DomainsOfDevice(s.domainMinutes, mac));
    Removed(s.slices, SlicesOfDevice(s.slices, mac));
  }

  /** In a coherent ledger a device's contributions are those of its flows. */
  lemma CascadeIsByMac(s: State, mac: Mac)
    requires SlicesOwned(s)
    ensures Cascade(s.slices, FlowsOfDevice(s.flows, mac)) == SlicesOfDevice(s.slices, mac)
  {}

  lemma DeviceDeletionIsComplete(owner: Owner, s: State, mac: Mac)
    requires Coherent(owner, s) && mac in s.devices
    ensures var t := DeleteDevice(s, mac).value;
            && DeleteDevice(t, mac) == None
            && (forall m :: m in t.devices <==> m in s.devices && m != mac)
            && (forall id :: id in t.flows <==> id in s.flows && s.flows[id].Mac() != mac)
            && (forall k :: k in t.slices <==> k in s.slices && s.slices[k].mac != mac)
            && (forall k :: k in t.deviceMinutes <==> k in s.deviceMinutes && k.mac != mac)
            && (forall k :: k in t.domainMinutes <==> k in s.domainMinutes && k.mac != mac)
            && Keeps(s.devices, t.devices) && Keeps(s.flows, t.flows) && Keeps(s.slices, t.slices)
            && Keeps(s.deviceMinutes, t.deviceMinutes) && Keeps(s.domainMinutes, t.domainMinutes)
  {}

  /** Without coherence the report and the cascade part ways. */
  lemma DeviceReportNeedsCoherence(s: State, mac: Mac, other: Mac, k: SliceKey)
    requires mac in s.devices && mac != other
    requires k.flow in s.flows && s.flows[k.flow].Mac() == mac
    requires s.slices == map[k := Slice(other, Bytes(1, 1), None)]
    ensures DeviceReport(s, mac).slices == 0 && Lost(s.slices, DeleteDevice(s, mac).value.slices) == 1
  {}

  lemma DomainDeletionIsExact(s: State, scope: Option<Mac>, d: DomainName)
    ensures var t, report := DeleteDomain(s, scope, d), DomainReport(s, scope, d);
            && report.devices == report.flows == report.deviceMinutes == 0
            && report.redacted == |set id | id in s.flows && t.flows[id] != s.flows[id]|
            && report.domainMinutes == Lost(s.domainMinutes, t.domainMinutes)
            && report.slices == Lost(s.slices, t.slices)
  {
    var t := DeleteDomain(s, scope, d);
    assert (set id | id in s.flows && t.flows[id] != s.flows[id]) == FlowsAbout(s.flows, scope, d);
    Removed(s.domainMinutes, DomainsAbout(s.domainMinutes, scope, d));
    Removed(s.slices, SlicesAbout(s.slices, scope, d));
  }

  /** The deletion is for every device, or for this one. */
  predicate ScopeHas(scope: Option<Mac>, mac: Mac) { scope.Some? ==> scope.value == mac }

  /** The attribution names the domain, whatever its source. */
  predicate MentionsDomain(a: Option<Attribution>, d: DomainName) {
    match a
    case None => false
    case Some(known) => known.domain == d
  }

  lemma DomainDeletionIsComplete(s: State, scope: Option<Mac>, d: DomainName)
    ensures var t := DeleteDomain(s, scope, d);
            && (forall id :: id in t.flows ==>
                  t.flows[id].domain ==
                    if ScopeHas(scope, s.flows[id].endpoints.clientMac) && MentionsDomain(s.flows[id].domain, d)
                    then None else s.flows[id].domain)
            && (forall k :: k in t.slices <==>
                  k in s.slices && !(ScopeHas(scope, s.slices[k].mac) && MentionsDomain(s.slices[k].attribution, d)))
            && (forall k :: k in t.domainMinutes <==>
                  k in s.domainMinutes && !(ScopeHas(scope, k.mac) && k.domain == d))
            && SameRows(s, t) && Keeps(s.slices, t.slices) && Keeps(s.domainMinutes, t.domainMinutes)
            && t.devices == s.devices && t.deviceMinutes == s.deviceMinutes
  {}

  lemma DomainDeletionIsFinal(s: State, scope: Option<Mac>, d: DomainName)
    ensures var t := DeleteDomain(s, scope, d);
            DomainReport(t, scope, d) == Deleted(0, 0, 0, 0, 0, 0) && DeleteDomain(t, scope, d) == t
  {
    var t := DeleteDomain(s, scope, d);
    assert FlowsAbout(t.flows, scope, d) == {};
    assert DomainsAbout(t.domainMinutes, scope, d) == {};
    assert SlicesAbout(t.slices, scope, d) == {};
    assert Redacted(t.flows, {}) == t.flows;
    assert t.slices - {} == t.slices && t.domainMinutes - {} == t.domainMinutes;
  }

  /** Trimming first and cascading afterwards removes the union of both. */
  lemma RangeAndCascade(slices: Slices, gone: set<SliceKey>, ids: set<FlowId>)
    ensures (slices - gone) - Cascade(slices - gone, ids) == slices - (gone + Cascade(slices, ids))
  {}

  lemma RangeDeletionIsExact(s: State, range: TimeRange)
    ensures var t, report := DeleteRange(s, range), RangeReport(s, range);
            && report.devices == report.redacted == 0
            && report.flows == Lost(s.flows, t.flows)
            && report.deviceMinutes == Lost(s.deviceMinutes, t.deviceMinutes)
            && report.domainMinutes == Lost(s.domainMinutes, t.domainMinutes)
            && report.slices == Lost(s.slices, t.slices)
  {
    var t := DeleteRange(s, range);
    var gone := SlicesIn(s.slices, range) + Cascade(s.slices, FlowsIn(s.flows, range));
    RangeAndCascade(s.slices, SlicesIn(s.slices, range), FlowsIn(s.flows, range));
    Removed(s.flows, FlowsIn(s.flows, range));
    Removed(s.deviceMinutes, MinutesIn(s.deviceMinutes, range));
    Removed(s.domainMinutes, DomainsIn(s.domainMinutes, range));
    Removed(s.slices, gone);
  }

  lemma RangeDeletionIsComplete(s: State, range: TimeRange)
    ensures var t := DeleteRange(s, range);
            && (forall id :: id in t.flows <==>
                  id in s.flows && !(s.flows[id].firstSeen < range.to && range.from <= s.flows[id].lastSeen))
            && (forall k :: k in t.slices <==>
                  && k in s.slices && !(range.from <= k.minute < range.to)
                  && !(k.flow in s.flows && s.flows[k.flow].firstSeen < range.to
                       && range.from <= s.flows[k.flow].lastSeen))
            && (forall k :: k in t.deviceMinutes <==> k in s.deviceMinutes && !(range.from <= k.minute < range.to))
            && (forall k :: k in t.domainMinutes <==> k in s.domainMinutes && !(range.from <= k.minute < range.to))
            && Keeps(s.flows, t.flows) && Keeps(s.slices, t.slices) && t.devices == s.devices
            && Keeps(s.deviceMinutes, t.deviceMinutes) && Keeps(s.domainMinutes, t.domainMinutes)
  {}

  lemma RangeDeletionIsFinal(s: State, range: TimeRange)
    ensures var t := DeleteRange(s, range);
            RangeReport(t, range) == Deleted(0, 0, 0, 0, 0, 0) && DeleteRange(t, range) == t
  {
    var t := DeleteRange(s, range);
    assert FlowsIn(t.flows, range) == {};
    assert MinutesIn(t.deviceMinutes, range) == {};
    assert DomainsIn(t.domainMinutes, range) == {};
    assert SlicesIn(t.slices, range) == {} && Cascade(t.slices, {}) == {};
    assert t.deviceMinutes - {} == t.deviceMinutes && t.domainMinutes - {} == t.domainMinutes;
    assert t.flows - {} == t.flows && t.slices - {} - {} == t.slices;
  }

  /** Completed expiry removes exactly the rows older than its cutoffs, and the contributions of expired flows. */
  lemma ExpiryIsExact(s: State, flowCutoff: int, cutoff: int)
    ensures var t := Expire(s, flowCutoff, cutoff, 4);
            && Lost(s.flows, t.flows) == |FlowsBefore(s.flows, flowCutoff)|
            && Lost(s.deviceMinutes, t.deviceMinutes) == |MinutesBefore(s.deviceMinutes, cutoff)|
            && Lost(s.domainMinutes, t.domainMinutes) == |DomainsBefore(s.domainMinutes, cutoff)|
            && (forall id :: id in t.flows <==> id in s.flows && s.flows[id].lastSeen >= flowCutoff)
            && (forall k :: k in t.slices <==>
                  k in s.slices && k.minute >= cutoff && (k.flow in s.flows ==> s.flows[k.flow].lastSeen >= flowCutoff))
            && (forall k :: k in t.deviceMinutes <==> k in s.deviceMinutes && k.minute >= cutoff)
            && (forall k :: k in t.domainMinutes <==> k in s.domainMinutes && k.minute >= cutoff)
            && Keeps(s.flows, t.flows) && Keeps(s.slices, t.slices) && t.devices == s.devices
            && Keeps(s.deviceMinutes, t.deviceMinutes) && Keeps(s.domainMinutes, t.domainMinutes)
  {
    Removed(s.flows, FlowsBefore(s.flows, flowCutoff));
    Removed(s.deviceMinutes, MinutesBefore(s.deviceMinutes, cutoff));
    Removed(s.domainMinutes, DomainsBefore(s.domainMinutes, cutoff));
  }
}
