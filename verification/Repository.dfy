/** The repository of src/storage.rs: tables updated in place, each transaction refining its ledger function. */
module Repository {
  import opened Domain
  import opened Attributions
  import opened Ledger
  import opened LedgerInvariant
  import opened Books
  import opened BackfillReach

  predicate SameRow(t: DomainTable, u: DomainTable, key: DomainMinute) {
    (key in t <==> key in u) && (key in t ==> t[key] == u[key])
  }

  /** A move reads and writes the rows of its own minute only. */
  lemma MoveIsLocal(t: DomainTable, u: DomainTable, mac: Mac, a: Attribution, minute: int, s: Slice, key: DomainMinute)
    requires forall k: DomainMinute :: k.minute == minute ==> SameRow(t, u, k)
    requires CanMove(t, mac, a, minute, s)
    ensures CanMove(u, mac, a, minute, s)
    ensures key.minute == minute ==> SameRow(Move(t, mac, a, minute, s), Move(u, mac, a, minute, s), key)
    ensures key.minute != minute ==> SameRow(Move(u, mac, a, minute, s), u, key)
  {}

  /** Moving the slices of other minutes leaves the rows of this one alone. */
  lemma OtherMinutesStay(table: DomainTable, mac: Mac, a: Attribution, id: FlowId, done: Slices, minute: int)
    requires CanMoveAll(table, mac, a, done) && (forall j :: j in done ==> j.flow == id)
        && SliceKey(id, minute) !in done
    ensures forall key: DomainMinute :: key.minute == minute ==> SameRow(table, Moved(table, mac, a, id, done), key)
  {}

  lemma MovedOneMoreAt(table: DomainTable, mac: Mac, a: Attribution, id: FlowId, done: Slices, k: SliceKey, s: Slice,
      key: DomainMinute)
    requires CanMoveAll(table, mac, a, done) && (forall j :: j in done ==> j.flow == id) && k.flow == id && k !in done
    requires CanMove(table, mac, a, k.minute, s) && CanMoveAll(table, mac, a, done[k := s])
    ensures CanMove(Moved(table, mac, a, id, done), mac, a, k.minute, s)
    ensures SameRow(Move(Moved(table, mac, a, id, done), mac, a, k.minute, s), Moved(table, mac, a, id, done[k := s]),
        key)
  {
    var more := done[k := s];
    OtherMinutesStay(table, mac, a, id, done, k.minute);
    MoveIsLocal(table, Moved(table, mac, a, id, done), mac, a, k.minute, s, key);
    MovedRow(table, mac, a, id, more, key);
    MovedRow(table, mac, a, id, done, key);
    if key.minute == k.minute {
      assert MovedAt(table, mac, a, id, more, key) == Move(table, mac, a, k.minute, s);
    } else {
      assert SliceKey(id, key.minute) in more <==> SliceKey(id, key.minute) in done;
    }
  }

  /** The loop's progress: the table with the slices of `done` moved, and one more. */
  lemma MovedOneMore(table: DomainTable, mac: Mac, a: Attribution, id: FlowId, done: Slices, k: SliceKey, s: Slice)
    requires CanMoveAll(table, mac, a, done) && (forall j :: j in done ==> j.flow == id) && k.flow == id && k !in done
    ensures CanMove(Moved(table, mac, a, id, done), mac, a, k.minute, s) == CanMove(table, mac, a, k.minute, s)
    ensures CanMove(table, mac, a, k.minute, s) ==>
              CanMoveAll(table, mac, a, done[k := s]) &&
              Move(Moved(table, mac, a, id, done), mac, a, k.minute, s) == Moved(table, mac, a, id, done[k := s])
  {
    OtherMinutesStay(table, mac, a, id, done, k.minute);
    var half := Moved(table, mac, a, id, done);
    if s.attribution.Some? {
      assert SameRow(table, half, DomainMinute(mac, s.attribution.value.domain, k.minute));
    }
    if CanMove(table, mac, a, k.minute, s) {
      var next, whole := Move(half, mac, a, k.minute, s), Moved(table, mac, a, id, done[k := s]);
      forall key ensures SameRow(next, whole, key) {
        MovedOneMoreAt(table, mac, a, id, done, k, s, key);
      }
      SameRowsSameTable(next, whole);
    }
  }

  lemma SameRowsSameTable(t: DomainTable, u: DomainTable)
    requires forall key :: SameRow(t, u, key)
    ensures t == u
  {
    forall key ensures key in t <==> key in u ensures key in t ==> t[key] == u[key] {
      assert SameRow(t, u, key);
    }
  }

  /** A table split into the rows a loop has handled and those it has not. */
  ghost predicate Partial(done: Slices, todo: Slices, all: Slices) {
    && (forall k :: k in all <==> k in done || k in todo)
    && (forall k :: k in done ==> k !in todo && k in all && done[k] == all[k])
    && (forall k :: k in todo ==> k in all && todo[k] == all[k])
  }

  lemma PartialStep(done: Slices, todo: Slices, all: Slices, k: SliceKey)
    requires Partial(done, todo, all) && k in todo
    ensures Partial(done[k := todo[k]], todo - {k}, all)
  {}

  lemma PartialEnd(done: Slices, all: Slices)
    requires Partial(done, map[], all)
    ensures done == all
  {}

  /** The rows a loop has handled, in order, and those it has still to handle. */
  ghost predicate Handled(rows: seq<FlowId>, todo: set<FlowId>, all: set<FlowId>) {
    && (forall i, j :: 0 <= i < j < |rows| ==> rows[i] != rows[j])
    && (forall id :: id in all <==> id in todo || id in rows)
    && (forall id :: id in todo ==> id !in rows)
  }

  lemma HandledStep(rows: seq<FlowId>, todo: set<FlowId>, all: set<FlowId>, id: FlowId)
    requires Handled(rows, todo, all) && id in todo
    ensures Handled(rows + [id], todo - {id}, all)
  {}

  /** The books refuse the bindings somewhere on the way. */
  ghost predicate Refuses(s: State, bindings: seq<Binding>) {
    exists work, n ::
      && 0 <= n <= |bindings| && Carries(work, bindings[..n]) && FaithfulWork(s, work)
      && BackfillAll(s, work) == Err(Unbalanced)
  }

  /** Coherent books refuse nothing. */
  lemma NothingIsRefused(owner: Owner, s: State, bindings: seq<Binding>)
    requires Coherent(owner, s)
    ensures !Refuses(s, bindings)
  {
    forall work | FaithfulWork(s, work) ensures BackfillAll(s, work).Ok? {
      BackfillAllCoherent(owner, s, work);
    }
  }

  class SqliteRepository {
    var devices: map<Mac, Device>
    var flows: map<FlowId, Flow>
    var slices: Slices
    var deviceMinutes: map<DeviceMinute, Bytes>
    var domainMinutes: DomainTable

    ghost function View(): State
      reads this
    {
      State(devices, flows, slices, deviceMinutes, domainMinutes)
    }

    constructor ()
      ensures View() == EMPTY_LEDGER
    {
      devices, flows, slices, deviceMinutes, domainMinutes := map[], map[], map[], map[], map[];
    }

    // ----- statements -----

    method AddDeviceMinuteBytes(mac: Mac, minute: int, b: Bytes)
      modifies this`deviceMinutes
      ensures deviceMinutes == WithDeviceBytes(old(deviceMinutes), DeviceMinute(mac, minute), b)
    {
      var key := DeviceMinute(mac, minute);
      if key in deviceMinutes {
        deviceMinutes := deviceMinutes[key := Plus(deviceMinutes[key], b)];
      } else {
        deviceMinutes := deviceMinutes[key := b];
      }
    }

    method AddDomainMinuteBytes(mac: Mac, a: Attribution, minute: int, b: Bytes)
      modifies this`domainMinutes
      ensures domainMinutes == WithDomainBytes(old(domainMinutes), mac, a, minute, b)
    {
      var key := DomainMinute(mac, a.domain, minute);
      if key in domainMinutes {
        domainMinutes := domainMinutes[key := DomainRow(Plus(domainMinutes[key].bytes, b), a.source, a.confidence)];
      } else {
        domainMinutes := domainMinutes[key := DomainRow(b, a.source, a.confidence)];
        assert Plus(NO_BYTES, b) == b;
      }
    }

    /** Subtract, failing unless exactly one row was updated, then delete the row if nothing is left. */
    method SubtractDomainMinuteBytes(key: DomainMinute, b: Bytes) returns (ok: bool)
      modifies this`domainMinutes
      ensures ok == CanSubtract(old(domainMinutes), key, b)
      ensures ok ==> domainMinutes == WithoutDomainBytes(old(domainMinutes), key, b)
      ensures !ok ==> domainMinutes == old(domainMinutes)
    {
      ok := false;
      if key in domainMinutes {
        ok := Leq(b, domainMinutes[key].bytes);
        if ok {
          domainMinutes := domainMinutes[key := domainMinutes[key].(bytes := Minus(domainMinutes[key].bytes, b))];
          if domainMinutes[key].bytes == NO_BYTES {
            domainMinutes := domainMinutes - {key};
            assert domainMinutes == old(domainMinutes) - {key};
          }
        }
      }
    }

    method AddFlowMinuteContribution(id: FlowId, mac: Mac, minute: int, b: Bytes, a: Option<Attribution>)
      modifies this`slices
      ensures slices == WithSlice(old(slices), SliceKey(id, minute), mac, b, a)
    {
      var key := SliceKey(id, minute);
      if key in slices {
        slices := slices[key := Slice(slices[key].mac, Plus(slices[key].bytes, b), a)];
      } else {
        slices := slices[key := Slice(mac, b, a)];
      }
    }

    method EnsureLegacyBaseline(id: FlowId, mac: Mac, row: Flow)
      modifies this`slices
      ensures slices == WithBaseline(old(slices), id, mac, row)
    {
      if row.domain.Some? || BytesOf(row.counters) == NO_BYTES {
        return;
      }
      if !HasSlices(slices, id) {
        AddFlowMinuteContribution(id, mac, FloorToMinute(row.lastSeen), BytesOf(row.counters), None);
      }
    }

    /** One contribution changes domain: out of the old row, into the new one, or only new tags. */
    method MoveContribution(mac: Mac, a: Attribution, minute: int, s: Slice) returns (ok: bool)
      modifies this`domainMinutes
      ensures ok == CanMove(old(domainMinutes), mac, a, minute, s)
      ensures ok ==> domainMinutes == Move(old(domainMinutes), mac, a, minute, s)
    {
      ok := true;
      if DomainOf(s) != Some(a.domain) {
        if s.attribution.Some? {
          ok := SubtractDomainMinuteBytes(DomainMinute(mac, s.attribution.value.domain, minute), s.bytes);
          if !ok {
            return;
          }
        }
        AddDomainMinuteBytes(mac, a, minute, s.bytes);
      } else {
        var key := DomainMinute(mac, a.domain, minute);
        if key in domainMinutes {
          domainMinutes := domainMinutes[key := domainMinutes[key].(source := a.source, confidence := a.confidence)];
        }
      }
    }

    /** Move every contribution of the flow to `a`, in whatever order the query yields them. */
    method ReconcileFlowContributions(id: FlowId, mac: Mac, a: Attribution) returns (ok: bool)
      modifies this`slices, this`domainMinutes
      ensures ok == CanMoveAll(old(domainMinutes), mac, a, SlicesOf(old(slices), id))
      ensures ok ==> slices == Relabelled(old(slices), id, a)
      ensures ok ==> domainMinutes == Moved(old(domainMinutes), mac, a, id, SlicesOf(old(slices), id))
    {
      var contributions := SlicesOf(slices, id);
      var todo := contributions;
      ghost var done: Slices := map[];
      ghost var before := domainMinutes;
      assert Moved(before, mac, a, id, done) == before;
      while todo != map[]
        invariant slices == old(slices)
        invariant Partial(done, todo, contributions)
        invariant CanMoveAll(before, mac, a, done)
        invariant domainMinutes == Moved(before, mac, a, id, done)
        decreases |todo|
      {
        var k :| k in todo;
        MovedOneMore(before, mac, a, id, done, k, todo[k]);
        ok := MoveContribution(mac, a, k.minute, todo[k]);
        if !ok {
          assert !CanMove(before, mac, a, k.minute, contributions[k]);
          return;
        }
        PartialStep(done, todo, contributions, k);
        done, todo := done[k := todo[k]], todo - {k};
      }
      PartialEnd(done, contributions);
      slices := Relabelled(slices, id, a);
      ok := true;
    }

    // ----- upsert -----

    method UpsertDevice(mac: Mac, ip: Ip)
      modifies this`devices
      ensures devices == Touched(old(devices), mac, ip)
    {
      devices := Touched(devices, mac, ip);
    }

    /** Lay down the baseline if it is due and move the flow's contributions; the flow row is the caller's. */
    method Reconcile(id: FlowId, mac: Mac, row: Flow, a: Attribution) returns (ok: bool)
      requires id in flows && row == flows[id]
      modifies this`slices, this`domainMinutes
      ensures ok == Reattribute(old(View()), id, mac, a).Ok?
      ensures ok ==> View() == Reattribute(old(View()), id, mac, a).value.(flows := flows)
    {
      EnsureLegacyBaseline(id, mac, row);
      ok := ReconcileFlowContributions(id, mac, a);
    }

    method ChargeDelta(f: Flow, attribution: Option<Attribution>, bytes: Bytes)
      modifies this`deviceMinutes, this`slices, this`domainMinutes
      ensures View() == ChargeIncrease(old(View()), f, attribution, bytes)
    {
      if bytes.up > 0 || bytes.down > 0 {
        var minute := FloorToMinute(f.lastSeen);
        AddDeviceMinuteBytes(f.Mac(), minute, bytes);
        AddFlowMinuteContribution(f.flowId, f.Mac(), minute, bytes, attribution);
        if attribution.Some? {
          AddDomainMinuteBytes(f.Mac(), attribution.value, minute, bytes);
        }
      }
    }

    /** One flow of a batch, inside the transaction: on an error the caller rolls back. */
    method UpsertFlowTx(f: Flow) returns (error: Option<LedgerError>)
      modifies this
      ensures error.None? ==> UpsertFlow(old(View()), f) == Ok(View())
      ensures error.Some? ==> UpsertFlow(old(View()), f) == Err(error.value)
    {
      if !Fits(f.counters) {
        return Some(CounterTooLarge);
      }
      UpsertDevice(f.Mac(), f.endpoints.clientIp);
      var previous := if f.flowId in flows then Some(flows[f.flowId]) else None;
      var attribution := Effective(if previous.Some? then previous.value.domain else None, f.domain);
      var delta := if previous.Some? then DeltaFrom(f.counters, previous.value.counters) else Some(f.counters);
      if delta.None? {
        return Some(CounterReset);
      }
      if previous.Some? && attribution.Some? && previous.value.domain != attribution {
        var ok := Reconcile(f.flowId, f.Mac(), previous.value, attribution.value);
        if !ok {
          return Some(Unbalanced);
        }
      }
      ghost var relabelled := Relabel(old(View()), f).value;
      if previous.Some? {
        flows := flows[f.flowId := Merged(previous.value, f, attribution)];
      } else {
        flows := flows[f.flowId := f.(domain := attribution)];
      }
      assert flows == StoreRow(relabelled, f, attribution).flows;
      ChargeDelta(f, attribution, BytesOf(delta.value));
      return None;
    }

    method Restore(d: map<Mac, Device>, f: map<FlowId, Flow>, s: Slices, m: map<DeviceMinute, Bytes>, t: DomainTable)
      modifies this
      ensures View() == State(d, f, s, m, t)
    {
      devices, flows, slices, deviceMinutes, domainMinutes := d, f, s, m, t;
    }

    /** A batch in one transaction: all of it or none of it. */
    method UpsertFlows(fs: seq<Flow>) returns (error: Option<LedgerError>)
      modifies this
      ensures error.None? ==> Ledger.UpsertFlows(old(View()), fs) == Ok(View())
      ensures error.Some? ==> Ledger.UpsertFlows(old(View()), fs) == Err(error.value) && View() == old(View())
    {
      for i := 0 to |fs|
        invariant View() == old(View())
        invariant forall j :: 0 <= j < i ==> ValidFlow(fs[j])
      {
        if !ValidFlow(fs[i]) {
          return Some(InvalidFlow);
        }
      }
      if fs == [] {
        return None;
      }
      var d, f, s, m, t := devices, flows, slices, deviceMinutes, domainMinutes;
      assert fs[0..] == fs;
      for i := 0 to |fs|
        invariant UpsertAll(old(View()), fs) == UpsertAll(View(), fs[i..])
      {
        assert fs[i..][0] == fs[i] && fs[i..][1..] == fs[i + 1..];
        error := UpsertFlowTx(fs[i]);
        if error.Some? {
          Restore(d, f, s, m, t);
          return;
        }
      }
      return None;
    }

    // ----- backfill -----

    /** One matched row: reattribute it if the binding outranks what it has. */
    method BackfillRow(b: Binding, id: FlowId) returns (ok: bool, updated: nat)
      requires id in flows
      modifies this
      ensures ok ==> BackfillFlow(old(View()), b, id) == Ok(Tally(View(), updated)) && flows.Keys == old(flows.Keys)
      ensures !ok ==> BackfillFlow(old(View()), b, id) == Err(Unbalanced)
    {
      var row := flows[id];
      var effective := Effective(row.domain, Some(b.attribution));
      ok, updated := true, 0;
      if effective != row.domain {
        ok := Reconcile(id, b.clientMac, row, effective.value);
        if ok {
          flows := flows[id := row.(domain := effective)];
          updated := 1;
        }
      }
    }

    /** Apply one binding to the flows it matches, in whatever order the query yields them. */
    method BackfillDomainBindingTx(b: Binding) returns (ok: bool, updated: nat, ghost rows: seq<FlowId>)
      modifies this
      ensures ok ==> Enumerates(rows, Matching(old(View()), b))
      ensures ok ==> BackfillRows(old(View()), b, rows) == Ok(Tally(View(), updated))
      ensures !ok ==>
                exists order ::
                  Enumerates(order, Matching(old(View()), b)) && BackfillRows(old(View()), b, order) == Err(Unbalanced)
    {
      ghost var start := View();
      var todo := set id | id in flows && Matches(b, flows[id]);
      ghost var all := todo;
      assert all == Matching(start, b);
      rows, updated := [], 0;
      while todo != {}
        invariant Handled(rows, todo, all) && todo <= flows.Keys
        invariant Done(start, b, rows, View(), updated)
        decreases |todo|
      {
        var id :| id in todo;
        ghost var before := View();
        var done, n := BackfillRow(b, id);
        if !done {
          BackfillRowsFails(start, before, b, rows, id, todo, updated);
          ok := false;
          return;
        }
        DoneStep(start, before, b, rows, updated, id, View(), n);
        HandledStep(rows, todo, all, id);
        updated := updated + n;
        rows := rows + [id];
        todo := todo - {id};
      }
      ok := true;
    }

    /** All bindings in one transaction. */
    method BackfillDomainBindings(bindings: seq<Binding>) returns (ok: bool, updated: nat, ghost work: seq<Work>)
      modifies this
      ensures ok ==> Carries(work, bindings) && FaithfulWork(old(View()), work)
      ensures ok ==> BackfillAll(old(View()), work) == Ok(Tally(View(), updated))
      ensures !ok ==> View() == old(View()) && Refuses(View(), bindings)
      ensures ok ==> TellsExactly(old(View()), View(), bindings)
      ensures ok && DistinctlyAimed(bindings) ==> updated == |Changed(old(View()), View())|
    {
      var d, f, s, m, t := devices, flows, slices, deviceMinutes, domainMinutes;
      work, updated, ok := [], 0, true;
      for i := 0 to |bindings|
        invariant Carries(work, bindings[..i]) && FaithfulWork(old(View()), work)
        invariant BackfillAll(old(View()), work) == Ok(Tally(View(), updated))
      {
        ghost var before := View();
        var done, n, rows := BackfillDomainBindingTx(bindings[i]);
        BackfillAllTouchesOnlyDomains(old(View()), work);
        SameRowsMatch(old(View()), before, bindings[i]);
        assert bindings[..i + 1] == bindings[..i] + [bindings[i]];
        if !done {
          ghost var order :| Enumerates(order, Matching(before, bindings[i]))
              && BackfillRows(before, bindings[i], order) == Err(Unbalanced);
          BackfillAllExtend(old(View()), work, Work(bindings[i], order));
          assert Carries(work + [Work(bindings[i], order)], bindings[..i + 1]);
          Restore(d, f, s, m, t);
          ok := false;
          return;
        }
        BackfillAllExtend(old(View()), work, Work(bindings[i], rows));
        work := work + [Work(bindings[i], rows)];
        updated := updated + n;
      }
      assert bindings[..|bindings|] == bindings;
      TransactionTells(old(View()), work, bindings);
    }

    // ----- deletion and expiry -----

    method DeleteDeviceData(mac: Mac) returns (report: Option<Deleted>)
      modifies this
      ensures report.None? <==> DeleteDevice(old(View()), mac).None?
      ensures report.None? ==> View() == old(View())
      ensures report.Some? ==>
                DeleteDevice(old(View()), mac) == Some(View()) && report.value == DeviceReport(old(View()), mac)
    {
      if mac !in devices {
        return None;
      }
      var ids := FlowsOfDevice(flows, mac);
      var minutes, domains := MinutesOfDevice(deviceMinutes, mac), DomainsOfDevice(domainMinutes, mac);
      report := Some(Deleted(1, |ids|, 0, |minutes|, |domains|, |SlicesOfDevice(slices, mac)|));
      deviceMinutes := deviceMinutes - minutes;
      domainMinutes := domainMinutes - domains;
      slices := slices - Cascade(slices, ids);
      flows := flows - ids;
      devices := devices - {mac};
    }

    method DeleteDomainData(scope: Option<Mac>, d: DomainName) returns (report: Deleted)
      modifies this
      ensures View() == DeleteDomain(old(View()), scope, d) && report == DomainReport(old(View()), scope, d)
    {
      var about, domains, ids := SlicesAbout(slices, scope, d), DomainsAbout(domainMinutes, scope, d),
          FlowsAbout(flows, scope, d);
      slices := slices - about;
      domainMinutes := domainMinutes - domains;
      flows := Redacted(flows, ids);
      report := Deleted(0, 0, |ids|, 0, |domains|, |about|);
    }

    method DeleteDataRange(range: TimeRange) returns (report: Deleted)
      modifies this
      ensures View() == DeleteRange(old(View()), range) && report == RangeReport(old(View()), range)
    {
      var ids := FlowsIn(flows, range);
      var contributions := |SlicesIn(slices, range) + Cascade(slices, ids)|;
      var minutes, domains := MinutesIn(deviceMinutes, range), DomainsIn(domainMinutes, range);
      deviceMinutes := deviceMinutes - minutes;
      domainMinutes := domainMinutes - domains;
      slices := slices - SlicesIn(slices, range);
      slices := slices - Cascade(slices, ids);
      flows := flows - ids;
      report := Deleted(0, |ids|, 0, |minutes|, |domains|, contributions);
    }

    // The statements of the retention cleanup, each committed on its own and counting the rows it deleted.

    method DeleteExpiredFlows(cutoff: int) returns (n: nat)
      modifies this`flows, this`slices
      ensures View() == ExpireFlows(old(View()), cutoff) && n == |FlowsBefore(old(flows), cutoff)|
    {
      var ids := FlowsBefore(flows, cutoff);
      slices := slices - Cascade(slices, ids);
      flows := flows - ids;
      n := |ids|;
    }

    method DeleteExpiredDeviceMinutes(cutoff: int) returns (n: nat)
      modifies this`deviceMinutes
      ensures View() == ExpireDeviceMinutes(old(View()), cutoff) && n == |MinutesBefore(old(deviceMinutes), cutoff)|
    {
      var gone := MinutesBefore(deviceMinutes, cutoff);
      deviceMinutes := deviceMinutes - gone;
      n := |gone|;
    }

    method DeleteExpiredContributions(cutoff: int)
      modifies this`slices
      ensures View() == ExpireSlices(old(View()), cutoff)
    {
      slices := slices - SlicesBefore(slices, cutoff);
    }

    method DeleteExpiredDomainMinutes(cutoff: int) returns (n: nat)
      modifies this`domainMinutes
      ensures View() == ExpireDomainMinutes(old(View()), cutoff) && n == |DomainsBefore(old(domainMinutes), cutoff)|
    {
      var gone := DomainsBefore(domainMinutes, cutoff);
      domainMinutes := domainMinutes - gone;
      n := |gone|;
    }

    /** What is older than the retention periods goes. */
    method DeleteExpiredData(now: Timestamp, flowRetentionHours: nat, aggregateRetentionDays: nat)
      returns (deletedFlows: nat, deletedAggregates: nat)
      modifies this
      ensures HasExpired(old(View()), View(), now - flowRetentionHours * 3_600_000,
                        now - aggregateRetentionDays * 86_400_000)
      ensures deletedFlows == |FlowsBefore(old(flows), now - flowRetentionHours * 3_600_000)|
      ensures deletedAggregates == |MinutesBefore(old(deviceMinutes), now - aggregateRetentionDays * 86_400_000)|
          + |DomainsBefore(old(domainMinutes), now - aggregateRetentionDays * 86_400_000)|
    {
      var flowCutoff, cutoff := now - flowRetentionHours * 3_600_000, now - aggregateRetentionDays * 86_400_000;
      deletedFlows, deletedAggregates := DeleteBefore(flowCutoff, cutoff);
    }

    /** The order of the statements matters if the process stops between them. */
    method DeleteBefore(flowCutoff: int, cutoff: int) returns (deletedFlows: nat, deletedAggregates: nat)
      modifies this
      ensures HasExpired(old(View()), View(), flowCutoff, cutoff)
      ensures deletedFlows == |FlowsBefore(old(flows), flowCutoff)|
      ensures deletedAggregates == |MinutesBefore(old(deviceMinutes), cutoff)|
          + |DomainsBefore(old(domainMinutes), cutoff)|
    {
      ghost var s0 := View();
      deletedFlows := DeleteExpiredFlows(flowCutoff);
      ghost var s1 := View();
      var devices := DeleteExpiredDeviceMinutes(cutoff);
      ghost var s2 := View();
      DeleteExpiredContributions(cutoff);
      ghost var s3 := View();
      var domains := DeleteExpiredDomainMinutes(cutoff);
      deletedAggregates := devices + domains;
      ExpireInStages(s0, s1, s2, s3, View(), flowCutoff, cutoff);
    }
  }

  ghost predicate HasExpired(before: State, after: State, flowCutoff: int, cutoff: int) {
    after == Expire(before, flowCutoff, cutoff, 4)
  }

  lemma ExpireInStages(s0: State, s1: State, s2: State, s3: State, s4: State, flowCutoff: int, cutoff: int)
    requires s1 == ExpireFlows(s0, flowCutoff) && s2 == ExpireDeviceMinutes(s1, cutoff)
    requires s3 == ExpireSlices(s2, cutoff) && s4 == ExpireDomainMinutes(s3, cutoff)
    ensures s4 == Expire(s0, flowCutoff, cutoff, 4)
  {}

  // ----- folds, extended at the end -----

  /** The rows so far lead from one state to another, with so many updates. */
  ghost predicate Done(start: State, b: Binding, rows: seq<FlowId>, now: State, updated: nat) {
    BackfillRows(start, b, rows) == Ok(Tally(now, updated))
  }

  lemma DoneStep(
      start: State, before: State, b: Binding, rows: seq<FlowId>, updated: nat, id: FlowId, now: State, n: nat)
    requires Done(start, b, rows, before, updated) && BackfillFlow(before, b, id) == Ok(Tally(now, n))
    ensures Done(start, b, rows + [id], now, updated + n)
  {
    BackfillRowsExtend(start, b, rows, id);
  }

  lemma {:induction false} BackfillRowsExtend(s: State, b: Binding, rows: seq<FlowId>, id: FlowId)
    requires BackfillRows(s, b, rows).Ok?
    ensures var r := BackfillRows(s, b, rows).value;
            var last := BackfillFlow(r.state, b, id);
            BackfillRows(s, b, rows + [id])
            == if last.Ok? then Ok(Tally(last.value.state, r.updated + last.value.updated)) else Err(last.error)
    decreases |rows|
  {
    if rows == [] {
      assert ([id])[1..] == [] && rows + [id] == [id];
      var last := BackfillFlow(s, b, id);
      if last.Ok? {
        assert BackfillRows(last.value.state, b, []) == Ok(Tally(last.value.state, 0));
      }
    } else {
      assert (rows + [id])[1..] == rows[1..] + [id];
      BackfillRowsExtend(BackfillFlow(s, b, rows[0]).value.state, b, rows[1..], id);
    }
  }

  lemma {:induction false} BackfillRowsStops(s: State, b: Binding, rows: seq<FlowId>, more: seq<FlowId>)
    requires BackfillRows(s, b, rows) == Err(Unbalanced)
    ensures BackfillRows(s, b, rows + more) == Err(Unbalanced)
    decreases |rows|
  {
    assert (rows + more)[1..] == rows[1..] + more;
    if BackfillFlow(s, b, rows[0]).Ok? {
      BackfillRowsStops(BackfillFlow(s, b, rows[0]).value.state, b, rows[1..], more);
    }
  }

  /** Some order of any finite set. */
  lemma {:induction false} Enumeration(ids: set<FlowId>) returns (order: seq<FlowId>)
    ensures Enumerates(order, ids)
    decreases |ids|
  {
    if ids == {} {
      order := [];
    } else {
      var id :| id in ids;
      var rest := Enumeration(ids - {id});
      order := [id] + rest;
    }
  }

  /** A failing row fails the whole query order it occurs in. */
  lemma BackfillRowsFails(s: State, before: State, b: Binding, rows: seq<FlowId>, id: FlowId, todo: set<FlowId>, n: nat)
    requires BackfillRows(s, b, rows) == Ok(Tally(before, n)) && BackfillFlow(before, b, id) == Err(Unbalanced)
    requires Handled(rows, todo, Matching(s, b)) && id in todo
    ensures exists order :: Enumerates(order, Matching(s, b)) && BackfillRows(s, b, order) == Err(Unbalanced)
  {
    var more := Enumeration(todo - {id});
    BackfillRowsExtend(s, b, rows, id);
    BackfillRowsStops(s, b, rows + [id], more);
    var order := rows + [id] + more;
    forall i, j | 0 <= i < j < |order| ensures order[i] != order[j] {
      if i < |rows| && j > |rows| {
        assert order[j] in more;
      }
    }
    assert Enumerates(order, Matching(s, b));
  }

  lemma {:induction false} BackfillAllExtend(s: State, work: seq<Work>, w: Work)
    requires BackfillAll(s, work).Ok?
    ensures var r := BackfillAll(s, work).value;
            var last := BackfillRows(r.state, w.binding, w.rows);
            BackfillAll(s, work + [w])
            == if last.Ok? then Ok(Tally(last.value.state, r.updated + last.value.updated)) else Err(last.error)
    decreases |work|
  {
    if work == [] {
      assert ([w])[1..] == [] && work + [w] == [w];
      var last := BackfillRows(s, w.binding, w.rows);
      if last.Ok? {
        assert BackfillAll(last.value.state, []) == Ok(Tally(last.value.state, 0));
      }
    } else {
      assert (work + [w])[1..] == work[1..] + [w];
      BackfillAllExtend(BackfillRows(s, work[0].binding, work[0].rows).value.state, work[1..], w);
    }
  }
}
