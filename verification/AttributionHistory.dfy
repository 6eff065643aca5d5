/** A flow's stored attribution, updated one snapshot or binding at a time, is the best of all it was ever told. */
module AttributionHistory {
  import opened Domain
  import opened Attributions
  import opened Ledger
  import opened LedgerInvariant
  import opened LedgerRuns
  import opened Books

  // ----- what the transactions do to the domain column -----

  lemma RelabelKeepsOthers(s: State, f: Flow)
    requires Relabel(s, f).Ok?
    ensures var t := Relabel(s, f).value;
            t.flows.Keys == s.flows.Keys
            && forall id :: id in s.flows && id != f.flowId ==> t.flows[id] == s.flows[id]
  {}

  lemma StoreRowDomains(s: State, f: Flow, d: Option<Attribution>)
    ensures var t := StoreRow(s, f, d);
            && t.flows.Keys == s.flows.Keys + {f.flowId} && t.flows[f.flowId].domain == d
            && (forall id :: id in s.flows && id != f.flowId ==> t.flows[id] == s.flows[id])
  {}

  lemma UpsertFlowDomains(s: State, f: Flow)
    requires UpsertFlow(s, f).Ok?
    ensures var t := UpsertFlow(s, f).value;
            && t.flows.Keys == s.flows.Keys + {f.flowId}
            && t.flows[f.flowId].domain == KeptDomain(s, f)
            && (forall id :: id in s.flows && id != f.flowId ==> t.flows[id] == s.flows[id])
  {
    var relabelled := Relabel(s, f).value;
    RelabelKeepsOthers(s, f);
    StoreRowDomains(relabelled, f, KeptDomain(s, f));
    assert UpsertFlow(s, f).value.flows == StoreRow(relabelled, f, KeptDomain(s, f)).flows;
  }

  lemma UpsertStores(s: State, f: Flow)
    requires UpsertFlow(s, f).Ok?
    ensures var t, d := UpsertFlow(s, f).value, KeptDomain(s, f);
            && f.flowId in t.flows
            && t.flows[f.flowId] == if f.flowId in s.flows then Merged(s.flows[f.flowId], f, d) else f.(domain := d)
  {
    var relabelled, d := Relabel(s, f).value, KeptDomain(s, f);
    assert UpsertFlow(s, f).value.flows == StoreRow(relabelled, f, d).flows;
    if f.flowId in s.flows {
      assert relabelled.flows[f.flowId].(domain := d) == s.flows[f.flowId].(domain := d);
    }
  }

  ghost predicate Distinct(rows: seq<FlowId>) {
    forall i, j :: 0 <= i < j < |rows| ==> rows[i] != rows[j]
  }

  lemma {:induction false} BackfillRowsDomains(s: State, b: Binding, rows: seq<FlowId>)
    requires BackfillRows(s, b, rows).Ok? && Distinct(rows) && (forall id :: id in rows ==> id in s.flows)
    ensures var t := BackfillRows(s, b, rows).value.state;
            && t.flows.Keys == s.flows.Keys
            && (forall id :: id in s.flows ==>
                  t.flows[id].domain
                  == if id in rows then Effective(s.flows[id].domain, Some(b.attribution)) else s.flows[id].domain)
    decreases |rows|
  {
    if rows != [] {
      var next := BackfillFlow(s, b, rows[0]).value.state;
      forall id | id in s.flows && id != rows[0] ensures next.flows[id] == s.flows[id] {}
      assert next.flows[rows[0]].domain == Effective(s.flows[rows[0]].domain, Some(b.attribution));
      assert rows[0] !in rows[1..];
      BackfillRowsDomains(next, b, rows[1..]);
    }
  }

  // ----- what a flow is told -----

  function HeardInSnapshot(f: Flow, id: FlowId): seq<Attribution> {
    if f.flowId == id && f.domain.Some? then [f.domain.value] else []
  }

  /** The attributions a batch carries for one flow, in order. */
  function HeardInBatch(fs: seq<Flow>, id: FlowId): seq<Attribution>
    decreases |fs|
  {
    if fs == [] then [] else HeardInSnapshot(fs[0], id) + HeardInBatch(fs[1..], id)
  }

  function HeardFrom(row: Option<Flow>, b: Binding): seq<Attribution> {
    if row.Some? && Matches(b, row.value) then [b.attribution] else []
  }

  /** The bindings of a backfill that match one flow, in order. */
  function HeardInWork(row: Option<Flow>, work: seq<Work>): seq<Attribution>
    decreases |work|
  {
    if work == [] then [] else HeardFrom(row, work[0].binding) + HeardInWork(row, work[1..])
  }

  function RowOf(s: State, id: FlowId): Option<Flow> { if id in s.flows then Some(s.flows[id]) else None }

  /** Only committed transactions tell a flow anything. */
  function Heard(s: State, step: Step, id: FlowId): seq<Attribution> {
    match step
    case Upsert(flows) => if UpsertFlows(s, flows).Ok? then HeardInBatch(flows, id) else []
    case Backfill(work) => if BackfillAll(s, work).Ok? then HeardInWork(RowOf(s, id), work) else []
    case _ => []
  }

  function History(s: State, steps: seq<Step>, id: FlowId): seq<Attribution>
    decreases |steps|
  {
    if steps == [] then [] else Heard(s, steps[0], id) + History(Apply(s, steps[0]), steps[1..], id)
  }

  // ----- the incremental rule refines the history -----

  lemma ExplainsAppend(told: seq<Attribution>, first: seq<Attribution>, rest: seq<Attribution>,
      stored: Option<Attribution>)
    requires Explains((told + first) + rest, stored)
    ensures Explains(told + (first + rest), stored)
  {
    assert told + (first + rest) == (told + first) + rest;
  }

  lemma ExplainsNothing(told: seq<Attribution>, stored: Option<Attribution>)
    requires Explains(told, stored)
    ensures Explains(told + [], stored)
  {
    assert told + [] == told;
  }

  lemma UpsertFlowExplains(s: State, f: Flow, id: FlowId, told: seq<Attribution>)
    requires UpsertFlow(s, f).Ok? && Explains(told, StoredDomain(s, id))
    ensures Explains(told + HeardInSnapshot(f, id), StoredDomain(UpsertFlow(s, f).value, id))
  {
    UpsertFlowDomains(s, f);
    if f.flowId == id && f.domain.Some? {
      EffectiveExplains(told, StoredDomain(s, id), f.domain.value);
    } else {
      ExplainsNothing(told, StoredDomain(s, id));
    }
  }

  lemma {:induction false} UpsertAllExplains(s: State, fs: seq<Flow>, id: FlowId, told: seq<Attribution>)
    requires UpsertAll(s, fs).Ok? && Explains(told, StoredDomain(s, id))
    ensures Explains(told + HeardInBatch(fs, id), StoredDomain(UpsertAll(s, fs).value, id))
    decreases |fs|
  {
    if fs == [] {
      ExplainsNothing(told, StoredDomain(s, id));
    } else {
      var first := HeardInSnapshot(fs[0], id);
      UpsertFlowExplains(s, fs[0], id, told);
      UpsertAllExplains(UpsertFlow(s, fs[0]).value, fs[1..], id, told + first);
      ExplainsAppend(told, first, HeardInBatch(fs[1..], id), StoredDomain(UpsertAll(s, fs).value, id));
    }
  }

  lemma BackfillRowsExplains(s: State, w: Work, id: FlowId, told: seq<Attribution>)
    requires BackfillRows(s, w.binding, w.rows).Ok? && Enumerates(w.rows, Matching(s, w.binding))
    requires Explains(told, StoredDomain(s, id))
    ensures Explains(told + HeardFrom(RowOf(s, id), w.binding),
        StoredDomain(BackfillRows(s, w.binding, w.rows).value.state, id))
  {
    forall j | j in w.rows ensures j in s.flows { assert j in Matching(s, w.binding); }
    BackfillRowsDomains(s, w.binding, w.rows);
    if id in Matching(s, w.binding) {
      EffectiveExplains(told, StoredDomain(s, id), w.binding.attribution);
    } else {
      ExplainsNothing(told, StoredDomain(s, id));
    }
  }

  lemma {:induction false} HeardInWorkStays(row: Flow, other: Flow, work: seq<Work>)
    requires row.(domain := None) == other.(domain := None)
    ensures HeardInWork(Some(row), work) == HeardInWork(Some(other), work)
    decreases |work|
  {
    if work != [] {
      HeardInWorkStays(row, other, work[1..]);
    }
  }

  lemma SameRowsHearTheSame(s: State, t: State, id: FlowId, work: seq<Work>)
    requires SameRows(s, t)
    ensures HeardInWork(RowOf(s, id), work) == HeardInWork(RowOf(t, id), work)
  {}

  lemma {:induction false} BackfillAllExplains(s: State, work: seq<Work>, id: FlowId, told: seq<Attribution>)
    requires BackfillAll(s, work).Ok? && FaithfulWork(s, work) && Explains(told, StoredDomain(s, id))
    ensures Explains(told + HeardInWork(RowOf(s, id), work), StoredDomain(BackfillAll(s, work).value.state, id))
    decreases |work|
  {
    if work == [] {
      ExplainsNothing(told, StoredDomain(s, id));
    } else {
      var w, rest := work[0], work[1..];
      var next := BackfillRows(s, w.binding, w.rows).value.state;
      var first := HeardFrom(RowOf(s, id), w.binding);
      assert Enumerates(w.rows, Matching(s, w.binding));
      BackfillRowsExplains(s, w, id, told);
      BackfillRowsTouchOnlyDomains(s, w.binding, w.rows);
      SameRowsFaithful(s, next, work);
      assert FaithfulWork(next, rest);
      BackfillAllExplains(next, rest, id, told + first);
      SameRowsHearTheSame(s, next, id, rest);
      ExplainsAppend(told, first, HeardInWork(RowOf(s, id), rest), StoredDomain(BackfillAll(s, work).value.state, id));
    }
  }

  lemma StepExplains(s: State, step: Step, id: FlowId, told: seq<Attribution>)
    requires step.Upsert? || (step.Backfill? && FaithfulWork(s, step.work))
    requires Explains(told, StoredDomain(s, id))
    ensures Explains(told + Heard(s, step, id), StoredDomain(Apply(s, step), id))
  {
    ExplainsNothing(told, StoredDomain(s, id));
    match step
    case Upsert(flows) =>
      if UpsertFlows(s, flows).Ok? {
        UpsertAllExplains(s, flows, id, told);
      }
    case Backfill(work) =>
      if BackfillAll(s, work).Ok? {
        BackfillAllExplains(s, work, id, told);
      }
  }

  lemma {:induction false} RunExplains(owner: Owner, s: State, steps: seq<Step>, id: FlowId, told: seq<Attribution>)
    requires Additive(steps) && LegalRun(owner, s, steps) && Explains(told, StoredDomain(s, id))
    ensures Explains(told + History(s, steps, id), StoredDomain(Run(s, steps), id))
    decreases |steps|
  {
    if steps == [] {
      ExplainsNothing(told, StoredDomain(s, id));
    } else {
      var heard, next, rest := Heard(s, steps[0], id), Apply(s, steps[0]), steps[1..];
      StepExplains(s, steps[0], id, told);
      assert Additive(rest);
      RunExplains(owner, next, rest, id, told + heard);
      ExplainsAppend(told, heard, History(next, rest, id), StoredDomain(Run(s, steps), id));
    }
  }

  /** After any run from an empty database a flow's attribution is the last greatest one it was told, if any. */
  lemma StoredIsLastGreatest(owner: Owner, steps: seq<Step>, id: FlowId)
    requires Additive(steps) && LegalRun(owner, EMPTY_LEDGER, steps)
    ensures Explains(History(EMPTY_LEDGER, steps, id), StoredDomain(Run(EMPTY_LEDGER, steps), id))
  {
    RunExplains(owner, EMPTY_LEDGER, steps, id, []);
    ExplainsFromNothing(History(EMPTY_LEDGER, steps, id), StoredDomain(Run(EMPTY_LEDGER, steps), id));
  }

  /**
   * In plain terms: a flow is attributed exactly when it was told something, with high confidence exactly when
   * something told was certain, and from DNS exactly when something as certain came from DNS.
   */
  lemma StoredIsMostCertain(owner: Owner, steps: seq<Step>, id: FlowId)
    requires Additive(steps) && LegalRun(owner, EMPTY_LEDGER, steps)
    ensures var told, stored := History(EMPTY_LEDGER, steps, id), StoredDomain(Run(EMPTY_LEDGER, steps), id);
            (stored.None? <==> told == []) && (stored.Some? ==> MostCertain(told, stored.value))
  {
    StoredIsLastGreatest(owner, steps, id);
    var told, stored := History(EMPTY_LEDGER, steps, id), StoredDomain(Run(EMPTY_LEDGER, steps), id);
    if stored.Some? {
      LastGreatestIsMostCertain(told, stored.value);
    }
  }

  lemma ExplainsFromNothing(told: seq<Attribution>, stored: Option<Attribution>)
    requires Explains([] + told, stored)
    ensures Explains(told, stored)
  {
    assert [] + told == told;
  }

  /** From any state, snapshots and backfills never forget a known domain and never weaken its rank. */
  lemma KnownDomainIsKept(owner: Owner, s: State, steps: seq<Step>, id: FlowId)
    requires Additive(steps) && LegalRun(owner, s, steps) && StoredDomain(s, id).Some?
    ensures StoredDomain(Run(s, steps), id).Some?
    ensures var known, kept := StoredDomain(s, id).value, StoredDomain(Run(s, steps), id).value;
            && NotAbove(known, kept) && Prevails(kept, known)
            && (known.confidence == High ==> kept.confidence == High)
            && (known.confidence == High && known.source == Dns ==> kept.confidence == High && kept.source == Dns)
  {
    var known := [StoredDomain(s, id).value];
    assert LastGreatestAt(known, 0);
    RunExplains(owner, s, steps, id, known);
    var told := known + History(s, steps, id);
    var stored := StoredDomain(Run(s, steps), id);
    assert told != [] && told[0] == known[0];
    var i :| 0 <= i < |told| && LastGreatestAt(told, i) && told[i] == stored.value;
    assert NotAbove(told[0], told[i]);
  }
}
