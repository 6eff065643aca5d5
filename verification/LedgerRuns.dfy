/** Whole histories of the ledger: every interleaving of writes, backfills, privacy deletions and expiry. */
module LedgerRuns {
  import opened Domain
  import opened Ledger
  import opened Totals
  import opened LedgerInvariant

  datatype Step =
    | Upsert(flows: seq<Flow>)
    | Backfill(work: seq<Work>)
    | DropDevice(mac: Mac)
    | DropDomain(scope: Option<Mac>, domain: DomainName)
    | DropRange(range: TimeRange)
    | Expiry(flowCutoff: int, cutoff: int, done: nat)

  /** A transaction that fails leaves every table as it was. */
  function Apply(s: State, step: Step): State {
    match step
    case Upsert(flows) => (var r := UpsertFlows(s, flows); if r.Ok? then r.value else s)
    case Backfill(work) => (var r := BackfillAll(s, work); if r.Ok? then r.value.state else s)
    case DropDevice(mac) => (var r := DeleteDevice(s, mac); if r.Some? then r.value else s)
    case DropDomain(scope, domain) => DeleteDomain(s, scope, domain)
    case DropRange(range) => DeleteRange(s, range)
    case Expiry(flowCutoff, cutoff, done) => Expire(s, flowCutoff, cutoff, done)
  }

  /** Snapshots carry the MAC their flow id embeds; a backfill is handed the rows its query matched. */
  ghost predicate Legal(owner: Owner, s: State, step: Step) {
    match step
    case Upsert(flows) => OwnedBatch(owner, flows)
    case Backfill(work) => FaithfulWork(s, work)
    case _ => true
  }

  function Run(s: State, steps: seq<Step>): State
    decreases |steps|
  {
    if steps == [] then s else Run(Apply(s, steps[0]), steps[1..])
  }

  ghost predicate LegalRun(owner: Owner, s: State, steps: seq<Step>)
    decreases |steps|
  {
    steps == [] || (Legal(owner, s, steps[0]) && LegalRun(owner, Apply(s, steps[0]), steps[1..]))
  }

  lemma {:induction false} RunConcat(s: State, first: seq<Step>, second: seq<Step>)
    ensures Run(s, first + second) == Run(Run(s, first), second)
    decreases |first|
  {
    if first == [] {
      assert first + second == second;
    } else {
      assert (first + second)[1..] == first[1..] + second;
      RunConcat(Apply(s, first[0]), first[1..], second);
    }
  }

  /** A fresh database, or one of the older schema: any flows and aggregates, and no contributions yet. */
  ghost predicate Initial(owner: Owner, s: State) {
    FlowsOwned(owner, s) && s.slices == map[]
  }

  lemma InitialIsCoherent(owner: Owner, s: State)
    requires Initial(owner, s)
    ensures Coherent(owner, s)
  {}

  lemma StepCoherent(owner: Owner, s: State, step: Step)
    requires Coherent(owner, s) && Legal(owner, s, step)
    ensures Coherent(owner, Apply(s, step))
  {
    match step
    case Upsert(flows) => UpsertAllCoherent(owner, s, flows);
    case Backfill(work) => BackfillAllCoherent(owner, s, work);
    case DropDevice(mac) =>
      if mac in s.devices {
        DeleteDeviceCoherent(owner, s, mac);
      }
    case DropDomain(scope, domain) => DeleteDomainCoherent(owner, s, scope, domain);
    case DropRange(range) => DeleteRangeCoherent(owner, s, range);
    case Expiry(flowCutoff, cutoff, done) => ExpireCoherent(owner, s, flowCutoff, cutoff, done);
  }

  /** Every reachable ledger is coherent. */
  lemma {:induction false} EveryRunIsCoherent(owner: Owner, s: State, steps: seq<Step>)
    requires Coherent(owner, s) && LegalRun(owner, s, steps)
    ensures Coherent(owner, Run(s, steps))
    decreases |steps|
  {
    if steps != [] {
      StepCoherent(owner, s, steps[0]);
      EveryRunIsCoherent(owner, Apply(s, steps[0]), steps[1..]);
    }
  }

  /** In every reachable state the abort of a subtraction is unreachable: no write fails on unbalanced books. */
  lemma NoWriteIsUnbalanced(owner: Owner, s: State, steps: seq<Step>, next: Step)
    requires Initial(owner, s) && LegalRun(owner, s, steps) && Legal(owner, Run(s, steps), next)
    ensures next.Upsert? ==> UpsertFlows(Run(s, steps), next.flows) != Err(Unbalanced)
    ensures next.Backfill? ==> BackfillAll(Run(s, steps), next.work).Ok?
  {
    InitialIsCoherent(owner, s);
    EveryRunIsCoherent(owner, s, steps);
    var t := Run(s, steps);
    match next
    case Upsert(flows) => UpsertAllCoherent(owner, t, flows);
    case Backfill(work) => BackfillAllCoherent(owner, t, work);
    case _ =>
  }

  /** No contribution outgrows its flow's counters, hence none outgrows a stored integer. */
  lemma ContributionsFit(owner: Owner, s: State, steps: seq<Step>, k: SliceKey)
    requires Initial(owner, s) && LegalRun(owner, s, steps) && k in Run(s, steps).slices
    ensures var t := Run(s, steps);
            && k.flow in t.flows
            && Leq(t.slices[k].bytes, BytesOf(t.flows[k.flow].counters))
            && t.slices[k].bytes.up <= MAX_I64 && t.slices[k].bytes.down <= MAX_I64
  {
    InitialIsCoherent(owner, s);
    EveryRunIsCoherent(owner, s, steps);
    var t := Run(s, steps);
    forall lane ensures t.slices[k].bytes.In(lane) <= BytesOf(t.flows[k.flow].counters).In(lane) {
      ShareWithinTotal(t.slices, ByFlow(k.flow), lane, k);
    }
    assert t.slices[k].bytes.In(Up) <= BytesOf(t.flows[k.flow].counters).In(Up);
    assert t.slices[k].bytes.In(Down) <= BytesOf(t.flows[k.flow].counters).In(Down);
  }
}
