/** A DNS answer that arrives after its flow leaves the ledger exactly as one that arrived in time. */
module LateDns {
  import opened Domain
  import opened Attributions
  import opened Ledger
  import opened LedgerInvariant
  import opened LedgerRuns
  import opened Books
  import opened Timing
  import opened AttributionHistory

  type Batches = seq<seq<Flow>>

  /** Snapshots as a collector emits them: without attribution. */
  ghost predicate Unlabelled(batches: Batches) {
    forall i, j :: 0 <= i < |batches| && 0 <= j < |batches[i]| ==> batches[i][j].domain == None
  }

  ghost predicate Owned(owner: Owner, batches: Batches) {
    forall i :: 0 <= i < |batches| ==> OwnedBatch(owner, batches[i])
  }

  function Upserts(batches: Batches): seq<Step>
    decreases |batches|
  {
    if batches == [] then [] else [Upsert(batches[0])] + Upserts(batches[1..])
  }

  function LabelFlow(f: Flow, ids: set<FlowId>, a: Attribution): Flow {
    f.(domain := if f.flowId in ids then Some(a) else None)
  }

  function LabelBatch(fs: seq<Flow>, ids: set<FlowId>, a: Attribution): seq<Flow> {
    seq(|fs|, i requires 0 <= i < |fs| => LabelFlow(fs[i], ids, a))
  }

  /** The same batches with the snapshots of `ids` attributed from the start. */
  function Label(batches: Batches, ids: set<FlowId>, a: Attribution): Batches
    decreases |batches|
  {
    if batches == [] then [] else [LabelBatch(batches[0], ids, a)] + Label(batches[1..], ids, a)
  }

  /** Exactly the flows of `ids` carry an attribution, and it is `a`. */
  ghost predicate Tagged(s: State, ids: set<FlowId>, a: Attribution) {
    forall id :: id in s.flows ==> s.flows[id].domain == if id in ids then Some(a) else None
  }

  /** A snapshot that says nothing of a known flow, or says of a flow exactly what `Tagged` says. */
  ghost predicate Conveys(s: State, f: Flow, ids: set<FlowId>, a: Attribution) {
    || (f.domain == None && ids <= s.flows.Keys)
    || f.domain == if f.flowId in ids then Some(a) else None
  }

  lemma UpsertFlowTags(s: State, f: Flow, ids: set<FlowId>, a: Attribution)
    requires Tagged(s, ids, a) && Conveys(s, f, ids, a) && UpsertFlow(s, f).Ok?
    ensures Tagged(UpsertFlow(s, f).value, ids, a) && s.flows.Keys <= UpsertFlow(s, f).value.flows.Keys
  {
    UpsertFlowDomains(s, f);
    EffectiveAbsorbs(None, Some(a));
  }

  ghost predicate ConveysAll(s: State, fs: seq<Flow>, ids: set<FlowId>, a: Attribution) {
    || (ids <= s.flows.Keys && forall i :: 0 <= i < |fs| ==> fs[i].domain == None)
    || (forall i :: 0 <= i < |fs| ==> fs[i].domain == if fs[i].flowId in ids then Some(a) else None)
  }

  lemma {:induction false} UpsertAllTags(s: State, fs: seq<Flow>, ids: set<FlowId>, a: Attribution)
    requires Tagged(s, ids, a) && ConveysAll(s, fs, ids, a) && UpsertAll(s, fs).Ok?
    ensures Tagged(UpsertAll(s, fs).value, ids, a) && s.flows.Keys <= UpsertAll(s, fs).value.flows.Keys
    decreases |fs|
  {
    if fs != [] {
      UpsertFlowTags(s, fs[0], ids, a);
      UpsertAllTags(UpsertFlow(s, fs[0]).value, fs[1..], ids, a);
    }
  }

  lemma {:induction false} LateRunTags(s: State, batches: Batches, ids: set<FlowId>, a: Attribution)
    requires Tagged(s, ids, a) && ids <= s.flows.Keys && Unlabelled(batches)
    ensures Tagged(Run(s, Upserts(batches)), ids, a)
    decreases |batches|
  {
    if batches != [] {
      var fs := batches[0];
      if UpsertFlows(s, fs).Ok? {
        UpsertAllTags(s, fs, ids, a);
      }
      assert Unlabelled(batches[1..]);
      LateRunTags(Apply(s, Upsert(fs)), batches[1..], ids, a);
    }
  }

  lemma {:induction false} TimelyRunTags(s: State, batches: Batches, ids: set<FlowId>, a: Attribution)
    requires Tagged(s, ids, a)
    ensures Tagged(Run(s, Upserts(Label(batches, ids, a))), ids, a)
    decreases |batches|
  {
    if batches != [] {
      var fs := LabelBatch(batches[0], ids, a);
      if UpsertFlows(s, fs).Ok? {
        UpsertAllTags(s, fs, ids, a);
      }
      assert Label(batches, ids, a)[1..] == Label(batches[1..], ids, a);
      TimelyRunTags(Apply(s, Upsert(fs)), batches[1..], ids, a);
    }
  }

  // ----- both runs are histories of the same snapshots -----

  lemma {:induction false} UpsertsAreLegal(owner: Owner, s: State, batches: Batches)
    requires Owned(owner, batches)
    ensures LegalRun(owner, s, Upserts(batches)) && Additive(Upserts(batches))
    decreases |batches|
  {
    if batches != [] {
      UpsertsAreLegal(owner, Apply(s, Upsert(batches[0])), batches[1..]);
    }
  }

  lemma {:induction false} LabelKeepsTraffic(batches: Batches, ids: set<FlowId>, a: Attribution)
    ensures BareRun(Upserts(Label(batches, ids, a))) == BareRun(Upserts(batches))
    decreases |batches|
  {
    if batches != [] {
      var fs := batches[0];
      assert BareBatch(LabelBatch(fs, ids, a)) == BareBatch(fs);
      assert Label(batches, ids, a)[1..] == Label(batches[1..], ids, a);
      LabelKeepsTraffic(batches[1..], ids, a);
      assert Upserts(batches)[1..] == Upserts(batches[1..]);
      assert Upserts(Label(batches, ids, a))[1..] == Upserts(Label(batches[1..], ids, a));
    }
  }

  lemma {:induction false} LabelKeepsOwners(owner: Owner, batches: Batches, ids: set<FlowId>, a: Attribution)
    requires Owned(owner, batches)
    ensures Owned(owner, Label(batches, ids, a))
    decreases |batches|
  {
    if batches != [] {
      assert OwnedBatch(owner, batches[0]);
      LabelKeepsOwners(owner, batches[1..], ids, a);
    }
  }

  lemma {:induction false} BareRunConcat(first: seq<Step>, second: seq<Step>)
    ensures BareRun(first + second) == BareRun(first) + BareRun(second)
    decreases |first|
  {
    if first == [] {
      assert first + second == second;
    } else {
      assert (first + second)[1..] == first[1..] + second;
      BareRunConcat(first[1..], second);
    }
  }

  lemma {:induction false} UpsertsConcat(first: Batches, second: Batches)
    ensures Upserts(first + second) == Upserts(first) + Upserts(second)
    decreases |first|
  {
    if first == [] {
      assert first + second == second;
    } else {
      assert (first + second)[1..] == first[1..] + second;
      UpsertsConcat(first[1..], second);
    }
  }

  lemma {:induction false} LegalConcat(owner: Owner, s: State, first: seq<Step>, second: seq<Step>)
    requires LegalRun(owner, s, first) && LegalRun(owner, Run(s, first), second)
    ensures LegalRun(owner, s, first + second)
    decreases |first|
  {
    if first == [] {
      assert first + second == second;
    } else {
      assert (first + second)[1..] == first[1..] + second;
      LegalConcat(owner, Apply(s, first[0]), first[1..], second);
    }
  }

  /** Snapshots, one backfill, more snapshots. */
  function LateRun(before: Batches, w: Work, after: Batches): seq<Step> {
    Upserts(before) + ([Backfill([w])] + Upserts(after))
  }

  function TimelyRun(before: Batches, w: Work, after: Batches, ids: set<FlowId>): seq<Step> {
    Upserts(Label(before + after, ids, w.binding.attribution))
  }

  lemma BackfillTags(owner: Owner, s: State, w: Work)
    requires Exact(owner, s) && Tagged(s, {}, w.binding.attribution) && Enumerates(w.rows, Matching(s, w.binding))
    ensures var t := Apply(s, Backfill([w]));
            && Tagged(t, Matching(s, w.binding), w.binding.attribution)
            && Matching(s, w.binding) <= t.flows.Keys
  {
    BackfillRowsExact(owner, s, w.binding, w.rows);
    BackfillRowsDomains(s, w.binding, w.rows);
    SingleWork(s, w);
  }

  lemma SingleWork(s: State, w: Work)
    ensures BackfillAll(s, [w]) == BackfillRows(s, w.binding, w.rows)
  {}

  lemma LateRunIsLegal(owner: Owner, before: Batches, w: Work, after: Batches)
    requires Owned(owner, before) && Owned(owner, after)
    requires Enumerates(w.rows, Matching(Run(EMPTY_LEDGER, Upserts(before)), w.binding))
    ensures LegalRun(owner, EMPTY_LEDGER, LateRun(before, w, after)) && Additive(LateRun(before, w, after))
  {
    var s := Run(EMPTY_LEDGER, Upserts(before));
    UpsertsAreLegal(owner, EMPTY_LEDGER, before);
    UpsertsAreLegal(owner, Apply(s, Backfill([w])), after);
    var tail := [Backfill([w])] + Upserts(after);
    assert tail[0] == Backfill([w]) && tail[1..] == Upserts(after);
    LegalConcat(owner, EMPTY_LEDGER, Upserts(before), tail);
  }

  lemma LateRunTraffic(before: Batches, w: Work, after: Batches, ids: set<FlowId>)
    ensures BareRun(LateRun(before, w, after)) == BareRun(TimelyRun(before, w, after, ids))
  {
    var tail := [Backfill([w])] + Upserts(after);
    assert tail[1..] == Upserts(after);
    BareRunConcat(Upserts(before), tail);
    LabelKeepsTraffic(before + after, ids, w.binding.attribution);
    UpsertsConcat(before, after);
    BareRunConcat(Upserts(before), Upserts(after));
  }

  lemma LateRunEndsTagged(owner: Owner, before: Batches, w: Work, after: Batches)
    requires Owned(owner, before) && Unlabelled(before) && Unlabelled(after)
    requires Enumerates(w.rows, Matching(Run(EMPTY_LEDGER, Upserts(before)), w.binding))
    ensures Tagged(Run(EMPTY_LEDGER, LateRun(before, w, after)),
        Matching(Run(EMPTY_LEDGER, Upserts(before)), w.binding), w.binding.attribution)
  {
    var a := w.binding.attribution;
    var s := Run(EMPTY_LEDGER, Upserts(before));
    EmptyIsExact(owner);
    UpsertsAreLegal(owner, EMPTY_LEDGER, before);
    BooksStayExact(owner, EMPTY_LEDGER, Upserts(before));
    LateRunTags(EMPTY_LEDGER, before, {}, a);
    BackfillTags(owner, s, w);
    var t := Apply(s, Backfill([w]));
    LateRunTags(t, after, Matching(s, w.binding), a);
    var tail := [Backfill([w])] + Upserts(after);
    assert tail[0] == Backfill([w]) && tail[1..] == Upserts(after);
    RunConcat(EMPTY_LEDGER, Upserts(before), tail);
  }

  /**
   * Late equals timely: snapshots without attribution, with one backfill at any point, leave the books
   * that the same snapshots leave when those of the matched flows carry the binding from the start.
   */
  lemma LateEqualsTimely(owner: Owner, before: Batches, w: Work, after: Batches)
    requires Owned(owner, before) && Owned(owner, after)
    requires Unlabelled(before) && Unlabelled(after)
    requires Enumerates(w.rows, Matching(Run(EMPTY_LEDGER, Upserts(before)), w.binding))
    ensures var ids := Matching(Run(EMPTY_LEDGER, Upserts(before)), w.binding);
            SameBooks(Run(EMPTY_LEDGER, LateRun(before, w, after)), Run(EMPTY_LEDGER, TimelyRun(before, w, after, ids)))
  {
    var a := w.binding.attribution;
    var ids := Matching(Run(EMPTY_LEDGER, Upserts(before)), w.binding);
    var labelled := Label(before + after, ids, a);
    LateRunIsLegal(owner, before, w, after);
    assert Owned(owner, before + after);
    LabelKeepsOwners(owner, before + after, ids, a);
    UpsertsAreLegal(owner, EMPTY_LEDGER, labelled);
    LateRunTraffic(before, w, after, ids);
    LateRunEndsTagged(owner, before, w, after);
    TimelyRunTags(EMPTY_LEDGER, before + after, ids, a);
    TimingIsIrrelevant(owner, LateRun(before, w, after), TimelyRun(before, w, after, ids));
  }

  lemma SameBooksJoin(s: State, t: State, u: State)
    requires SameBooks(s, u) && SameBooks(t, u)
    ensures SameBooks(s, t)
  {
    forall key, lane ensures Booked(s.domainMinutes, key, lane) == Booked(t.domainMinutes, key, lane) {
      assert Booked(s.domainMinutes, key, lane) == Booked(u.domainMinutes, key, lane);
    }
  }

  lemma {:induction false} FlowsStay(s: State, batches: Batches)
    ensures s.flows.Keys <= Run(s, Upserts(batches)).flows.Keys
    decreases |batches|
  {
    if batches != [] {
      var fs := batches[0];
      if UpsertFlows(s, fs).Ok? {
        UpsertAllKeepsFlows(s, fs);
      }
      FlowsStay(Apply(s, Upsert(fs)), batches[1..]);
    }
  }

  lemma {:induction false} UpsertAllKeepsFlows(s: State, fs: seq<Flow>)
    requires UpsertAll(s, fs).Ok?
    ensures s.flows.Keys <= UpsertAll(s, fs).value.flows.Keys
    decreases |fs|
  {
    if fs != [] {
      UpsertFlowDomains(s, fs[0]);
      UpsertAllKeepsFlows(UpsertFlow(s, fs[0]).value, fs[1..]);
    }
  }

  /** The flows a binding would reach if it were delivered after these batches. */
  function Reached(batches: Batches, b: Binding): set<FlowId> { Matching(Run(EMPTY_LEDGER, Upserts(batches)), b) }

  lemma LateRunKeepsReached(owner: Owner, before: Batches, w: Work, after: Batches)
    requires Owned(owner, before) && Enumerates(w.rows, Reached(before, w.binding))
    ensures Reached(before, w.binding) <= Run(EMPTY_LEDGER, LateRun(before, w, after)).flows.Keys
  {
    var s, tail := Run(EMPTY_LEDGER, Upserts(before)), [Backfill([w])] + Upserts(after);
    EmptyIsExact(owner);
    UpsertsAreLegal(owner, EMPTY_LEDGER, before);
    BooksStayExact(owner, EMPTY_LEDGER, Upserts(before));
    BackfillRowsExact(owner, s, w.binding, w.rows);
    SingleWork(s, w);
    FlowsStay(Apply(s, Backfill([w])), after);
    assert tail[0] == Backfill([w]) && tail[1..] == Upserts(after);
    RunConcat(EMPTY_LEDGER, Upserts(before), tail);
  }

  /**
   * Delaying a delivery, as failed flushes do, past any number of batches makes no difference to the books if and
   * only if the binding reaches the same flows at both moments.
   */
  lemma DelayIsInvisible(owner: Owner, before: Batches, meanwhile: Batches, after: Batches, prompt: Work, delayed: Work)
    requires Owned(owner, before) && Owned(owner, meanwhile) && Owned(owner, after)
    requires Unlabelled(before) && Unlabelled(meanwhile) && Unlabelled(after)
    requires prompt.binding == delayed.binding
    requires Enumerates(prompt.rows, Reached(before, prompt.binding))
    requires Enumerates(delayed.rows, Reached(before + meanwhile, delayed.binding))
    ensures SameBooks(Run(EMPTY_LEDGER, LateRun(before, prompt, meanwhile + after)),
        Run(EMPTY_LEDGER, LateRun(before + meanwhile, delayed, after)))
        <==> Reached(before, prompt.binding) == Reached(before + meanwhile, delayed.binding)
  {
    var b := prompt.binding;
    var one, two := Run(EMPTY_LEDGER, LateRun(before, prompt, meanwhile + after)),
        Run(EMPTY_LEDGER, LateRun(before + meanwhile, delayed, after));
    var ids, later := Reached(before, b), Reached(before + meanwhile, b);
    assert before + (meanwhile + after) == (before + meanwhile) + after;
    assert Owned(owner, before + meanwhile) && Unlabelled(before + meanwhile);
    assert Owned(owner, meanwhile + after) && Unlabelled(meanwhile + after);
    if ids == later {
      LateEqualsTimely(owner, before, prompt, meanwhile + after);
      LateEqualsTimely(owner, before + meanwhile, delayed, after);
      SameBooksJoin(one, two, Run(EMPTY_LEDGER, TimelyRun(before, prompt, meanwhile + after, ids)));
    } else {
      LateRunEndsTagged(owner, before, prompt, meanwhile + after);
      LateRunEndsTagged(owner, before + meanwhile, delayed, after);
      LateRunKeepsReached(owner, before, prompt, meanwhile + after);
      LateRunKeepsReached(owner, before + meanwhile, delayed, after);
      var id :| id in ids + later && !(id in ids && id in later);
      assert id in one.flows || id in two.flows;
    }
  }
}
