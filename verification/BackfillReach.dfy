/** Which flows a committed backfill changes, and what becomes of them. */
module BackfillReach {
  import opened Domain
  import opened Sequences
  import opened Attributions
  import opened Ledger
  import opened Totals
  import opened LedgerInvariant
  import opened LedgerRuns
  import opened Books
  import opened AttributionHistory
  import opened BatchLaws

  /** The binding is about the flow's device and destination, and was in force at some moment of the flow. */
  predicate Reaches(b: Binding, f: Flow) {
    && f.endpoints.clientMac == b.clientMac && f.endpoints.destinationIp == b.targetIp
    && b.attribution.associatedAt <= f.lastSeen
    && match b.attribution.expiresAt {
         case Some(end) => f.firstSeen < end
         case None => f.firstSeen < MAX_I64
       }
  }

  ghost predicate IsReached(work: seq<Work>, f: Flow) {
    exists i :: 0 <= i < |work| && Reaches(work[i].binding, f)
  }

  /** The flows whose attribution differs. */
  ghost function Changed(s: State, t: State): set<FlowId> {
    set id | id in s.flows && id in t.flows && t.flows[id].domain != s.flows[id].domain
  }

  // ----- one binding -----

  /**
   * One binding: it changes a flow only if it is about the flow's device and destination, began before the flow
   * ended and ends after the flow began, and prevails over what the flow had; it changes every such flow, in
   * particular every one without an attribution; it changes nothing but the attribution; and it counts the changes.
   */
  lemma BindingReaches(s: State, w: Work, id: FlowId)
    requires BackfillAll(s, [w]).Ok? && FaithfulWork(s, [w]) && id in s.flows
    ensures var b, f, t := w.binding, s.flows[id], BackfillAll(s, [w]).value.state;
            var inReach :=
              && f.endpoints.clientMac == b.clientMac && f.endpoints.destinationIp == b.targetIp
              && f.lastSeen >= b.attribution.associatedAt
              && f.firstSeen < (if b.attribution.expiresAt.Some? then b.attribution.expiresAt.value else MAX_I64);
            && id in t.flows && t.flows[id] == f.(domain := t.flows[id].domain)
            && (t.flows[id].domain != f.domain ==> inReach && t.flows[id].domain == Some(b.attribution))
            && (f.domain.None? && inReach ==> t.flows[id].domain == Some(b.attribution))
            && (f.domain.Some? && inReach && Prevails(b.attribution, f.domain.value) ==>
                  t.flows[id].domain == Some(b.attribution))
    ensures BackfillAll(s, [w]).value.updated == |Changed(s, BackfillAll(s, [w]).value.state)|
  {
    BackfillReaches(s, [w], id);
    BackfillCounts(s, [w]);
    BackfillAllDomains(s, [w], id);
    var b, f := w.binding, s.flows[id];
    assert [w][1..] == [] && Told(f, [w]) == if Matches(b, f) then Some(b.attribution) else None;
    if f.domain.Some? {
      EffectivePrevails(f.domain.value, b.attribution);
    }
  }

  // ----- any list of bindings -----

  lemma ReachesIsMatches(b: Binding, f: Flow)
    ensures Reaches(b, f) <==> Matches(b, f)
  {}

  /** What a flow hears from a backfill are the attributions of the bindings that reach it, in order. */
  lemma {:induction false} HeardFromReaching(f: Flow, work: seq<Work>, a: Attribution)
    ensures a in HeardInWork(Some(f), work) <==>
              exists i :: 0 <= i < |work| && Reaches(work[i].binding, f) && work[i].binding.attribution == a
    decreases |work|
  {
    if work != [] {
      var rest := work[1..];
      ReachesIsMatches(work[0].binding, f);
      HeardFromReaching(f, rest, a);
      assert forall i :: 0 <= i < |rest| ==> rest[i] == work[i + 1];
      assert HeardInWork(Some(f), work) == HeardFrom(Some(f), work[0].binding) + HeardInWork(Some(f), rest);
      if i :| 0 <= i < |work| && Reaches(work[i].binding, f) && work[i].binding.attribution == a {
        assert i > 0 ==> work[i] == rest[i - 1];
      }
      if i :| 0 <= i < |rest| && Reaches(rest[i].binding, f) && rest[i].binding.attribution == a {
        assert work[i + 1] == rest[i];
      }
    }
  }

  /**
   * Any bindings at once, for any row order: a flow that none reaches is as it was; a flow without an attribution
   * that some reach ends with the most certain of theirs; one with an attribution ends with that or theirs.
   */
  lemma BackfillReaches(s: State, work: seq<Work>, id: FlowId)
    requires BackfillAll(s, work).Ok? && FaithfulWork(s, work) && id in s.flows
    ensures var f, t := s.flows[id], BackfillAll(s, work).value.state;
            && id in t.flows && t.flows[id] == f.(domain := t.flows[id].domain)
            && (t.flows[id].domain != f.domain ==>
                  exists i :: 0 <= i < |work| && Reaches(work[i].binding, f)
                      && t.flows[id].domain == Some(work[i].binding.attribution))
            && (IsReached(work, f) ==> t.flows[id].domain.Some?)
            && (forall i :: 0 <= i < |work| && Reaches(work[i].binding, f) ==>
                  t.flows[id].domain.Some? && Prevails(t.flows[id].domain.value, work[i].binding.attribution))
  {
    var f, t := s.flows[id], BackfillAll(s, work).value.state;
    var known := if f.domain.Some? then [f.domain.value] else [];
    var told := known + HeardInWork(Some(f), work);
    BackfillAllTouchesOnlyDomains(s, work);
    assert f.(domain := None) == t.flows[id].(domain := None);
    assert Explains(known, f.domain) by {
      assert f.domain.Some? ==> LastGreatestAt(known, 0);
    }
    BackfillAllExplains(s, work, id, known);
    if t.flows[id].domain.Some? {
      HeardFromReaching(f, work, t.flows[id].domain.value);
    }
    forall i | 0 <= i < |work| && Reaches(work[i].binding, f)
      ensures t.flows[id].domain.Some? && Prevails(t.flows[id].domain.value, work[i].binding.attribution)
    {
      var a := work[i].binding.attribution;
      HeardFromReaching(f, work, a);
      assert a in told;
      ToldIsBelow(told, t.flows[id].domain, a);
    }
  }

  lemma ToldIsBelow(told: seq<Attribution>, stored: Option<Attribution>, a: Attribution)
    requires Explains(told, stored) && a in told
    ensures stored.Some? && Prevails(stored.value, a)
  {}

  // ----- the count -----

  /** One row: counted exactly when its attribution changes, and no other row's does. */
  lemma RowCounts(s: State, b: Binding, id: FlowId)
    requires BackfillFlow(s, b, id).Ok? && id in s.flows
    ensures var r := BackfillFlow(s, b, id).value;
            && r.state.flows.Keys == s.flows.Keys
            && Changed(s, r.state) == (if r.updated == 1 then {id} else {}) && r.updated <= 1
            && forall j :: j in s.flows && j != id ==> r.state.flows[j] == s.flows[j]
  {}

  lemma ChangedAdds(s: State, n: State, t: State)
    requires s.flows.Keys == n.flows.Keys == t.flows.Keys
    requires Changed(s, n) !! Changed(n, t)
    ensures |Changed(s, t)| == |Changed(s, n)| + |Changed(n, t)|
  {
    assert Changed(s, t) == Changed(s, n) + Changed(n, t);
  }

  lemma {:induction false} RowsCount(s: State, b: Binding, rows: seq<FlowId>)
    requires BackfillRows(s, b, rows).Ok? && Distinct(rows) && (forall id :: id in rows ==> id in s.flows)
    ensures var r := BackfillRows(s, b, rows).value; r.updated == |Changed(s, r.state)|
    decreases |rows|
  {
    if rows == [] {
      assert Changed(s, s) == {};
    } else {
      var next, rest := BackfillFlow(s, b, rows[0]).value.state, rows[1..];
      RowCounts(s, b, rows[0]);
      RowsCount(next, b, rest);
      BackfillRowsDomains(next, b, rest);
      assert rows[0] !in rest;
      ChangedAdds(s, next, BackfillRows(s, b, rows).value.state);
    }
  }

  /** With one binding per device and address, as a drained batch has, the count is the number of flows changed. */
  lemma {:induction false} BackfillCounts(s: State, work: seq<Work>)
    requires BackfillAll(s, work).Ok? && FaithfulWork(s, work) && DistinctTargets(work)
    ensures var r := BackfillAll(s, work).value; r.updated == |Changed(s, r.state)|
    decreases |work|
  {
    if work == [] {
      assert Changed(s, s) == {};
    } else {
      var w, rest := work[0], work[1..];
      var first := BackfillRows(s, w.binding, w.rows).value;
      var next, last := first.state, BackfillAll(s, work).value.state;
      assert Enumerates(w.rows, Matching(s, w.binding));
      RowsCount(s, w.binding, w.rows);
      BackfillRowsDomains(s, w.binding, w.rows);
      BackfillRowsTouchOnlyDomains(s, w.binding, w.rows);
      SameRowsFaithful(s, next, work);
      assert FaithfulWork(next, rest);
      BackfillCounts(next, rest);
      BackfillAllTouchesOnlyDomains(next, rest);
      forall id | id in Changed(s, next) ensures id !in Changed(next, last) {
        OthersAreNotReached(s, next, work, id);
      }
      ChangedAdds(s, next, last);
    }
  }

  /** A flow that the first binding reaches is not reached by the rest. */
  lemma OthersAreNotReached(s: State, next: State, work: seq<Work>, id: FlowId)
    requires work != [] && DistinctTargets(work) && SameRows(s, next) && id in s.flows
    requires Matches(work[0].binding, s.flows[id])
    requires FaithfulWork(next, work[1..]) && BackfillAll(next, work[1..]).Ok?
    ensures id in BackfillAll(next, work[1..]).value.state.flows
    ensures BackfillAll(next, work[1..]).value.state.flows[id].domain == next.flows[id].domain
  {
    var rest := work[1..];
    assert s.flows[id].(domain := None) == next.flows[id].(domain := None);
    forall i | 0 <= i < |rest| ensures !Reaches(rest[i].binding, next.flows[id]) {
      assert !SameTarget(work[0].binding, work[i + 1].binding);
      assert rest[i] == work[i + 1];
    }
    BackfillReaches(next, rest, id);
  }

  // ----- what a transaction promises its caller -----

  /** No two bindings are about the same device and address. */
  ghost predicate DistinctlyAimed(bindings: seq<Binding>) {
    forall i, j :: 0 <= i < j < |bindings| ==> !SameTarget(bindings[i], bindings[j])
  }

  /**
   * Only the attributions of flows that some binding reaches change, each to the attribution of a binding that
   * reaches it, and no flow ends with less than any binding that reaches it says.
   */
  ghost predicate TellsExactly(before: State, after: State, bindings: seq<Binding>) {
    && after.flows.Keys == before.flows.Keys
    && forall id :: id in before.flows ==> TellsRow(before.flows[id], after.flows[id], bindings)
  }

  ghost predicate TellsRow(was: Flow, now: Flow, bindings: seq<Binding>) {
    && now == was.(domain := now.domain)
    && (now.domain != was.domain ==>
          exists i :: 0 <= i < |bindings| && Reaches(bindings[i], was) && now.domain == Some(bindings[i].attribution))
    && forall i :: 0 <= i < |bindings| && Reaches(bindings[i], was) ==>
         now.domain.Some? && Prevails(now.domain.value, bindings[i].attribution)
  }

  lemma TransactionTells(s: State, work: seq<Work>, bindings: seq<Binding>)
    requires BackfillAll(s, work).Ok? && FaithfulWork(s, work) && Carries(work, bindings)
    ensures TellsExactly(s, BackfillAll(s, work).value.state, bindings)
    ensures DistinctlyAimed(bindings) ==>
              BackfillAll(s, work).value.updated == |Changed(s, BackfillAll(s, work).value.state)|
  {
    var t := BackfillAll(s, work).value.state;
    BackfillAllTouchesOnlyDomains(s, work);
    forall id | id in s.flows ensures TellsRow(s.flows[id], t.flows[id], bindings) {
      BackfillReaches(s, work, id);
    }
    if DistinctlyAimed(bindings) {
      BackfillCounts(s, work);
    }
  }
}
