/** Totals of the contribution table by domain minute, device minute or flow, and how one row changes them. */
module Totals {
  import opened Domain
  import opened Sums
  import opened Ledger

  datatype Selector = ByDomain(domainMinute: DomainMinute) | ByDevice(deviceMinute: DeviceMinute) | ByFlow(id: FlowId)

  predicate Selected(sel: Selector, k: SliceKey, s: Slice) {
    match sel
    case ByDomain(key) => s.mac == key.mac && k.minute == key.minute && DomainOf(s) == Some(key.domain)
    case ByDevice(key) => s.mac == key.mac && k.minute == key.minute
    case ByFlow(id) => k.flow == id
  }

  /** Bytes of one direction, slice by slice. */
  function Part(slices: Slices, sel: Selector, lane: Lane): map<SliceKey, nat> {
    map k | k in slices && Selected(sel, k, slices[k]) :: slices[k].bytes.In(lane)
  }

  ghost function Total(slices: Slices, sel: Selector, lane: Lane): nat { Sum(Part(slices, sel, lane)) }

  /** What the slice at `k` adds to the total. */
  function Share(slices: Slices, sel: Selector, lane: Lane, k: SliceKey): nat {
    if k in slices && Selected(sel, k, slices[k]) then slices[k].bytes.In(lane) else 0
  }

  predicate SameShare(a: Slices, b: Slices, sel: Selector, k: SliceKey) {
    && ((k in a && Selected(sel, k, a[k])) <==> (k in b && Selected(sel, k, b[k])))
    && (k in a && k in b && Selected(sel, k, a[k]) ==> a[k].bytes == b[k].bytes)
  }

  lemma TotalsAgree(a: Slices, b: Slices, sel: Selector, lane: Lane)
    requires forall k :: SameShare(a, b, sel, k)
    ensures Total(a, sel, lane) == Total(b, sel, lane)
  {
    var pa, pb := Part(a, sel, lane), Part(b, sel, lane);
    assert pa == pb by {
      forall k
        ensures k in pa <==> k in pb
        ensures k in pa ==> pa[k] == pb[k]
      {
        assert SameShare(a, b, sel, k);
      }
    }
  }

  lemma TotalsDifferAt(a: Slices, b: Slices, sel: Selector, lane: Lane, k: SliceKey)
    requires forall j :: j != k ==> SameShare(a, b, sel, j)
    ensures Total(a, sel, lane) + Share(b, sel, lane, k) == Total(b, sel, lane) + Share(a, sel, lane, k)
  {
    var pa, pb := Part(a, sel, lane), Part(b, sel, lane);
    assert pa - {k} == pb - {k} by {
      forall j | j != k
        ensures j in pa <==> j in pb
        ensures j in pa ==> pa[j] == pb[j]
      {
        assert SameShare(a, b, sel, j);
      }
    }
    SumsDifferAt(pa, pb, k);
    assert At(pa, k) == Share(a, sel, lane, k) && At(pb, k) == Share(b, sel, lane, k);
  }

  lemma ShareWithinTotal(slices: Slices, sel: Selector, lane: Lane, k: SliceKey)
    ensures Share(slices, sel, lane, k) <= Total(slices, sel, lane)
  {
    if k in Part(slices, sel, lane) {
      EntryWithinSum(Part(slices, sel, lane), k);
    }
  }

  lemma NothingSelected(slices: Slices, sel: Selector, lane: Lane)
    requires forall k :: k in slices ==> !Selected(sel, k, slices[k])
    ensures Total(slices, sel, lane) == 0
  {}

  lemma FewerSlices(part: Slices, slices: Slices, sel: Selector, lane: Lane)
    requires forall k :: k in part ==> k in slices && part[k] == slices[k]
    ensures Total(part, sel, lane) <= Total(slices, sel, lane)
  {
    SumOfPart(Part(part, sel, lane), Part(slices, sel, lane));
  }

  // ----- how the ledger's primitives move totals -----

  /** What a new charge of `b` bytes adds to a total. */
  function Gain(sel: Selector, lane: Lane, key: SliceKey, s: Slice): nat {
    if Selected(sel, key, s) then s.bytes.In(lane) else 0
  }

  lemma TotalAfterSlice(slices: Slices, key: SliceKey, mac: Mac, b: Bytes, a: Option<Attribution>, sel: Selector,
      lane: Lane)
    requires key in slices ==> slices[key].mac == mac && slices[key].attribution == a
    ensures Total(WithSlice(slices, key, mac, b, a), sel, lane)
         == Total(slices, sel, lane) + Gain(sel, lane, key, Slice(mac, b, a))
  {
    var next := WithSlice(slices, key, mac, b, a);
    forall j | j != key ensures SameShare(slices, next, sel, j) {}
    TotalsDifferAt(slices, next, sel, lane, key);
  }

  /** The baseline slice carries no attribution: no domain total moves. */
  lemma BaselineKeepsDomainTotals(slices: Slices, id: FlowId, mac: Mac, row: Flow, key: DomainMinute, lane: Lane)
    ensures Total(WithBaseline(slices, id, mac, row), ByDomain(key), lane) == Total(slices, ByDomain(key), lane)
  {
    TotalsAgree(WithBaseline(slices, id, mac, row), slices, ByDomain(key), lane);
  }

  lemma RelabelKeepsTotals(slices: Slices, id: FlowId, a: Attribution, sel: Selector, lane: Lane)
    requires !sel.ByDomain?
    ensures Total(Relabelled(slices, id, a), sel, lane) == Total(slices, sel, lane)
  {
    TotalsAgree(Relabelled(slices, id, a), slices, sel, lane);
  }

  /** In one minute, relabelling moves exactly the flow's own slice from its old domain to the new one. */
  lemma RelabelMovesShare(slices: Slices, id: FlowId, a: Attribution, key: DomainMinute, lane: Lane)
    ensures var next, k, sel := Relabelled(slices, id, a), SliceKey(id, key.minute), ByDomain(key);
            Total(next, sel, lane) + Share(slices, sel, lane, k) == Total(slices, sel, lane) + Share(next, sel, lane, k)
  {
    var next, k, sel := Relabelled(slices, id, a), SliceKey(id, key.minute), ByDomain(key);
    forall j | j != k ensures SameShare(slices, next, sel, j) {}
    TotalsDifferAt(slices, next, sel, lane, k);
  }
}
