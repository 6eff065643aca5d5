/** The conntrack tuple index of src/conntrack.rs, against a scan of the whole table. */
module Conntrack {
  import opened Domain

  datatype Tuple = Tuple(protocol: nat, sourceIp: nat, sourcePort: nat, destinationIp: nat, destinationPort: nat)

  /** The translated client-to-server endpoints. */
  datatype NatMapping = NatMapping(sourceIp: nat, sourcePort: nat, destinationIp: nat, destinationPort: nat)

  datatype ConntrackEntry = ConntrackEntry(original: Tuple, reply: Tuple, state: ConnectionState) {
    /** None when the reply is the reverse of the original. */
    function Mapping(): Option<NatMapping> {
      if original.sourceIp == reply.destinationIp && original.sourcePort == reply.destinationPort &&
         original.destinationIp == reply.sourceIp && original.destinationPort == reply.sourcePort
      then None
      else Some(NatMapping(reply.destinationIp, reply.destinationPort, reply.sourceIp, reply.sourcePort))
    }

    predicate Mentions(t: Tuple) { original == t || reply == t }
  }

  datatype Association = Matched(entry: ConntrackEntry) | Unmatched | Ambiguous

  datatype Snapshot = Snapshot(entries: seq<ConntrackEntry>, index: map<Tuple, seq<nat>>)

  /** The tuple a flow stands for, if it is TCP or UDP over IPv4. */
  function FromFlow(f: Flow): Option<Tuple> {
    var e := f.endpoints;
    if e.protocol.OtherProtocol? || !e.clientIp.V4? || !e.destinationIp.V4? then None
    else Some(Tuple(if e.protocol == Tcp then 6 else 17, e.clientIp.bits, e.clientPort, e.destinationIp.bits,
        e.destinationPort))
  }

  /** The index lists, under each tuple, exactly the entries with that tuple on either side. */
  ghost predicate Indexes(index: map<Tuple, seq<nat>>, entries: seq<ConntrackEntry>) {
    && (forall t, i: nat :: Lists(index, t, i) <==> i < |entries| && entries[i].Mentions(t))
    && (forall t :: t in index ==> index[t] != [])
  }

  predicate Lists(index: map<Tuple, seq<nat>>, t: Tuple, i: nat) { t in index && i in index[t] }

  /** `entry(t).or_default().push(i)` */
  function Pushed(index: map<Tuple, seq<nat>>, t: Tuple, i: nat): map<Tuple, seq<nat>> {
    index[t := (if t in index then index[t] else []) + [i]]
  }

  method FromEntries(entries: seq<ConntrackEntry>) returns (snapshot: Snapshot)
    ensures snapshot.entries == entries && Indexes(snapshot.index, entries)
  {
    var index: map<Tuple, seq<nat>> := map[];
    for i := 0 to |entries|
      invariant Indexes(index, entries[..i])
    {
      ghost var before := index;
      index := Pushed(index, entries[i].original, i);
      index := Pushed(index, entries[i].reply, i);
      assert forall t, j: nat :: Lists(index, t, j) <==> Lists(before, t, j) || (j == i && entries[i].Mentions(t));
      assert entries[..i + 1] == entries[..i] + [entries[i]];
    }
    assert entries[..|entries|] == entries;
    snapshot := Snapshot(entries, index);
  }

  function Associate(snapshot: Snapshot, f: Flow): Association
    requires Indexes(snapshot.index, snapshot.entries)
  {
    var tuple := FromFlow(f);
    if tuple.None? || tuple.value !in snapshot.index then Unmatched
    else
      var candidates := snapshot.index[tuple.value];
      var unique := set i | i in candidates;
      assert Lists(snapshot.index, tuple.value, candidates[0]);
      if |unique| != 1 then Ambiguous else Matched(snapshot.entries[candidates[0]])
  }

  /** The tuple has the flow's protocol, addresses and ports, from client to destination. */
  predicate Describes(t: Tuple, f: Flow) {
    && ((f.endpoints.protocol == Tcp && t.protocol == 6) || (f.endpoints.protocol == Udp && t.protocol == 17))
    && f.endpoints.clientIp == V4(t.sourceIp) && f.endpoints.clientPort == t.sourcePort
    && f.endpoints.destinationIp == V4(t.destinationIp) && f.endpoints.destinationPort == t.destinationPort
  }

  /** The positions a scan of the table finds for a flow. An entry counts once, whichever side describes the flow. */
  ghost function Scan(entries: seq<ConntrackEntry>, f: Flow): set<nat> {
    set i: nat | i < |entries| && (Describes(entries[i].original, f) || Describes(entries[i].reply, f))
  }

  lemma TupleDescribes(f: Flow, t: Tuple)
    ensures FromFlow(f) == Some(t) <==> Describes(t, f)
  {}

  lemma ScanMentions(entries: seq<ConntrackEntry>, f: Flow, i: nat)
    ensures i in Scan(entries, f) <==> FromFlow(f).Some? && i < |entries| && entries[i].Mentions(FromFlow(f).value)
  {}

  lemma IndexFindsScan(snapshot: Snapshot, f: Flow)
    requires Indexes(snapshot.index, snapshot.entries) && FromFlow(f).Some?
    ensures var t := FromFlow(f).value;
            && (t !in snapshot.index ==> Scan(snapshot.entries, f) == {})
            && (t in snapshot.index ==> Scan(snapshot.entries, f) == set i | i in snapshot.index[t])
            && (t in snapshot.index ==> snapshot.index[t][0] in Scan(snapshot.entries, f))
  {
    var t := FromFlow(f).value;
    forall i: nat ensures i in Scan(snapshot.entries, f) <==> Lists(snapshot.index, t, i) {
      ScanMentions(snapshot.entries, f, i);
    }
    if t in snapshot.index {
      assert Lists(snapshot.index, t, snapshot.index[t][0]);
    }
  }

  /** The answer depends on what the scan finds: nothing, one entry, or more. */
  lemma AssociateByCount(snapshot: Snapshot, f: Flow)
    requires Indexes(snapshot.index, snapshot.entries)
    ensures var found := Scan(snapshot.entries, f);
            && (|found| == 0 ==> Associate(snapshot, f) == Unmatched)
            && (|found| == 1 ==> exists i :: found == {i} && Associate(snapshot, f) == Matched(snapshot.entries[i]))
            && (|found| > 1 ==> Associate(snapshot, f) == Ambiguous)
  {
    forall i: nat ensures i in Scan(snapshot.entries, f) ==> FromFlow(f).Some? {
      ScanMentions(snapshot.entries, f, i);
    }
    if FromFlow(f).Some? {
      IndexFindsScan(snapshot, f);
      var t := FromFlow(f).value;
      if t in snapshot.index {
        OneOrTwo(Scan(snapshot.entries, f), snapshot.index[t][0]);
      }
    }
  }

  ghost predicate FindsTwo(found: set<nat>) { exists i, j :: i in found && j in found && i != j }

  /** The index finds what a scan of the whole table finds, whatever the table. */
  lemma AssociateAgreesWithScan(snapshot: Snapshot, f: Flow)
    requires Indexes(snapshot.index, snapshot.entries)
    ensures var found, answer := Scan(snapshot.entries, f), Associate(snapshot, f);
            && (answer == Unmatched <==> found == {})
            && (answer == Ambiguous <==> FindsTwo(found))
            && (answer.Matched? <==> exists i :: found == {i})
            && (forall i: nat :: found == {i} ==> answer == Matched(snapshot.entries[i]))
  {
    var found := Scan(snapshot.entries, f);
    AssociateByCount(snapshot, f);
    if found != {} {
      var i :| i in found;
      OneOrTwo(found, i);
    }
  }

  lemma OneOrTwo(s: set<nat>, i: nat)
    requires i in s
    ensures |s| == 1 <==> s == {i}
    ensures |s| != 1 <==> exists j :: j in s && j != i
  {
    if s != {i} {
      var j :| j in s && j != i;
      assert {i, j} <= s;
      assert |s| == |s - {i, j}| + |{i, j}|;
    }
  }

  // ----- translation -----

  function Reverse(t: Tuple): Tuple { Tuple(t.protocol, t.destinationIp, t.destinationPort, t.sourceIp, t.sourcePort) }

  /** The tuple seen on the WAN side. */
  function Translated(t: Tuple, m: Option<NatMapping>): Tuple {
    match m
    case None => t
    case Some(n) => Tuple(t.protocol, n.sourceIp, n.sourcePort, n.destinationIp, n.destinationPort)
  }

  /** The mapping explains the reply, and there is one only when something was translated. */
  lemma MappingExplainsReply(e: ConntrackEntry)
    requires e.original.protocol == e.reply.protocol
    ensures e.reply == Reverse(Translated(e.original, e.Mapping()))
    ensures e.Mapping().None? <==> Translated(e.original, e.Mapping()) == e.original
  {}

  /** Enrichment of a collected flow (src/collector.rs:242-252). */
  function Enriched(snapshot: Snapshot, f: Flow): Flow
    requires Indexes(snapshot.index, snapshot.entries)
  {
    var a := Associate(snapshot, f);
    if !a.Matched? then f
    else
      var m := a.entry.Mapping();
      f.(state := a.entry.state,
         translation :=
           if m.None? then f.translation
           else NatFields(Some(V4(m.value.sourceIp)), Some(m.value.sourcePort), Some(V4(m.value.destinationIp)),
               Some(m.value.destinationPort)))
  }

  /** The reply goes back exactly where the original came from. */
  predicate Returns(e: ConntrackEntry) {
    && e.reply.sourceIp == e.original.destinationIp && e.reply.sourcePort == e.original.destinationPort
    && e.reply.destinationIp == e.original.sourceIp && e.reply.destinationPort == e.original.sourcePort
  }

  /**
   * A flow with one entry takes that entry's state and, if the entry is translated, the reply's destination as its
   * translated source and the reply's source as its translated destination.
   */
  lemma EnrichmentFollowsEntry(snapshot: Snapshot, f: Flow, i: nat)
    requires Indexes(snapshot.index, snapshot.entries) && Scan(snapshot.entries, f) == {i}
    ensures i < |snapshot.entries|
    ensures var e, n := snapshot.entries[i], Enriched(snapshot, f).translation;
            && Enriched(snapshot, f).state == e.state
            && if Returns(e) then n == f.translation
               else
                 && n.sourceIp == Some(V4(e.reply.destinationIp)) && n.sourcePort == Some(e.reply.destinationPort)
                 && n.destinationIp == Some(V4(e.reply.sourceIp)) && n.destinationPort == Some(e.reply.sourcePort)
  {
    assert i in Scan(snapshot.entries, f);
    AssociateAgreesWithScan(snapshot, f);
  }

  /**
   * Enrichment keeps a flow valid and its identity, endpoints and bytes as they were; without a sole entry it does
   * nothing.
   */
  lemma EnrichmentIsSafe(snapshot: Snapshot, f: Flow)
    requires Indexes(snapshot.index, snapshot.entries)
    ensures ValidFlow(f) ==> ValidFlow(Enriched(snapshot, f))
    ensures Enriched(snapshot, f).(state := f.state, translation := f.translation) == f
    ensures |Scan(snapshot.entries, f)| != 1 ==> Enriched(snapshot, f) == f
  {
    AssociateByCount(snapshot, f);
  }
}
