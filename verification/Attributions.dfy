/** Which attribution a flow keeps when it is told several (src/storage.rs:470-531). */
module Attributions {
  import opened Domain

  function ConfidenceRank(c: Confidence): nat {
    match c
    case High => 2
    case Low => 1
    case UnknownConfidence => 0
  }

  function SourceRank(s: Source): nat {
    match s
    case Dns => 2
    case Sni => 1
    case UnknownSource => 0
  }

  /** An incoming attribution wins on rank, and on equal rank when it is not older. */
  function Effective(stored: Option<Attribution>, incoming: Option<Attribution>): Option<Attribution> {
    match (stored, incoming)
    case (None, _) => incoming
    case (_, None) => stored
    case (Some(s), Some(i)) =>
      var sc, ic := ConfidenceRank(s.confidence), ConfidenceRank(i.confidence);
      var ss, si := SourceRank(s.source), SourceRank(i.source);
      if ic > sc || (ic == sc && si > ss) || (ic == sc && si == ss && i.associatedAt >= s.associatedAt)
      then incoming
      else stored
  }

  /** Lexicographic order on (confidence, source, association time). */
  predicate NotAbove(a: Attribution, b: Attribution) {
    var ac, bc := ConfidenceRank(a.confidence), ConfidenceRank(b.confidence);
    var sa, sb := SourceRank(a.source), SourceRank(b.source);
    ac < bc || (ac == bc && (sa < sb || (sa == sb && a.associatedAt <= b.associatedAt)))
  }

  /** More certain, or as certain and from a better source, or no older than the like. */
  predicate Prevails(a: Attribution, b: Attribution) {
    || (a.confidence == High && b.confidence != High)
    || (a.confidence == Low && b.confidence == UnknownConfidence)
    || (a.confidence == b.confidence
        && (|| (a.source == Dns && b.source != Dns)
            || (a.source == Sni && b.source == UnknownSource)
            || (a.source == b.source && a.associatedAt >= b.associatedAt)))
  }

  /** What is told replaces what is stored exactly when it prevails over it; nothing replaces something by nothing. */
  lemma EffectivePrevails(stored: Attribution, incoming: Attribution)
    ensures Effective(Some(stored), Some(incoming)) == Some(if Prevails(incoming, stored) then incoming else stored)
    ensures Effective(None, Some(incoming)) == Some(incoming) && Effective(Some(stored), None) == Some(stored)
    ensures NotAbove(stored, incoming) <==> Prevails(incoming, stored)
  {}

  lemma EffectiveAssociative(a: Option<Attribution>, b: Option<Attribution>, c: Option<Attribution>)
    ensures Effective(Effective(a, b), c) == Effective(a, Effective(b, c))
  {}

  lemma EffectiveAbsorbs(a: Option<Attribution>, b: Option<Attribution>)
    ensures Effective(Effective(a, b), b) == Effective(a, b)
    ensures Effective(a, a) == a
  {}

  /** `a` is the last of the presented attributions that nothing presented exceeds. */
  ghost predicate LastGreatest(presented: seq<Attribution>, a: Attribution) {
    exists i :: 0 <= i < |presented| && LastGreatestAt(presented, i) && presented[i] == a
  }

  ghost predicate LastGreatestAt(presented: seq<Attribution>, i: nat)
    requires i < |presented|
  {
    && (forall j :: 0 <= j < |presented| ==> NotAbove(presented[j], presented[i]))
    && (forall j :: i < j < |presented| ==> !NotAbove(presented[i], presented[j]))
  }

  /** What a column holds after a history of presented attributions: nothing, or the last greatest one. */
  ghost predicate Explains(presented: seq<Attribution>, stored: Option<Attribution>) {
    match stored
    case None => presented == []
    case Some(a) => LastGreatest(presented, a)
  }

  lemma EffectiveExplains(presented: seq<Attribution>, stored: Option<Attribution>, incoming: Attribution)
    requires Explains(presented, stored)
    ensures Explains(presented + [incoming], Effective(stored, Some(incoming)))
    ensures Effective(stored, Some(incoming)).Some?
    ensures stored.Some? ==> NotAbove(stored.value, Effective(stored, Some(incoming)).value)
  {
    var all := presented + [incoming];
    var last := |presented|;
    if stored.None? || NotAbove(stored.value, incoming) {
      assert LastGreatestAt(all, last);
    } else {
      var i :| 0 <= i < |presented| && LastGreatestAt(presented, i) && presented[i] == stored.value;
      assert all[i] == stored.value;
      assert LastGreatestAt(all, i);
    }
  }

  /**
   * Of all that was told: one of the highest confidence, among those one of the best source, among those one of the
   * latest, and among equals the last.
   */
  ghost predicate MostCertain(told: seq<Attribution>, a: Attribution) {
    && a in told
    && (a.confidence == High <==> exists x :: x in told && x.confidence == High)
    && (a.confidence == Low <==>
          (exists x :: x in told && x.confidence == Low) && forall x :: x in told ==> x.confidence != High)
    && var peers := set x | x in told && x.confidence == a.confidence;
      && (a.source == Dns <==> exists x :: x in peers && x.source == Dns)
      && (a.source == Sni <==>
            (exists x :: x in peers && x.source == Sni) && forall x :: x in peers ==> x.source != Dns)
      && (forall x :: x in peers && x.source == a.source ==> x.associatedAt <= a.associatedAt)
      && exists i :: 0 <= i < |told| && told[i] == a && forall j :: i < j < |told| ==>
             !(told[j] in peers && told[j].source == a.source && told[j].associatedAt == a.associatedAt)
  }

  lemma LastGreatestIsMostCertain(told: seq<Attribution>, a: Attribution)
    requires LastGreatest(told, a)
    ensures MostCertain(told, a)
  {
    var i :| 0 <= i < |told| && LastGreatestAt(told, i) && told[i] == a;
    forall x | x in told ensures NotAbove(x, a) {
      var j :| 0 <= j < |told| && told[j] == x;
      assert NotAbove(told[j], told[i]);
    }
    forall j | i < j < |told| ensures !NotAbove(a, told[j]) {
      assert !NotAbove(told[i], told[j]);
    }
  }

  /** The last greatest attribution of a history is unique. */
  lemma LastGreatestIsUnique(presented: seq<Attribution>, a: Attribution, b: Attribution)
    requires LastGreatest(presented, a) && LastGreatest(presented, b)
    ensures a == b
  {}
}
