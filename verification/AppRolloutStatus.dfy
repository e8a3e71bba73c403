/** The status of an AppRollout: counts over the assignments that were listed, and two conditions. */
module AppRolloutStatus {
  import opened Wrappers
  import opened Release
  import opened ChartAssignments
  import SetNames

  /** A listed assignment; a new one has no phase. */
  datatype Listed = Listed(name: string, phase: Option<Phase>)

  datatype RolloutStatus = RolloutStatus(observed: nat, assignments: nat, settled: nat, ready: nat, failed: nat,
                                         conditions: seq<Condition>)

  predicate IsReady(c: Listed) { c.phase == Some(Ready) }
  predicate IsSettled(c: Listed) { c.phase == Some(Ready) || c.phase == Some(Settled) }
  predicate IsFailed(c: Listed) { c.phase == Some(Failed) }

  function Count(listing: seq<Listed>, p: Listed -> bool): (n: nat)
    ensures n <= |listing|
  {
    if listing == [] then 0
    else Count(listing[..|listing| - 1], p) + (if p(listing[|listing| - 1]) then 1 else 0)
  }

  function Ratio(got: nat, want: nat, what: string): string {
    if got == want then "" else SetNames.Decimal(got) + "/" + SetNames.Decimal(want) + " ChartAssignments " + what
  }

  /** setStatus. Its setCondition is that of ChartAssignments, on the conditions of a rollout. */
  function NewRolloutStatus(old_: RolloutStatus, generation: nat, wanted: nat, listing: seq<Listed>,
                            now: int): RolloutStatus {
    var settled, ready := Count(listing, IsSettled), Count(listing, IsReady);
    var first := WithCondition(old_.conditions, SETTLED, settled == wanted, Ratio(settled, wanted, "settled"), now);
    RolloutStatus(generation, wanted, settled, ready, Count(listing, IsFailed),
                  WithCondition(first, READY, ready == wanted, Ratio(ready, wanted, "ready"), now))
  }

  class RolloutObject {
    var generation: nat
    var status: RolloutStatus

    /** The counts are set to zero at the start of a reconcile. */
    method Begin()
      modifies this`status
      ensures status == RolloutStatus(generation, 0, 0, 0, 0, old(status).conditions)
    {
      status := status.(observed := generation);
      status := status.(assignments := 0);
      status := status.(settled := 0);
      status := status.(ready := 0);
      status := status.(failed := 0);
    }

    method SetStatus(wanted: nat, listing: seq<Listed>, now: int)
      requires status == RolloutStatus(generation, 0, 0, 0, 0, status.conditions)
      modifies this`status
      ensures status == NewRolloutStatus(old(status), generation, wanted, listing, now)
    {
      status := status.(assignments := wanted);
      for i := 0 to |listing|
        invariant status == RolloutStatus(generation, wanted, Count(listing[..i], IsSettled),
                                          Count(listing[..i], IsReady),
                                          Count(listing[..i], IsFailed), old(status).conditions)
      {
        assert listing[..i + 1][..i] == listing[..i];
        match listing[i].phase
        case Some(Ready) =>
          status := status.(ready := status.ready + 1);
          status := status.(settled := status.settled + 1);
        case Some(Settled) => status := status.(settled := status.settled + 1);
        case Some(Failed) => status := status.(failed := status.failed + 1);
        case _ =>
      }
      assert listing[..|listing|] == listing;
      status := status.(conditions := WithCondition(
        status.conditions, SETTLED, status.settled == status.assignments,
        Ratio(status.settled, status.assignments, "settled"), now));
      status := status.(conditions := WithCondition(
        status.conditions, READY, status.ready == status.assignments,
        Ratio(status.ready, status.assignments, "ready"), now));
    }

    /** updateErrorStatus, for a missing app and for overlapping selectors. */
    method UpdateErrorStatus(message: string, now: int)
      modifies this`status
      ensures status == old(status).(conditions := WithCondition(old(status).conditions, SETTLED, false, message, now))
    {
      status := status.(conditions := WithCondition(status.conditions, SETTLED, false, message, now));
    }
  }

  lemma {:induction false} CountsAreOrdered(listing: seq<Listed>)
    ensures Count(listing, IsReady) <= Count(listing, IsSettled)
    ensures Count(listing, IsSettled) + Count(listing, IsFailed) <= |listing|
  {
    if listing != [] {
      CountsAreOrdered(listing[..|listing| - 1]);
    }
  }

  lemma {:induction false} CountIsAll(listing: seq<Listed>, p: Listed -> bool)
    ensures Count(listing, p) == |listing| <==> forall c :: c in listing ==> p(c)
  {
    if listing != [] {
      var front, last := listing[..|listing| - 1], listing[|listing| - 1];
      CountIsAll(front, p);
      assert listing == front + [last] && last in listing;
    }
  }

  /** The conditions speak of the listed assignments: Settled is true exactly if as many of them are settled as
      assignments are wanted, and Ready likewise. The counts are consistent with each other. */
  lemma ConditionsCount(old_: RolloutStatus, generation: nat, wanted: nat, listing: seq<Listed>, now: int)
    requires OnePerKind(old_.conditions)
    ensures
      var s := NewRolloutStatus(old_, generation, wanted, listing, now);
      && OnePerKind(s.conditions)
      && s.ready <= s.settled && s.settled + s.failed <= |listing|
      && (Has(s.conditions, SETTLED, true) <==> s.settled == wanted)
      && (Has(s.conditions, READY, true) <==> s.ready == wanted)
  {
    hide WithCondition, OnePerKind, Has, Ratio;
    CountsAreOrdered(listing);
    var settled, ready := Count(listing, IsSettled), Count(listing, IsReady);
    var first := WithCondition(old_.conditions, SETTLED, settled == wanted, Ratio(settled, wanted, "settled"), now);
    SetOnce(old_.conditions, SETTLED, settled == wanted, Ratio(settled, wanted, "settled"), now, SETTLED, true);
    SetOnce(first, READY, ready == wanted, Ratio(ready, wanted, "ready"), now, READY, true);
    SetOnce(first, READY, ready == wanted, Ratio(ready, wanted, "ready"), now, SETTLED, true);
  }

  /** When as many assignments are listed as wanted, the conditions say that all listed ones are settled, or ready, and
      Ready implies Settled. Whether the listed ones are the wanted ones is another matter. */
  lemma ConvergedConditions(old_: RolloutStatus, generation: nat, listing: seq<Listed>, now: int)
    requires OnePerKind(old_.conditions)
    ensures
      var s := NewRolloutStatus(old_, generation, |listing|, listing, now);
      && (Has(s.conditions, SETTLED, true) <==> forall c :: c in listing ==> IsSettled(c))
      && (Has(s.conditions, READY, true) <==> forall c :: c in listing ==> IsReady(c))
      && (Has(s.conditions, READY, true) ==> Has(s.conditions, SETTLED, true))
  {
    ConditionsCount(old_, generation, |listing|, listing, now);
    hide WithCondition, OnePerKind, Has, Ratio;
    CountIsAll(listing, IsSettled);
    CountIsAll(listing, IsReady);
  }

  // ----- The wanted assignments -----

  ghost predicate DistinctNames(listing: seq<Listed>) {
    forall i, j :: 0 <= i < j < |listing| ==> listing[i].name != listing[j].name
  }

  /** How many of the listed assignments have the property and a wanted name, or have it and another name. */
  function CountWanted(listing: seq<Listed>, p: Listed -> bool, wanted: set<string>, inside: bool): nat {
    if listing == [] then 0
    else
      var last := listing[|listing| - 1];
      CountWanted(listing[..|listing| - 1], p, wanted, inside)
      + (if p(last) && (last.name in wanted) == inside then 1 else 0)
  }

  lemma {:induction false} CountSplits(listing: seq<Listed>, p: Listed -> bool, wanted: set<string>)
    ensures Count(listing, p) == CountWanted(listing, p, wanted, true) + CountWanted(listing, p, wanted, false)
  {
    if listing != [] {
      CountSplits(listing[..|listing| - 1], p, wanted);
    }
  }

  ghost function NamesWith(listing: seq<Listed>, p: Listed -> bool): set<string> {
    set c | c in listing && p(c) :: c.name
  }

  lemma NamesSnoc(front: seq<Listed>, last: Listed, p: Listed -> bool)
    requires DistinctNames(front + [last])
    ensures NamesWith(front + [last], p) == NamesWith(front, p) + (if p(last) then {last.name} else {})
    ensures DistinctNames(front) && last.name !in NamesWith(front, p)
  {
    var listing := front + [last];
    forall i, j | 0 <= i < j < |front| ensures front[i].name != front[j].name {
      assert listing[i] == front[i] && listing[j] == front[j];
    }
    forall c | c in front ensures c.name != last.name {
      var i :| 0 <= i < |front| && front[i] == c;
      assert listing[i] == c && listing[|front|] == last;
    }
  }

  lemma {:induction false} CountIsCardinality(listing: seq<Listed>, p: Listed -> bool, wanted: set<string>)
    requires DistinctNames(listing)
    ensures CountWanted(listing, p, wanted, true) == |NamesWith(listing, p) * wanted|
  {
    hide NamesWith, DistinctNames;
    if listing == [] {
      assert NamesWith(listing, p) == {} by { NoNames(p); }
    } else {
      var front, last := listing[..|listing| - 1], listing[|listing| - 1];
      assert listing == front + [last];
      NamesSnoc(front, last, p);
      CountIsCardinality(front, p, wanted);
      var more := if p(last) && last.name in wanted then {last.name} else {};
      assert NamesWith(listing, p) * wanted == NamesWith(front, p) * wanted + more;
    }
  }

  lemma NoNames(p: Listed -> bool)
    ensures NamesWith([], p) == {}
  {
  }

  /** Every wanted assignment is listed and has the property. */
  ghost predicate EachWanted(listing: seq<Listed>, p: Listed -> bool, wanted: set<string>) {
    forall n :: n in wanted ==> exists c :: c in listing && c.name == n && p(c)
  }

  lemma AllCounted(listing: seq<Listed>, p: Listed -> bool, wanted: set<string>)
    requires DistinctNames(listing)
    ensures CountWanted(listing, p, wanted, true) == |wanted| <==> EachWanted(listing, p, wanted)
  {
    CountIsCardinality(listing, p, wanted);
    var names := NamesWith(listing, p);
    assert wanted == (names * wanted) + (wanted - names);
    assert |wanted| == |names * wanted| + |wanted - names|;
    assert wanted - names == {} <==> EachWanted(listing, p, wanted);
  }

  /** The conditions speak of the wanted assignments under an exact condition: Settled is true just when every wanted
      assignment is listed and settled, if and only if no obsolete one is settled, or neither the wanted settled ones
      nor all settled ones are as many as the wanted. The same goes for Ready. */
  lemma ConditionsMeanWantedIff(old_: RolloutStatus, generation: nat, wanted: set<string>, listing: seq<Listed>,
                                now: int)
    requires OnePerKind(old_.conditions) && DistinctNames(listing)
    ensures
      var s := NewRolloutStatus(old_, generation, |wanted|, listing, now);
      var a, o := CountWanted(listing, IsSettled, wanted, true), CountWanted(listing, IsSettled, wanted, false);
      (Has(s.conditions, SETTLED, true) <==> EachWanted(listing, IsSettled, wanted)) <==>
        o == 0 || (a != |wanted| && a + o != |wanted|)
    ensures
      var s := NewRolloutStatus(old_, generation, |wanted|, listing, now);
      var a, o := CountWanted(listing, IsReady, wanted, true), CountWanted(listing, IsReady, wanted, false);
      (Has(s.conditions, READY, true) <==> EachWanted(listing, IsReady, wanted)) <==>
        o == 0 || (a != |wanted| && a + o != |wanted|)
  {
    hide WithCondition, OnePerKind, Has, Ratio, EachWanted, DistinctNames;
    ConditionsCount(old_, generation, |wanted|, listing, now);
    CountSplits(listing, IsSettled, wanted);
    CountSplits(listing, IsReady, wanted);
    AllCounted(listing, IsSettled, wanted);
    AllCounted(listing, IsReady, wanted);
  }

  lemma {:induction false} NoneOutside(listing: seq<Listed>, p: Listed -> bool, wanted: set<string>)
    ensures CountWanted(listing, p, wanted, false) == 0 <==> forall c :: c in listing && p(c) ==> c.name in wanted
  {
    if listing != [] {
      var front, last := listing[..|listing| - 1], listing[|listing| - 1];
      NoneOutside(front, p, wanted);
      assert listing == front + [last] && last in listing;
    }
  }

  /** So the conditions can be trusted whenever no obsolete assignment that is listed is settled, as after a reconcile
      that had nothing to delete; and then Ready implies Settled. */
  lemma NoObsoleteSettled(old_: RolloutStatus, generation: nat, wanted: set<string>, listing: seq<Listed>, now: int)
    requires OnePerKind(old_.conditions) && DistinctNames(listing)
    requires forall c :: c in listing && IsSettled(c) ==> c.name in wanted
    ensures
      var s := NewRolloutStatus(old_, generation, |wanted|, listing, now);
      && (Has(s.conditions, SETTLED, true) <==> EachWanted(listing, IsSettled, wanted))
      && (Has(s.conditions, READY, true) <==> EachWanted(listing, IsReady, wanted))
      && (Has(s.conditions, READY, true) ==> Has(s.conditions, SETTLED, true))
  {
    hide WithCondition, OnePerKind, Has, Ratio, DistinctNames;
    ConditionsMeanWantedIff(old_, generation, wanted, listing, now);
    NoneOutside(listing, IsSettled, wanted);
    NoneOutside(listing, IsReady, wanted);
  }

  /** In the reconcile that replaces them, obsolete assignments still count: whatever is wanted, as many settled
      ones make the rollout Settled, though none of them may be wanted and no wanted one may exist. */
  lemma ObsoleteAssignmentsCount(old_: RolloutStatus, generation: nat, wanted: seq<string>, obsolete: seq<Listed>,
                                 now: int)
    requires OnePerKind(old_.conditions)
    requires |obsolete| == |wanted| && forall c :: c in obsolete ==> IsSettled(c) && c.name !in wanted
    ensures Has(NewRolloutStatus(old_, generation, |wanted|, obsolete, now).conditions, SETTLED, true)
  {
    ConvergedConditions(old_, generation, obsolete, now);
  }

  /** After an error, Settled is false, but a Ready condition stays as it was. */
  lemma ErrorKeepsReady(conditions: seq<Condition>, message: string, now: int, value: bool)
    requires OnePerKind(conditions)
    ensures
      var after := WithCondition(conditions, SETTLED, false, message, now);
      !Has(after, SETTLED, true) && (Has(after, READY, value) <==> Has(conditions, READY, value))
  {
    hide WithCondition, OnePerKind, Has;
    SetOnce(conditions, SETTLED, false, message, now, SETTLED, true);
    SetOnce(conditions, SETTLED, false, message, now, READY, value);
  }
}
