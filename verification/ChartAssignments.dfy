/** What the ChartAssignment controller writes into an assignment: its conditions, status and finalizers. */
module ChartAssignments {
  import opened Wrappers
  import opened Release
  import SetNames

  const FINALIZER := "helm.apps.cloudrobotics.com"
  const SETTLED := "Settled"
  const READY := "Ready"

  datatype Condition = Condition(kind: string, status: bool, message: string, updated: int, transitioned: int)

  /** A new assignment has no phase. */
  datatype AssignmentStatus = AssignmentStatus(observed: nat, phase: Option<Phase>, conditions: seq<Condition>)

  datatype PodPhase = PodPending | PodRunning | PodSucceeded | PodFailed | PodUnknown

  /** What the API server says about the namespace of the app and the pods in it. */
  datatype Lookup = NoNamespace | LookupFails | Pods(phases: seq<PodPhase>)

  // ----- Conditions -----

  function Changed(c: Condition, status: bool, message: string, now: int): Condition {
    Condition(c.kind, status, message,
              if c.status != status || c.message != message then now else c.updated,
              if c.status != status then now else c.transitioned)
  }

  /** setCondition: the first condition of the kind is changed, or a new one goes to the end. */
  function WithCondition(conditions: seq<Condition>, kind: string, status: bool, message: string,
                         now: int): seq<Condition> {
    if conditions == [] then [Condition(kind, status, message, now, now)]
    else if conditions[0].kind == kind then [Changed(conditions[0], status, message, now)] + conditions[1..]
    else [conditions[0]] + WithCondition(conditions[1..], kind, status, message, now)
  }

  // One step of the search for the condition.
  lemma AtPosition(conditions: seq<Condition>, i: nat, kind: string, status: bool, message: string, now: int)
    requires i < |conditions|
    ensures
      var c, after := conditions[i], conditions[..i] + WithCondition(conditions[i..], kind, status, message, now);
      after == if c.kind == kind then conditions[i := Changed(c, status, message, now)]
               else conditions[..i + 1] + WithCondition(conditions[i + 1..], kind, status, message, now)
  {
    assert conditions[i..][1..] == conditions[i + 1..];
  }

  ghost predicate OnePerKind(conditions: seq<Condition>) {
    forall i, j :: 0 <= i < j < |conditions| ==> conditions[i].kind != conditions[j].kind
  }

  ghost predicate Has(conditions: seq<Condition>, kind: string, status: bool) {
    exists c :: c in conditions && c.kind == kind && c.status == status
  }

  /** The conditions of the other kinds. */
  function Others(conditions: seq<Condition>, kind: string): seq<Condition> {
    if conditions == [] then []
    else (if conditions[0].kind == kind then [] else [conditions[0]]) + Others(conditions[1..], kind)
  }

  lemma {:induction false} OthersOfAbsent(conditions: seq<Condition>, kind: string)
    requires forall c :: c in conditions ==> c.kind != kind
    ensures Others(conditions, kind) == conditions
  {
    if conditions != [] {
      OthersOfAbsent(conditions[1..], kind);
    }
  }

  lemma {:induction false} OthersStay(conditions: seq<Condition>, kind: string, status: bool, message: string, now: int)
    ensures
      var after := WithCondition(conditions, kind, status, message, now);
      && Others(after, kind) == Others(conditions, kind)
      && (forall c :: c in after && c.kind != kind <==> c in conditions && c.kind != kind)
  {
    var after := WithCondition(conditions, kind, status, message, now);
    if conditions != [] {
      var rest := conditions[1..];
      assert conditions == [conditions[0]] + rest;
      if conditions[0].kind == kind {
        assert after[1..] == rest;
      } else {
        OthersStay(rest, kind, status, message, now);
        assert after[1..] == WithCondition(rest, kind, status, message, now);
      }
    }
  }

  lemma {:induction false} StaysOnePerKind(conditions: seq<Condition>, kind: string, status: bool, message: string,
                                           now: int)
    requires OnePerKind(conditions)
    ensures OnePerKind(WithCondition(conditions, kind, status, message, now))
  {
    if conditions != [] && conditions[0].kind != kind {
      var rest := conditions[1..];
      StaysOnePerKind(rest, kind, status, message, now);
      OthersStay(rest, kind, status, message, now);
      var more := WithCondition(rest, kind, status, message, now);
      forall c | c in more ensures c.kind != conditions[0].kind { }
    }
  }

  /** The condition of the kind has the new status and message, and its transition time moves exactly when its
      status does. */
  lemma {:induction false} ConditionIsSet(conditions: seq<Condition>, kind: string, status: bool, message: string,
                                          now: int)
    ensures
      exists c ::
        && c in WithCondition(conditions, kind, status, message, now)
        && c.kind == kind && c.status == status && c.message == message
        && (c.transitioned == now
            || exists b :: b in conditions && b.kind == kind && b.status == status && b.transitioned == c.transitioned)
        && (c.updated == now || c in conditions)
  {
    var after := WithCondition(conditions, kind, status, message, now);
    if conditions == [] || conditions[0].kind == kind {
      assert after[0] in after;
    } else {
      var rest := conditions[1..];
      ConditionIsSet(rest, kind, status, message, now);
      var c :|
        && c in WithCondition(rest, kind, status, message, now)
        && c.kind == kind && c.status == status && c.message == message
        && (c.transitioned == now
            || exists b :: b in rest && b.kind == kind && b.status == status && b.transitioned == c.transitioned)
        && (c.updated == now || c in rest);
      assert c in after;
    }
  }

  /** With one condition per kind, the kind that was set has exactly the new status. */
  lemma SetOnce(conditions: seq<Condition>, kind: string, status: bool, message: string, now: int, other: string,
                value: bool)
    requires OnePerKind(conditions)
    ensures
      var after := WithCondition(conditions, kind, status, message, now);
      && OnePerKind(after)
      && (Has(after, other, value) <==> if other == kind then value == status else Has(conditions, other, value))
  {
    OthersStay(conditions, kind, status, message, now);
    StaysOnePerKind(conditions, kind, status, message, now);
    ConditionIsSet(conditions, kind, status, message, now);
    var after := WithCondition(conditions, kind, status, message, now);
    var c :| c in after && c.kind == kind && c.status == status && c.message == message;
    hide WithCondition;
    if other == kind {
      forall d | d in after && d.kind == kind ensures d == c {
        var i :| 0 <= i < |after| && after[i] == c;
        var j :| 0 <= j < |after| && after[j] == d;
        assert i == j;
      }
    }
  }

  // ----- Status -----

  predicate Up(p: PodPhase) { p == PodRunning || p == PodSucceeded }

  function Running(phases: seq<PodPhase>): (n: nat)
    ensures n <= |phases|
  {
    if phases == [] then 0
    else Running(phases[..|phases| - 1]) + (if Up(phases[|phases| - 1]) then 1 else 0)
  }

  lemma {:induction false} AllRunning(phases: seq<PodPhase>)
    ensures Running(phases) == |phases| <==> forall p :: p in phases ==> Up(p)
  {
    if phases != [] {
      var front, last := phases[..|phases| - 1], phases[|phases| - 1];
      AllRunning(front);
      assert phases == front + [last] && last in phases;
      hide Up;
    }
  }

  function Message(err: Option<string>): string { if err.Some? then err.value else "" }

  function PodsMessage(ready: nat, total: nat): string {
    SetNames.Decimal(ready) + "/" + SetNames.Decimal(total) + " pods are running or succeeded"
  }

  /** setStatus, up to the write; None when a lookup fails. */
  function NewStatus(old_: AssignmentStatus, generation: nat, release: Status, lookup: Lookup,
                     now: int): Option<AssignmentStatus> {
    var settled := WithCondition(old_.conditions, SETTLED, release.phase == Settled, Message(release.err), now);
    match lookup
    case LookupFails => None
    case NoNamespace =>
      Some(AssignmentStatus(generation, Some(release.phase),
           WithCondition(settled, READY, false, "waiting for namespace creation", now)))
    case Pods(phases) =>
      if release.phase != Settled then
        Some(AssignmentStatus(generation, Some(release.phase),
             WithCondition(settled, READY, false, "Release not settled yet", now)))
      else
        var all := Running(phases) == |phases|;
        Some(AssignmentStatus(generation, Some(if all then Ready else Settled),
                              WithCondition(settled, READY, all, PodsMessage(Running(phases), |phases|), now)))
  }

  /** One condition per kind, and Ready only if Settled and in phase Ready. */
  ghost predicate Sound(s: AssignmentStatus) {
    && OnePerKind(s.conditions)
    && (Has(s.conditions, READY, true) <==> s.phase == Some(Ready))
    && (Has(s.conditions, READY, true) ==> Has(s.conditions, SETTLED, true))
  }

  /** A status that setStatus makes is sound. It is settled exactly if the release is, and ready exactly if the
      release is settled and every pod of an existing namespace runs or has succeeded. */
  lemma NewStatusIsSound(old_: AssignmentStatus, generation: nat, release: Status, lookup: Lookup, now: int)
    requires OnePerKind(old_.conditions) && release.phase != Ready
    requires NewStatus(old_, generation, release, lookup, now).Some?
    ensures
      var s := NewStatus(old_, generation, release, lookup, now).value;
      && Sound(s) && s.observed == generation
      && (Has(s.conditions, SETTLED, true) <==> release.phase == Settled)
      && (Has(s.conditions, READY, true) <==>
            release.phase == Settled && lookup.Pods? && forall p :: p in lookup.phases ==> Up(p))
  {
    var settled := WithCondition(old_.conditions, SETTLED, release.phase == Settled, Message(release.err), now);
    var s := NewStatus(old_, generation, release, lookup, now).value;
    var ready := release.phase == Settled && lookup.Pods? && Running(lookup.phases) == |lookup.phases|;
    var message := if lookup.NoNamespace? then "waiting for namespace creation"
                   else if release.phase != Settled then "Release not settled yet"
                   else PodsMessage(Running(lookup.phases), |lookup.phases|);
    assert s.conditions == WithCondition(settled, READY, ready, message, now);
    hide WithCondition, OnePerKind, Has, PodsMessage;
    if lookup.Pods? {
      AllRunning(lookup.phases);
    }
    SetOnce(old_.conditions, SETTLED, release.phase == Settled, Message(release.err), now, SETTLED, true);
    SetOnce(settled, READY, ready, message, now, READY, true);
    SetOnce(settled, READY, ready, message, now, SETTLED, true);
  }

  // ----- Finalizers -----

  function Without(list: seq<string>, s: string): (r: seq<string>)
    ensures forall x :: x in r <==> x in list && x != s
  {
    if list == [] then []
    else Without(list[..|list| - 1], s) + (if list[|list| - 1] != s then [list[|list| - 1]] else [])
  }

  /** The assignment that a reconcile has in its hands and edits in place. */
  class Assignment {
    var generation: nat
    var observed: nat
    var phase: Option<Phase>
    var conditions: seq<Condition>
    var finalizers: seq<string>

    ghost function Status(): AssignmentStatus
      reads this
    {
      AssignmentStatus(observed, phase, conditions)
    }

    method SetCondition(kind: string, status: bool, message: string, now: int)
      modifies this`conditions
      ensures conditions == WithCondition(old(conditions), kind, status, message, now)
    {
      ghost var goal := WithCondition(conditions, kind, status, message, now);
      for i := 0 to |conditions|
        invariant conditions == old(conditions)
        invariant goal == conditions[..i] + WithCondition(conditions[i..], kind, status, message, now)
      {
        var c := conditions[i];
        AtPosition(conditions, i, kind, status, message, now);
        if c.kind != kind {
          continue;
        }
        if c.status != status || c.message != message {
          c := c.(updated := now);
        }
        if c.status != status {
          c := c.(transitioned := now);
        }
        c := c.(message := message);
        c := c.(status := status);
        conditions := conditions[i := c];
        return;
      }
      conditions := conditions + [Condition(kind, status, message, now, now)];
    }

    /** setStatus. The result says whether the status goes to the API server; nothing does once the release is
        Deleted, or when a lookup failed. */
    method SetStatus(release: Status, lookup: Lookup, now: int) returns (write: bool)
      modifies this`observed, this`phase, this`conditions
      ensures write <==> release.phase != Deleted && !lookup.LookupFails?
      ensures write ==> Some(Status()) == NewStatus(old(Status()), generation, release, lookup, now)
      ensures release.phase == Deleted ==> Status() == old(Status())
    {
      if release.phase == Deleted {
        return false;
      }
      observed, phase := generation, Some(release.phase);
      if release.err.None? {
        SetCondition(SETTLED, release.phase == Settled, "", now);
      } else {
        SetCondition(SETTLED, release.phase == Settled, release.err.value, now);
      }
      match lookup {
      case NoNamespace =>
        SetCondition(READY, false, "waiting for namespace creation", now);
      case LookupFails =>
        return false;
      case Pods(phases) =>
        var ready, total := 0, |phases|;
        for i := 0 to |phases|
          invariant ready == Running(phases[..i])
        {
          assert phases[..i + 1][..i] == phases[..i];
          if Up(phases[i]) {
            ready := ready + 1;
          }
        }
        assert phases[..|phases|] == phases;
        if release.phase != Settled {
          SetCondition(READY, false, "Release not settled yet", now);
        } else {
          if ready == total {
            phase := Some(Ready);
          }
          SetCondition(READY, ready == total, PodsMessage(ready, total), now);
        }
      }
      return true;
    }

    method DeleteFinalizer(s: string)
      modifies this`finalizers
      ensures finalizers == Without(old(finalizers), s)
    {
      var res := [];
      for i := 0 to |finalizers|
        invariant finalizers == old(finalizers) && res == Without(finalizers[..i], s)
      {
        assert finalizers[..i + 1][..i] == finalizers[..i];
        if finalizers[i] != s {
          res := res + [finalizers[i]];
        }
      }
      assert finalizers[..|finalizers|] == finalizers;
      finalizers := res;
    }
  }
}
