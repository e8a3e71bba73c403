/** Two races of the ChartAssignment controller, as runs: reads that fall between the acceptance of an update and its
    first phase. */
module ChartAssignmentRaces {
  import opened Wrappers
  import opened Release
  import opened ChartAssignments
  import opened ChartAssignmentRuns
  import R = ReleaseRuns

  ghost predicate Reachable(s: State) {
    exists states: seq<State>, steps: seq<Step> :: IsRun(states, steps) && states[|steps|] == s
  }

  lemma InitIsReachable()
    ensures Reachable(INIT)
  {
    assert IsRun([INIT], []);
  }

  lemma Then(s: State, step: Step, t: State)
    requires Reachable(s) && Enabled(s, step) && Do(s, step) == t
    ensures Reachable(t)
  {
    hide Do, Enabled;
    var states: seq<State>, steps: seq<Step> :| IsRun(states, steps) && states[|steps|] == s;
    assert IsRun(states + [t], steps + [step]);
  }

  const NO_ERROR := Calls(None, None)
  const FIRST := Stored(1, 1, 1, false, ["x"], NEW_STATUS)
  const FIRST_GOING := Stored(1, 2, 1, true, ["x"], NEW_STATUS)
  const SECOND_NEW := Stored(4, 4, 1, false, [FINALIZER], NEW_STATUS)
  const SECOND := Stored(4, 5, 2, false, [FINALIZER], NEW_STATUS)
  const SECOND_GOING := Stored(4, 6, 2, true, [FINALIZER], NEW_STATUS)

  function Rel(worker: R.Worker, phase: Phase, generation: nat, caller: R.Caller, since: multiset<R.Event>,
               last: Option<R.Done>): R.State {
    R.State(true, [worker], InPhase(phase), generation, caller, since, last)
  }

  function FirstIn(rel: R.State, place: Place): State {
    State(Some(FIRST_GOING), 2, [None, Some(FIRST), Some(FIRST_GOING)], 2, rel, place, false, None, {1})
  }

  lemma FirstIsTaken()
    ensures Reachable(FirstIn(Rel(R.Receiving, Accepted, 0, R.Sending(Delete), multiset{}, None),
                              DeleteCalled(FIRST_GOING)))
  {
    InitIsReachable();
    var s1 := State(Some(FIRST), 1, [None, Some(FIRST)], 0, R.INIT, Idle, false, None, {});
    var s2 := State(Some(FIRST_GOING), 2, [None, Some(FIRST), Some(FIRST_GOING)], 0, R.INIT, Idle, false, None, {});
    var s3, s4 := s2.(shown := 2), FirstIn(R.INIT, DeleteDue(FIRST_GOING));
    var s5 := FirstIn(Rel(R.Busy, Accepted, 0, R.Sending(Delete), multiset{}, None), DeleteCalled(FIRST_GOING));
    Then(INIT, Outside(Some(FIRST)), s1);
    Then(s1, Outside(Some(FIRST_GOING)), s2);
    Then(s2, CacheMoves(2), s3);
    Then(s3, Take, s4);
    Then(s4, Release(R.CallDelete), s5);
    Then(s5, Release(R.Receive(0)),
         FirstIn(Rel(R.Receiving, Accepted, 0, R.Sending(Delete), multiset{}, None), DeleteCalled(FIRST_GOING)));
  }

  const GONE := Some(R.Done(Delete, NO_ERROR))

  lemma FirstIsBeingDeleted()
    ensures Reachable(FirstIn(Rel(R.Running(Delete, NO_ERROR, 1), Phase.Deleting, 0, R.AtRest, multiset{}, None),
                              DeleteCalled(FIRST_GOING)))
  {
    FirstIsTaken();
    var place := DeleteCalled(FIRST_GOING);
    var s0 := FirstIn(Rel(R.Receiving, Accepted, 0, R.Sending(Delete), multiset{}, None), place);
    var s1 := FirstIn(Rel(R.Pending(Delete), Accepted, 0, R.AtRest, multiset{}, None), place);
    var s2 := FirstIn(Rel(R.Running(Delete, NO_ERROR, 1), Phase.Deleting, 0, R.AtRest, multiset{}, None), place);
    Then(s0, Release(R.Send(0)), s1);
    Then(s1, Release(R.Begin(0, NO_ERROR)), s2);
  }

  lemma FirstIsDeleted()
    ensures Reachable(FirstIn(Rel(R.Receiving, Deleted, 0, R.AtRest, multiset{}, GONE), DeleteCalled(FIRST_GOING)))
  {
    FirstIsBeingDeleted();
    var place := DeleteCalled(FIRST_GOING);
    var s2 := FirstIn(Rel(R.Running(Delete, NO_ERROR, 1), Phase.Deleting, 0, R.AtRest, multiset{}, None), place);
    var s3 := FirstIn(Rel(R.Running(Delete, NO_ERROR, 2), Deleted, 0, R.AtRest, multiset{}, GONE), place);
    var s4 := FirstIn(Rel(R.Busy, Deleted, 0, R.AtRest, multiset{}, GONE), place);
    Then(s2, Release(R.Show(0)), s3);
    Then(s3, Release(R.Finish(0)), s4);
    Then(s4, Release(R.Receive(0)), FirstIn(Rel(R.Receiving, Deleted, 0, R.AtRest, multiset{}, GONE), place));
  }

  const BEFORE := [None, Some(FIRST), Some(FIRST_GOING), None, Some(SECOND_NEW)]
  const STARTED := multiset{R.Started(2)}

  function SecondIn(rel: R.State, place: Place, answer: bool, installed: Option<nat>): State {
    State(Some(SECOND), 5, BEFORE + [Some(SECOND)], 5, rel, place, answer, installed, {1})
  }

  lemma SecondIsThere()
    ensures Reachable(SecondIn(Rel(R.Receiving, Deleted, 0, R.AtRest, multiset{}, GONE), Idle,
                               false, None).(shown := 2))
  {
    FirstIsDeleted();
    var rel := Rel(R.Receiving, Deleted, 0, R.AtRest, multiset{}, GONE);
    var s0, s1 := FirstIn(rel, DeleteCalled(FIRST_GOING)), FirstIn(rel, StatusDue(FIRST_GOING));
    var s2 := FirstIn(rel, Idle);
    var s3 := State(None, 3, [None, Some(FIRST), Some(FIRST_GOING), None], 2, rel, Idle, false, None, {1});
    var s4 := State(Some(SECOND_NEW), 4, BEFORE, 2, rel, Idle, false, None, {1});
    Then(s0, ReadPhase, s1);
    Then(s1, ReadStatus(NoNamespace, 0), s2);
    Then(s2, Outside(None), s3);
    Then(s3, Outside(Some(SECOND_NEW)), s4);
    Then(s4, Outside(Some(SECOND)), SecondIn(rel, Idle, false, None).(shown := 2));
  }

  lemma SecondIsTaken()
    ensures Reachable(SecondIn(Rel(R.Receiving, Deleted, 0, R.AtRest, multiset{}, GONE),
                               UpdateDue(SECOND), false, None))
  {
    SecondIsThere();
    var rel := Rel(R.Receiving, Deleted, 0, R.AtRest, multiset{}, GONE);
    var s0, s1 := SecondIn(rel, Idle, false, None).(shown := 2), SecondIn(rel, Idle, false, None);
    var s2 := SecondIn(rel, Preparing(SECOND), false, None);
    Then(s0, CacheMoves(5), s1);
    Then(s1, Take, s2);
    Then(s2, Prepare(true), SecondIn(rel, UpdateDue(SECOND), false, None));
  }

  lemma SecondIsAccepted()
    ensures Reachable(SecondIn(Rel(R.Pending(Update(2)), Deleted, 2, R.AtRest, STARTED, GONE),
                               UpdateCalled(SECOND), true, Some(4)))
  {
    SecondIsTaken();
    var place, none := UpdateCalled(SECOND), multiset{};
    var s0 := SecondIn(Rel(R.Receiving, Deleted, 0, R.AtRest, none, GONE), UpdateDue(SECOND), false, None);
    var s1 := SecondIn(Rel(R.Receiving, Deleted, 0, R.Added(2), none, GONE), place, false, None);
    var s2 := SecondIn(Rel(R.Receiving, Deleted, 0, R.Read(2, false), none, GONE), place, false, None);
    var s3 := SecondIn(Rel(R.Receiving, Deleted, 0, R.Sending(Update(2)), none, GONE), place, false, None);
    var s4 := SecondIn(Rel(R.Pending(Update(2)), Deleted, 0, R.Sent(2), STARTED, GONE), place, false, Some(4));
    Then(s0, Release(R.Call(2)), s1);
    Then(s1, Release(R.ReadStatus), s2);
    Then(s2, Release(R.Decide), s3);
    Then(s3, Release(R.Send(0)), s4);
    Then(s4, Release(R.Store),
         SecondIn(Rel(R.Pending(Update(2)), Deleted, 2, R.AtRest, STARTED, GONE), place, true, Some(4)));
  }

  function SecondGoing(caller: R.Caller, place: Place): State {
    State(Some(SECOND_GOING), 6, BEFORE + [Some(SECOND), Some(SECOND_GOING)], 6,
          Rel(R.Pending(Update(2)), Deleted, 2, caller, STARTED, GONE), place, false, Some(4), {1, 4})
  }

  lemma SecondIsGoing()
    ensures Reachable(SecondGoing(R.AtRest, DeleteDue(SECOND_GOING)))
  {
    SecondIsAccepted();
    var rel := Rel(R.Pending(Update(2)), Deleted, 2, R.AtRest, STARTED, GONE);
    var s0 := SecondIn(rel, UpdateCalled(SECOND), true, Some(4));
    var s1, s2 := SecondIn(rel, StatusDue(SECOND), true, Some(4)), SecondIn(rel, Idle, true, Some(4));
    var s3 := SecondGoing(R.AtRest, Idle).(doomed := {1}, shown := 5, answer := true);
    var s4 := s3.(shown := 6);
    Then(s0, UpdateReturns, s1);
    Then(s1, ReadStatus(NoNamespace, 0), s2);
    Then(s2, Outside(Some(SECOND_GOING)), s3);
    Then(s3, CacheMoves(6), s4);
    Then(s4, Take, SecondGoing(R.AtRest, DeleteDue(SECOND_GOING)));
  }

  lemma PhaseIsReadEarly()
    ensures Reachable(SecondGoing(R.AtRest, Removing(SECOND_GOING)))
  {
    SecondIsGoing();
    var s0 := SecondGoing(R.AtRest, DeleteDue(SECOND_GOING));
    var s1 := SecondGoing(R.Sending(Delete), DeleteCalled(SECOND_GOING));
    var s2 := SecondGoing(R.AtRest, DeleteCalled(SECOND_GOING));
    Then(s0, Release(R.CallDelete), s1);
    Then(s1, Release(R.Refused), s2);
    Then(s2, ReadPhase, SecondGoing(R.AtRest, Removing(SECOND_GOING)));
  }

  function SecondGone(): State {
    var s := SecondGoing(R.AtRest, Removing(SECOND_GOING));
    s.(live := None, clock := 7, history := s.history + [None],
       place := StatusDue(SECOND_GOING.(finalizers := [], version := 7)))
  }

  lemma SecondIsGone()
    ensures Reachable(SecondGone())
  {
    PhaseIsReadEarly();
    assert Without([FINALIZER], FINALIZER) == [];
    Then(SecondGoing(R.AtRest, Removing(SECOND_GOING)), Remove(true), SecondGone());
  }

  /** Why the phase must not be read early: a release that is Deleted takes an update of a new object, whose deletion
      is then reconciled before the update shows its first phase. The object goes, and the update is still to run. */
  lemma StaleDeletedDropsFinalizer()
    ensures exists s ::
      Reachable(s) && s.live.None? && s.installed == Some(4) && s.rel.workers == [R.Pending(Update(2))]
  {
    SecondIsGone();
  }

  const THIRD := Stored(8, 8, 1, false, [FINALIZER], NEW_STATUS)

  /** And then the next object asks for a lower generation than the one that was accepted. */
  lemma LowerGenerationIsAsked()
    ensures exists s ::
      && Reachable(s) && s.place.UpdateDue? && s.rel.caller.AtRest?
      && !R.InOrder(s.rel, R.Call(s.place.o.generation)) && Enabled(s, Release(R.Call(s.place.o.generation)))
  {
    SecondIsGone();
    var s0, s1 := SecondGone(), SecondGone().(place := Idle);
    var s2 := s1.(live := Some(THIRD), clock := 8, history := s1.history + [Some(THIRD)]);
    var s3 := s2.(shown := 8);
    var s4, s5 := s3.(place := Preparing(THIRD)), s3.(place := UpdateDue(THIRD));
    Then(s0, ReadStatus(NoNamespace, 0), s1);
    Then(s1, Outside(Some(THIRD)), s2);
    Then(s2, CacheMoves(8), s3);
    Then(s3, Take, s4);
    Then(s4, Prepare(true), s5);
    hide Reachable;
    assert R.Floor(s5.rel) == 2;
  }

  // ----- Settled under a new generation -----

  const OLD := Stored(1, 1, 1, false, [FINALIZER], NEW_STATUS)
  const EDITED := Stored(1, 2, 2, false, [FINALIZER], NEW_STATUS)

  function OldIn(rel: R.State, place: Place, answer: bool, installed: Option<nat>): State {
    State(Some(OLD), 1, [None, Some(OLD)], 1, rel, place, answer, installed, {})
  }

  function EditedIn(rel: R.State, place: Place, answer: bool): State {
    State(Some(EDITED), 2, [None, Some(OLD), Some(EDITED)], 2, rel, place, answer, Some(1), {})
  }

  lemma OldIsWanted()
    ensures Reachable(OldIn(Rel(R.Receiving, Accepted, 0, R.Sending(Update(1)), multiset{}, None),
                            UpdateCalled(OLD), false, None))
  {
    InitIsReachable();
    var s1 := State(Some(OLD), 1, [None, Some(OLD)], 0, R.INIT, Idle, false, None, {});
    var s2, s3, s4 := s1.(shown := 1), OldIn(R.INIT, Preparing(OLD), false, None),
        OldIn(R.INIT, UpdateDue(OLD), false, None);
    Then(INIT, Outside(Some(OLD)), s1); Then(s1, CacheMoves(1), s2); Then(s2, Take, s3); Then(s3, Prepare(true), s4);
    OldIsCalled(s4);
  }

  lemma OldIsCalled(s: State)
    requires s == OldIn(R.INIT, UpdateDue(OLD), false, None) && Reachable(s)
    ensures Reachable(OldIn(Rel(R.Receiving, Accepted, 0, R.Sending(Update(1)), multiset{}, None),
                            UpdateCalled(OLD), false, None))
  {
    hide Reachable;
    var place, none := UpdateCalled(OLD), multiset{};
    var s1 := OldIn(Rel(R.Busy, Accepted, 0, R.Added(1), none, None), place, false, None);
    var s2 := OldIn(Rel(R.Receiving, Accepted, 0, R.Added(1), none, None), place, false, None);
    var s3 := OldIn(Rel(R.Receiving, Accepted, 0, R.Read(1, false), none, None), place, false, None);
    Then(s, Release(R.Call(1)), s1); Then(s1, Release(R.Receive(0)), s2); Then(s2, Release(R.ReadStatus), s3);
    Then(s3, Release(R.Decide),
         OldIn(Rel(R.Receiving, Accepted, 0, R.Sending(Update(1)), none, None), place, false, None));
  }

  lemma OldIsAccepted()
    ensures Reachable(OldIn(Rel(R.Pending(Update(1)), Accepted, 1, R.AtRest, multiset{R.Started(1)}, None), Idle, true,
                            Some(1)))
  {
    OldIsWanted();
    var m := multiset{R.Started(1)};
    var rel := Rel(R.Pending(Update(1)), Accepted, 1, R.AtRest, m, None);
    var s0 := OldIn(Rel(R.Receiving, Accepted, 0, R.Sending(Update(1)), multiset{}, None),
                    UpdateCalled(OLD), false, None);
    var s1 := OldIn(Rel(R.Pending(Update(1)), Accepted, 0, R.Sent(1), m, None), UpdateCalled(OLD), false, Some(1));
    var s2, s3 := OldIn(rel, UpdateCalled(OLD), true, Some(1)), OldIn(rel, StatusDue(OLD), true, Some(1));
    Then(s0, Release(R.Send(0)), s1); Then(s1, Release(R.Store), s2); Then(s2, UpdateReturns, s3);
    Then(s3, ReadStatus(LookupFails, 0), OldIn(rel, Idle, true, Some(1)));
  }

  const APPLIED := Some(R.Done(Update(1), NO_ERROR))

  lemma OldIsSettled()
    ensures Reachable(OldIn(Rel(R.Receiving, Settled, 1, R.AtRest, multiset{R.Started(1)}, APPLIED), Idle, true,
                            Some(1)))
  {
    OldIsAccepted();
    var m := multiset{R.Started(1)};
    var s0 := OldIn(Rel(R.Pending(Update(1)), Accepted, 1, R.AtRest, m, None), Idle, true, Some(1));
    var s1 := OldIn(Rel(R.Running(Update(1), NO_ERROR, 1), LoadingChart, 1, R.AtRest, m, None), Idle, true, Some(1));
    var s2 := OldIn(Rel(R.Running(Update(1), NO_ERROR, 2), Updating, 1, R.AtRest, m, None), Idle, true, Some(1));
    var s3 := OldIn(Rel(R.Running(Update(1), NO_ERROR, 3), Settled, 1, R.AtRest, m, APPLIED), Idle, true, Some(1));
    Then(s0, Release(R.Begin(0, NO_ERROR)), s1); Then(s1, Release(R.Show(0)), s2); Then(s2, Release(R.Show(0)), s3);
    OldRests(s3);
  }

  lemma OldRests(s: State)
    requires Reachable(s)
    requires s == OldIn(Rel(R.Running(Update(1), NO_ERROR, 3), Settled, 1, R.AtRest, multiset{R.Started(1)}, APPLIED),
                        Idle, true, Some(1))
    ensures Reachable(OldIn(Rel(R.Receiving, Settled, 1, R.AtRest, multiset{R.Started(1)}, APPLIED), Idle, true,
                            Some(1)))
  {
    var m := multiset{R.Started(1)};
    var t := OldIn(Rel(R.Busy, Settled, 1, R.AtRest, m, APPLIED), Idle, true, Some(1));
    Then(s, Release(R.Finish(0)), t);
    Then(t, Release(R.Receive(0)), OldIn(Rel(R.Receiving, Settled, 1, R.AtRest, m, APPLIED), Idle, true, Some(1)));
  }

  lemma EditIsDue()
    ensures Reachable(EditedIn(Rel(R.Receiving, Settled, 1, R.AtRest, multiset{R.Started(1)}, APPLIED),
                               UpdateDue(EDITED), false))
  {
    OldIsSettled();
    var rel := Rel(R.Receiving, Settled, 1, R.AtRest, multiset{R.Started(1)}, APPLIED);
    var s0, s1, s2 := OldIn(rel, Idle, true, Some(1)), EditedIn(rel, Idle, true).(shown := 1),
        EditedIn(rel, Idle, true);
    var s3 := EditedIn(rel, Preparing(EDITED), false);
    Then(s0, Outside(Some(EDITED)), s1); Then(s1, CacheMoves(2), s2); Then(s2, Take, s3);
    Then(s3, Prepare(true), EditedIn(rel, UpdateDue(EDITED), false));
  }

  lemma EditIsAccepted()
    ensures Reachable(EditedIn(Rel(R.Pending(Update(2)), Settled, 2, R.AtRest, multiset{R.Started(1), R.Started(2)},
                                   APPLIED), UpdateCalled(EDITED), true))
  {
    EditIsDue();
    var m, more, place := multiset{R.Started(1)}, multiset{R.Started(1), R.Started(2)}, UpdateCalled(EDITED);
    var s0 := EditedIn(Rel(R.Receiving, Settled, 1, R.AtRest, m, APPLIED), UpdateDue(EDITED), false);
    var s1 := EditedIn(Rel(R.Receiving, Settled, 1, R.Added(2), m, APPLIED), place, false);
    var s2 := EditedIn(Rel(R.Receiving, Settled, 1, R.Read(2, false), m, APPLIED), place, false);
    var s3 := EditedIn(Rel(R.Receiving, Settled, 1, R.Sending(Update(2)), m, APPLIED), place, false);
    var s4 := EditedIn(Rel(R.Pending(Update(2)), Settled, 1, R.Sent(2), more, APPLIED), place, false);
    Then(s0, Release(R.Call(2)), s1); Then(s1, Release(R.ReadStatus), s2); Then(s2, Release(R.Decide), s3);
    Then(s3, Release(R.Send(0)), s4);
    Then(s4, Release(R.Store), EditedIn(Rel(R.Pending(Update(2)), Settled, 2, R.AtRest, more, APPLIED), place, true));
  }

  /** A settled status can be stored for a generation that was never applied: the update is accepted, ensureUpdated
      returns true, and setStatus reads the Settled of the generation before. */
  lemma StaleSettledIsStored()
    ensures exists s ::
      && Reachable(s) && s.live.Some? && s.live.value.status.observed == 2
         && Has(s.live.value.status.conditions, SETTLED, true)
      && s.answer && s.rel.last == APPLIED
  {
    EditIsAccepted();
    hide Reachable, NewStatus, Has;
    var rel := Rel(R.Pending(Update(2)), Settled, 2, R.AtRest, multiset{R.Started(1), R.Started(2)}, APPLIED);
    var new_ := NewStatus(NEW_STATUS, 2, InPhase(Settled), NoNamespace, 0);
    assert new_.Some? by { Written(); }
    NewStatusIsSound(NEW_STATUS, 2, InPhase(Settled), NoNamespace, 0);
    var s0, s1 := EditedIn(rel, UpdateCalled(EDITED), true), EditedIn(rel, StatusDue(EDITED), true);
    var s2 := EditedIn(rel, Writing(EDITED, new_.value), true);
    var stored := EDITED.(status := new_.value, version := 3);
    var s3 := EditedIn(rel, Idle, true).(live := Some(stored), clock := 3, history := s2.history + [Some(stored)]);
    Then(s0, UpdateReturns, s1); Then(s1, ReadStatus(NoNamespace, 0), s2); Then(s2, WriteStatus(true), s3);
  }

  lemma Written()
    ensures NewStatus(NEW_STATUS, 2, InPhase(Settled), NoNamespace, 0).Some?
  {
  }
}
