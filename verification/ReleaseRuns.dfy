/** All interleavings of one release's worker with the reconciler that calls ensureUpdated and ensureDeleted. */
module ReleaseRuns {
  import opened Wrappers
  import opened Release

  /** A worker goroutine. It has shown the first `shown` statuses of a job that is running. */
  datatype Worker = Busy | Receiving | Pending(job: Job) | Running(job: Job, calls: Calls, shown: nat)

  /** Where the reconciler stands. `Sent` is past the start of an update, before the generation is stored. */
  datatype Caller =
    | AtRest | Added(wanted: nat) | Read(wanted: nat, retry: bool) | Sending(job: Job) | Sent(generation: nat)

  /** What happened to the updates for a generation. A stale read sees the retry flag of the last job while an
      update that was accepted has not shown its first phase. */
  datatype Event = Started(generation: nat) | EndedForRetry(generation: nat) | StaleRead(generation: nat)

  datatype Done = Done(job: Job, calls: Calls)

  /** `since` is what happened to updates since the last deletion began, and `last` the job that was last to show
      its last status. */
  datatype State = State(
    known: bool, workers: seq<Worker>, status: Status, generation: nat, caller: Caller,
    since: multiset<Event>, last: Option<Done>)

  datatype Step =
    | Call(wanted: nat) | CallDelete | ReadStatus | Decide | Send(i: nat) | Refused | Store
    | Receive(i: nat) | Begin(i: nat, calls: Calls) | Show(i: nat) | Finish(i: nat)

  const INIT := State(false, [], InPhase(Accepted), 0, AtRest, multiset{}, None)

  /** The statuses of a job that does something. */
  function Statuses(job: Job, calls: Calls): seq<Status> { Trace(job, Accepted, calls) }

  /** The generation of the last update that was accepted, even before it is stored. */
  function AcceptedGeneration(s: State): nat { if s.caller.Sent? then s.caller.generation else s.generation }

  predicate Deleting(w: Worker) { w.Running? && w.job.Delete? }

  /** The same, but forgotten as soon as a deletion begins. */
  function Floor(s: State): nat {
    if exists i :: 0 <= i < |s.workers| && Deleting(s.workers[i]) then 0 else AcceptedGeneration(s)
  }

  predicate Enabled(s: State, step: Step) {
    match step
    case Call(_) => s.caller.AtRest?
    case CallDelete => s.caller.AtRest?
    case ReadStatus => s.caller.Added?
    case Decide => s.caller.Read?
    case Send(i) => s.caller.Sending? && i < |s.workers| && s.workers[i].Receiving?
    case Refused => s.caller.Sending? && forall i :: 0 <= i < |s.workers| ==> !s.workers[i].Receiving?
    case Store => s.caller.Sent?
    case Receive(i) => i < |s.workers| && s.workers[i].Busy?
    case Begin(i, _) => i < |s.workers| && s.workers[i].Pending?
    case Show(i) => i < |s.workers| && s.workers[i].Running?
                    && s.workers[i].shown < |Statuses(s.workers[i].job, s.workers[i].calls)|
    case Finish(i) => i < |s.workers| && s.workers[i].Running?
                      && s.workers[i].shown == |Statuses(s.workers[i].job, s.workers[i].calls)|
  }

  /** add: the first call starts the one worker of the release. */
  function WithRelease(s: State): State {
    if s.known then s else s.(known := true, workers := s.workers + [Busy],
                              status := InPhase(Accepted), generation := 0)
  }

  predicate AwaitsUpdate(s: State) {
    exists i :: 0 <= i < |s.workers| && s.workers[i].Pending? && s.workers[i].job.Update?
  }

  function Wanted(caller: Caller): nat {
    match caller
    case Added(w) => w
    case Read(w, _) => w
    case Sending(Update(w)) => w
    case _ => 0
  }

  /** The worker shows the status at its position; after the last one its job is done, but for the generation. */
  function ShowNext(s: State, i: nat): State
    requires i < |s.workers| && s.workers[i].Running?
    requires s.workers[i].shown < |Statuses(s.workers[i].job, s.workers[i].calls)|
  {
    var w := s.workers[i];
    var all := Statuses(w.job, w.calls);
    var t := s.(status := all[w.shown], workers := s.workers[i := w.(shown := w.shown + 1)]);
    if w.shown + 1 < |all| then t
    else
      t.(last := Some(Done(w.job, w.calls)),
         since := if w.job.Update? && t.status.retry then t.since + multiset{EndedForRetry(w.job.generation)}
                  else t.since)
  }

  function Do(s: State, step: Step): State
    requires Enabled(s, step)
  {
    match step
    case Call(w) => WithRelease(s).(caller := Added(w))
    case CallDelete => WithRelease(s).(caller := Sending(Delete))
    case ReadStatus =>
      s.(caller := Read(s.caller.wanted, s.status.retry),
         since := if s.status.retry && AwaitsUpdate(s) then s.since + multiset{StaleRead(s.caller.wanted)} else s.since)
    case Decide =>
      s.(caller := if s.generation == s.caller.wanted && !s.caller.retry then AtRest
                   else Sending(Update(s.caller.wanted)))
    case Send(i) =>
      var t := s.(workers := s.workers[i := Pending(s.caller.job)]);
      if s.caller.job.Delete? then t.(caller := AtRest)
      else t.(caller := Sent(s.caller.job.generation), since := s.since + multiset{Started(s.caller.job.generation)})
    case Refused => s.(caller := AtRest)
    case Store => s.(caller := AtRest, generation := s.caller.generation)
    case Receive(i) => s.(workers := s.workers[i := Receiving])
    case Begin(i, calls) =>
      var job := s.workers[i].job;
      if job.Delete? && s.status.phase == Deleted then s.(workers := s.workers[i := Busy])
      else
        var t := ShowNext(s.(workers := s.workers[i := Running(job, calls, 0)]), i);
        if job.Delete? then t.(since := multiset{}) else t
    case Show(i) => ShowNext(s, i)
    case Finish(i) =>
      s.(workers := s.workers[i := Busy], generation := if s.workers[i].job.Delete? then 0 else s.generation)
  }

  ghost predicate IsRun(states: seq<State>, steps: seq<Step>) {
    && |states| == |steps| + 1
    && states[0] == INIT
    && forall i :: 0 <= i < |steps| ==> Enabled(states[i], steps[i]) && states[i + 1] == Do(states[i], steps[i])
  }

  // ----- The invariant -----

  function Current(s: State): (g: nat)
    requires |s.workers| == 1
    ensures g == Floor(s)
  {
    if Deleting(s.workers[0]) then 0 else AcceptedGeneration(s)
  }

  ghost predicate OneWorker(s: State) {
    && |s.workers| == (if s.known then 1 else 0)
    && (!s.known ==> s == INIT)
  }

  function LastStatus(last: Option<Done>): Status {
    match last
    case None => InPhase(Accepted)
    case Some(d) => var all := Statuses(d.job, d.calls); all[|all| - 1]
  }

  /** What the release shows is the status at the worker's position, or the last one of the last job. */
  ghost predicate ShowsItsJob(s: State)
    requires |s.workers| == 1
  {
    var w := s.workers[0];
    if w.Running? then
      var all := Statuses(w.job, w.calls);
      && 1 <= w.shown <= |all| && s.status == all[w.shown - 1]
      && (w.shown == |all| ==> s.last == Some(Done(w.job, w.calls)))
    else s.status == LastStatus(s.last)
  }

  /** What holds whatever generations are asked for. */
  ghost predicate Base(s: State) { OneWorker(s) && (s.known ==> ShowsItsJob(s)) }

  /** The generation asked for is not below the one accepted last. */
  predicate InOrder(s: State, step: Step) { step.Call? ==> step.wanted >= Floor(s) && step.wanted >= 1 }

  /** The accepted generation is that of the worker's update, or of the last job when there is none. */
  ghost predicate KnowsGeneration(s: State)
    requires |s.workers| == 1
  {
    var w, g := s.workers[0], AcceptedGeneration(s);
    && (s.caller.Sent? ==> g >= 1 && !((w.Pending? || w.Running?) && w.job.Delete?))
    && (s.caller.Sending? && s.caller.job.Update? ==> s.caller.job.generation >= 1)
    && (s.caller.Added? || s.caller.Read? ==> s.caller.wanted >= 1)
    && ((w.Pending? || w.Running?) && w.job.Update? ==> w.job.generation == g >= 1)
    && (s.last.Some? && s.last.value.job.Update? ==> s.last.value.job.generation >= 1)
    && (w.Pending? && w.job.Update? && s.last.Some? && s.last.value.job.Update? ==> s.last.value.job.generation <= g)
    && (w.Busy? || w.Receiving? || (w.Pending? && w.job.Delete?) ==>
          g == if s.last.Some? && s.last.value.job.Update? then s.last.value.job.generation else 0)
    && (w.Running? && w.job.Delete? ==> w.shown <= |Statuses(w.job, w.calls)|)
    && (s.caller.Added? || s.caller.Read? || (s.caller.Sending? && s.caller.job.Update?) ==>
          Current(s) <= Wanted(s.caller))
  }

  /** Another start for the generation is still within the bound. */
  ghost predicate Slack(s: State, g: nat) {
    s.since[Started(g)] <= s.since[EndedForRetry(g)] + s.since[StaleRead(g)]
  }

  ghost predicate Counted(s: State)
    requires |s.workers| == 1
  {
    var w, g := s.workers[0], Current(s);
    && (forall h :: h > g ==> s.since[Started(h)] == 0)
    && s.since[Started(0)] == 0
    && (forall h :: s.since[Started(h)] <= 1 + s.since[EndedForRetry(h)] + s.since[StaleRead(h)])
    && (s.status.retry && !(w.Pending? && w.job.Update?) ==> Slack(s, g))
    && (s.caller.Read? && s.caller.retry && s.caller.wanted == g ==> Slack(s, g))
    && (s.caller.Sending? && s.caller.job == Update(g) ==> Slack(s, g))
  }

  ghost predicate Inv(s: State) {
    OneWorker(s) && (s.known ==> ShowsItsJob(s) && KnowsGeneration(s) && Counted(s))
  }

  lemma CallerStepKeepsInv(s: State, step: Step)
    requires Inv(s) && Enabled(s, step)
    requires step.Decide? || step.Refused? || step.Store?
    ensures Inv(Do(s, step))
  {
    hide Statuses, LastStatus;
  }

  lemma CallKeepsInv(s: State, step: Step)
    requires Inv(s) && Enabled(s, step) && InOrder(s, step)
    requires step.Call? || step.CallDelete?
    ensures Inv(Do(s, step))
  {
    hide Statuses, Trace;
    if s.known {
      assert Floor(s) == Current(s);
      hide Floor, LastStatus, ShowsItsJob;
    }
  }

  lemma ReadKeepsInv(s: State)
    requires Inv(s) && Enabled(s, ReadStatus)
    ensures Inv(Do(s, ReadStatus))
  {
    assert AwaitsUpdate(s) <==> s.workers[0].Pending? && s.workers[0].job.Update?;
    hide Statuses, LastStatus, AwaitsUpdate, Floor;
  }

  lemma SendKeepsInv(s: State, i: nat)
    requires Inv(s) && Enabled(s, Send(i))
    ensures Inv(Do(s, Send(i)))
  {
    hide Statuses, LastStatus;
  }

  lemma IdleStepKeepsInv(s: State, step: Step)
    requires Inv(s) && Enabled(s, step)
    requires step.Receive? || step.Finish?
    ensures Inv(Do(s, step))
  {
    hide Statuses;
  }

  lemma BeginKeepsInv(s: State, i: nat, calls: Calls)
    requires Inv(s) && Enabled(s, Begin(i, calls))
    ensures Inv(Do(s, Begin(i, calls)))
  {
    var w, t := s.workers[0], Do(s, Begin(i, calls));
    assert |Statuses(w.job, calls)| >= 2 && !Statuses(w.job, calls)[0].retry;
    hide Statuses, LastStatus;
    if w.job.Delete? && s.status.phase == Deleted {
      assert ShowsItsJob(t);
    }
  }

  lemma ShowKeepsCounted(s: State, i: nat)
    requires Inv(s) && Enabled(s, Show(i))
    ensures Counted(Do(s, Show(i)))
  {
    hide Statuses, LastStatus, ShowsItsJob, Floor, Trace;
    OnlyLastIsRetry(s.workers[0].job, s.workers[0].calls, s.workers[0].shown);
  }

  // Only its last status raises the flag of an update.
  lemma OnlyLastIsRetry(job: Job, calls: Calls, n: nat)
    requires n < |Statuses(job, calls)|
    ensures job.Update? && Statuses(job, calls)[n].retry ==> n + 1 == |Statuses(job, calls)|
  {
  }

  lemma ShowKeepsInv(s: State, i: nat)
    requires Inv(s) && Enabled(s, Show(i))
    ensures Inv(Do(s, Show(i)))
  {
    hide Statuses, LastStatus, Counted, Floor, Trace;
    ShowKeepsCounted(s, i);
  }

  lemma StepKeepsInv(s: State, step: Step)
    requires Inv(s) && Enabled(s, step) && InOrder(s, step)
    ensures Inv(Do(s, step))
  {
    hide Inv, Enabled, Do, InOrder;
    match step
    case Call(_) | CallDelete => CallKeepsInv(s, step);
    case ReadStatus => ReadKeepsInv(s);
    case Send(i) => SendKeepsInv(s, i);
    case Receive(_) | Finish(_) => IdleStepKeepsInv(s, step);
    case Begin(i, calls) => BeginKeepsInv(s, i, calls);
    case Show(i) => ShowKeepsInv(s, i);
    case _ => CallerStepKeepsInv(s, step);
  }

  /** The first n steps ask for no generation below the one accepted last. */
  ghost predicate AsksInOrder(states: seq<State>, steps: seq<Step>, n: nat)
    requires n <= |steps| <= |states|
  {
    forall i :: 0 <= i < n ==> InOrder(states[i], steps[i])
  }

  lemma {:induction false} RunKeepsInv(states: seq<State>, steps: seq<Step>, n: nat)
    requires IsRun(states, steps) && n < |states| == |steps| + 1 && AsksInOrder(states, steps, n)
    ensures Inv(states[n])
  {
    hide InOrder;
    if n > 0 {
      RunKeepsInv(states, steps, n - 1);
      StepKeepsInv(states[n - 1], steps[n - 1]);
    }
  }

  lemma JobKeepsBase(s: State, step: Step)
    requires Base(s) && Enabled(s, step) && (step.Begin? || step.Show?)
    ensures Base(Do(s, step))
  {
    hide Statuses, Trace, Floor, AwaitsUpdate;
    match step
    case Begin(i, calls) => JobHasSteps(s.workers[0].job, calls);
    case Show(_) =>
  }

  /** Every job shows two statuses at least. */
  lemma JobHasSteps(job: Job, calls: Calls)
    ensures |Statuses(job, calls)| >= 2
  {
  }

  lemma StepKeepsBase(s: State, step: Step)
    requires Base(s) && Enabled(s, step)
    ensures Base(Do(s, step))
  {
    hide Statuses, Trace, Floor, AwaitsUpdate;
    if step.Begin? || step.Show? {
      JobKeepsBase(s, step);
    }
  }

  lemma {:induction false} RunKeepsBase(states: seq<State>, steps: seq<Step>, n: nat)
    requires IsRun(states, steps) && n < |states|
    ensures Base(states[n])
  {
    hide Enabled, Do;
    if n > 0 {
      RunKeepsBase(states, steps, n - 1);
      StepKeepsBase(states[n - 1], steps[n - 1]);
    }
  }

  // ----- What holds in every run -----

  predicate Executes(w: Worker) { w.Pending? || w.Running? }

  /** A release never has two jobs at once, because it never has two workers. */
  lemma OneJobAtATime(states: seq<State>, steps: seq<Step>, n: nat, i: nat, j: nat)
    requires IsRun(states, steps) && n < |states|
    requires i < |states[n].workers| && j < |states[n].workers|
    requires Executes(states[n].workers[i]) && Executes(states[n].workers[j])
    ensures i == j
  {
    RunKeepsBase(states, steps, n);
  }

  /** No status is read between the acceptance of an update and its first phase; so it is in particular when the
      two are one step. */
  ghost predicate ReadsSeeFirstPhase(states: seq<State>, steps: seq<Step>)
    requires |states| == |steps| + 1
  {
    forall i :: 0 <= i < |steps| && steps[i].ReadStatus? ==> !AwaitsUpdate(states[i])
  }

  lemma {:induction false} NoStaleReads(states: seq<State>, steps: seq<Step>, n: nat, g: nat)
    requires IsRun(states, steps) && n < |states| && ReadsSeeFirstPhase(states, steps)
    ensures states[n].since[StaleRead(g)] == 0
  {
    if n > 0 {
      NoStaleReads(states, steps, n - 1, g);
      assert states[n] == Do(states[n - 1], steps[n - 1]);
      hide Trace, AwaitsUpdate;
    }
  }

  /** Between deletions, an update for a generation starts at most once, plus once for every one that ended with
      the retry flag, plus once for every stale read of that flag; and without such reads there are none. This is if the
      generations asked for do not fall. */
  lemma UpdatesPerGeneration(states: seq<State>, steps: seq<Step>, n: nat, g: nat)
    requires IsRun(states, steps) && n < |states| == |steps| + 1 && AsksInOrder(states, steps, n)
    ensures
      var since := states[n].since;
      && since[Started(g)] <= 1 + since[EndedForRetry(g)] + since[StaleRead(g)]
      && (ReadsSeeFirstPhase(states, steps) ==> since[Started(g)] <= 1 + since[EndedForRetry(g)])
  {
    RunKeepsInv(states, steps, n);
    if ReadsSeeFirstPhase(states, steps) {
      NoStaleReads(states, steps, n, g);
    }
  }

  /** The start of an update for the accepted generation although the flag is not up: the last one did not end for a
      retry. */
  predicate Superfluous(s: State, step: Step) {
    step.Send? && s.caller.Sending? && s.caller.job.Update? && s.caller.job.generation == Floor(s) && !s.status.retry
  }

  /** Of the accepted generation, every update but the last one has ended for a retry, and the last one has exactly if
      the flag is up and no update waits. */
  ghost predicate Exact(s: State) {
    var g := Floor(s);
    && (forall h :: s.since[Started(h)] <= 1 + s.since[EndedForRetry(h)])
    && (forall h :: h > g ==> s.since[EndedForRetry(h)] == 0)
    && (g >= 1 ==>
          s.since[Started(g)] == s.since[EndedForRetry(g)] + if s.status.retry && !AwaitsUpdate(s) then 0 else 1)
  }

  lemma JobIsSent(s: State, i: nat)
    requires Inv(s) && Enabled(s, Send(i))
    ensures
      var t, job := Do(s, Send(i)), s.caller.job;
      && !AwaitsUpdate(s) && (AwaitsUpdate(t) <==> job.Update?) && t.status == s.status
      && (if job.Update? then
            && Floor(t) == job.generation && job.generation >= Floor(s) && job.generation >= 1
            && t.since == s.since + multiset{Started(job.generation)}
          else Floor(t) == Floor(s) && t.since == s.since)
      && (forall h :: h > Floor(s) ==> s.since[Started(h)] == 0)
  {
    hide Floor, AwaitsUpdate, Statuses, LastStatus, ShowsItsJob;
    SendKeepsInv(s, i);
    AwaitsAndFloor(s);
    AwaitsAndFloor(Do(s, Send(i)));
  }

  lemma SendIsExact(s: State, i: nat)
    requires Inv(s) && Enabled(s, Send(i)) && Exact(s)
    ensures !Superfluous(s, Send(i)) ==> Exact(Do(s, Send(i)))
    ensures Superfluous(s, Send(i)) ==>
      var g, since := s.caller.job.generation, Do(s, Send(i)).since;
      since[Started(g)] == 2 + since[EndedForRetry(g)]
  {
    hide Inv, Do, Floor, AwaitsUpdate;
    JobIsSent(s, i);
  }

  lemma ReadIsExact(s: State)
    requires Inv(s) && Enabled(s, ReadStatus) && Exact(s)
    ensures Exact(Do(s, ReadStatus))
  {
    hide Floor, AwaitsUpdate, Statuses;
    ReadKeepsInv(s);
    AwaitsAndFloor(s);
    AwaitsAndFloor(Do(s, ReadStatus));
  }

  lemma CallIsExact(s: State, step: Step)
    requires Inv(s) && Enabled(s, step) && InOrder(s, step) && Exact(s) && (step.Call? || step.CallDelete?)
    ensures Exact(Do(s, step))
  {
    hide Floor, AwaitsUpdate, Statuses, Trace, LastStatus, ShowsItsJob;
    CallKeepsInv(s, step);
    AwaitsAndFloor(s);
    AwaitsAndFloor(Do(s, step));
  }

  lemma OtherIsExact(s: State, step: Step)
    requires Inv(s) && Enabled(s, step) && Exact(s)
    requires step.Decide? || step.Refused? || step.Store? || step.Receive? || step.Finish?
    ensures Exact(Do(s, step))
  {
    hide Floor, AwaitsUpdate, Statuses, Trace, LastStatus, ShowsItsJob;
    StepKeepsInv(s, step);
    AwaitsAndFloor(s);
    AwaitsAndFloor(Do(s, step));
  }

  // What a step of a job means for the counts.
  lemma UpdateBegins(s: State, i: nat, calls: Calls)
    requires Inv(s) && Enabled(s, Begin(i, calls)) && s.workers[i].job.Update?
    ensures
      var t := Do(s, Begin(i, calls));
      && Floor(t) == Floor(s) && t.since == s.since && AwaitsUpdate(s) && !AwaitsUpdate(t) && !t.status.retry
  {
    var w, t := s.workers[0], Do(s, Begin(i, calls));
    assert |Statuses(w.job, calls)| >= 2 && !Statuses(w.job, calls)[0].retry;
    hide Statuses, LastStatus, Floor, AwaitsUpdate, Counted;
    BeginKeepsInv(s, i, calls);
    AwaitsAndFloor(s);
    AwaitsAndFloor(t);
  }

  lemma UpdateShows(s: State, i: nat)
    requires Inv(s) && Enabled(s, Show(i)) && s.workers[i].job.Update?
    ensures
      var t := Do(s, Show(i));
      && Floor(t) == Floor(s) == s.workers[i].job.generation >= 1 && !AwaitsUpdate(s) && !AwaitsUpdate(t)
         && !s.status.retry
      && t.since == if t.status.retry then s.since + multiset{EndedForRetry(Floor(s))} else s.since
  {
    var w, t := s.workers[0], Do(s, Show(i));
    hide Statuses, LastStatus, Floor, AwaitsUpdate, Counted, Trace;
    OnlyLastIsRetry(w.job, w.calls, w.shown - 1);
    OnlyLastIsRetry(w.job, w.calls, w.shown);
    ShowKeepsInv(s, i);
    AwaitsAndFloor(s);
    AwaitsAndFloor(t);
  }

  lemma DeletionBegins(s: State, i: nat, calls: Calls)
    requires Inv(s) && Enabled(s, Begin(i, calls)) && s.workers[i].job.Delete?
    ensures
      var t := Do(s, Begin(i, calls));
      && !AwaitsUpdate(s) && !AwaitsUpdate(t)
      && (|| (Floor(t) == Floor(s) && t.status == s.status && t.since == s.since)
          || (Floor(t) == 0 && (t.since == multiset{} || (t.since == s.since && Floor(s) == 0))))
  {
    hide Statuses, LastStatus, Floor, AwaitsUpdate, Counted, Trace, ShowsItsJob;
    BeginKeepsInv(s, i, calls);
    AwaitsAndFloor(s);
    AwaitsAndFloor(Do(s, Begin(i, calls)));
  }

  lemma DeletionShows(s: State, i: nat)
    requires Inv(s) && Enabled(s, Show(i)) && s.workers[i].job.Delete?
    ensures
      var t := Do(s, Show(i));
      && !AwaitsUpdate(s) && !AwaitsUpdate(t)
      && (|| (Floor(t) == Floor(s) && t.status == s.status && t.since == s.since)
          || (Floor(t) == 0 && (t.since == multiset{} || (t.since == s.since && Floor(s) == 0))))
  {
    hide Statuses, LastStatus, Floor, AwaitsUpdate, Counted, Trace, ShowsItsJob;
    ShowKeepsInv(s, i);
    AwaitsAndFloor(s);
    AwaitsAndFloor(Do(s, Show(i)));
  }

  lemma JobIsExact(s: State, step: Step)
    requires Inv(s) && Enabled(s, step) && Exact(s) && (step.Begin? || step.Show?)
    ensures Exact(Do(s, step))
  {
    hide Inv, Do, Floor, AwaitsUpdate;
    match step
    case Begin(i, calls) =>
      if s.workers[i].job.Delete? {
        DeletionBegins(s, i, calls);
      } else {
        UpdateBegins(s, i, calls);
      }
    case Show(i) => if s.workers[i].job.Delete? { DeletionShows(s, i); } else { UpdateShows(s, i); }
  }

  lemma StepIsExact(s: State, step: Step)
    requires Inv(s) && Enabled(s, step) && InOrder(s, step) && Exact(s)
    ensures !Superfluous(s, step) ==> Exact(Do(s, step))
    ensures Superfluous(s, step) ==>
      var g, since := s.caller.job.generation, Do(s, step).since;
      since[Started(g)] == 2 + since[EndedForRetry(g)]
  {
    hide Inv, Enabled, Do, Exact;
    match step
    case ReadStatus => ReadIsExact(s);
    case Send(i) => SendIsExact(s, i);
    case Begin(_, _) | Show(_) => JobIsExact(s, step);
    case Call(_) | CallDelete => CallIsExact(s, step);
    case _ => OtherIsExact(s, step);
  }

  lemma {:induction false} RunIsExact(states: seq<State>, steps: seq<Step>, n: nat)
    requires IsRun(states, steps) && n < |states| == |steps| + 1 && AsksInOrder(states, steps, n)
    requires forall i :: 0 <= i < n ==> !Superfluous(states[i], steps[i])
    ensures Exact(states[n])
  {
    hide Enabled, Do, Superfluous, Inv;
    if n > 0 {
      RunIsExact(states, steps, n - 1);
      RunKeepsInv(states, steps, n - 1);
      StepIsExact(states[n - 1], steps[n - 1]);
    }
  }

  /** Between deletions, no more updates start for a generation than one and one for every one that ended for a
      retry. */
  ghost predicate WithinRetries(s: State) {
    forall g :: s.since[Started(g)] <= 1 + s.since[EndedForRetry(g)]
  }

  /** The first superfluous start of a run exceeds the retries, and the flag for it was read while an update waited. */
  lemma SuperfluousExceeds(states: seq<State>, steps: seq<Step>, i: nat)
    requires IsRun(states, steps) && i < |steps| < |states| && AsksInOrder(states, steps, i + 1)
    requires Superfluous(states[i], steps[i])
    requires forall j :: 0 <= j < i ==> !Superfluous(states[j], steps[j])
    ensures !WithinRetries(states[i + 1])
    ensures states[i + 1].since[StaleRead(states[i].caller.job.generation)] >= 1
  {
    hide Enabled, Do, Inv, Exact;
    RunIsExact(states, steps, i);
    RunKeepsInv(states, steps, i);
    StepIsExact(states[i], steps[i]);
    var g := states[i].caller.job.generation;
    assert states[i + 1].since[Started(g)] == 2 + states[i + 1].since[EndedForRetry(g)];
    UpdatesPerGeneration(states, steps, i + 1, g);
  }

  // ----- Whatever generations are asked for -----

  predicate Starts(s: State, step: Step) { step.Send? && s.caller.Sending? && s.caller.job.Update? }

  predicate BeginsDeletion(s: State, step: Step) {
    && step.Begin? && step.i < |s.workers| && s.workers[step.i].Pending? && s.workers[step.i].job.Delete?
    && s.status.phase != Deleted
  }

  /** The last status of an update is shown, and raises the flag. */
  predicate RaisesFlag(s: State, step: Step) {
    && step.Show? && step.i < |s.workers| && s.workers[step.i].Running? && s.workers[step.i].job.Update?
    && var all, n := Statuses(s.workers[step.i].job, s.workers[step.i].calls), s.workers[step.i].shown;
    n + 1 == |all| && all[n].retry
  }

  function NextOpen(open: set<nat>, s: State, step: Step): set<nat> {
    if Starts(s, step) then open + {s.caller.job.generation}
    else if BeginsDeletion(s, step) then {}
    else if RaisesFlag(s, step) then open - {s.workers[step.i].job.generation}
    else open
  }

  /** The generations whose last update, of those since the last deletion began, has not ended for a retry. */
  function Open(states: seq<State>, steps: seq<Step>, n: nat): set<nat>
    requires n <= |steps| <= |states|
  {
    if n == 0 then {} else NextOpen(Open(states, steps, n - 1), states[n - 1], steps[n - 1])
  }

  /** The start of another update for such a generation. */
  predicate Reopens(open: set<nat>, s: State, step: Step) { Starts(s, step) && s.caller.job.generation in open }

  ghost predicate Balanced(s: State, open: set<nat>) {
    && (forall g :: s.since[Started(g)] == s.since[EndedForRetry(g)] + if g in open then 1 else 0)
    && forall i :: 0 <= i < |s.workers| && Unfinished(s.workers[i]) ==> s.workers[i].job.generation in open
  }

  predicate Unfinished(w: Worker) {
    (w.Pending? || (w.Running? && w.shown < |Statuses(w.job, w.calls)|)) && w.job.Update?
  }

  lemma StepKeepsBalanced(s: State, step: Step, open: set<nat>)
    requires Base(s) && Enabled(s, step) && Balanced(s, open)
    ensures !Reopens(open, s, step) ==> Balanced(Do(s, step), NextOpen(open, s, step))
    ensures Reopens(open, s, step) ==> !WithinRetries(Do(s, step))
  {
    hide Base, Balanced, Do, Enabled, NextOpen;
    match step
    case Begin(i, calls) => BeginIsBalanced(s, i, calls, open);
    case Show(i) => ShowIsBalanced(s, i, open);
    case Send(i) => SendIsBalanced(s, i, open);
    case _ => OtherIsBalanced(s, step, open);
  }

  lemma SendIsBalanced(s: State, i: nat, open: set<nat>)
    requires Base(s) && Enabled(s, Send(i)) && Balanced(s, open)
    ensures !Reopens(open, s, Send(i)) ==> Balanced(Do(s, Send(i)), NextOpen(open, s, Send(i)))
    ensures Reopens(open, s, Send(i)) ==> !WithinRetries(Do(s, Send(i)))
  {
    hide Trace, Floor, LastStatus, Statuses, ShowsItsJob;
    if Reopens(open, s, Send(i)) {
      var g, t := s.caller.job.generation, Do(s, Send(i));
      assert t.since[Started(g)] == 2 + t.since[EndedForRetry(g)];
    }
  }

  lemma OtherIsBalanced(s: State, step: Step, open: set<nat>)
    requires Base(s) && Enabled(s, step) && Balanced(s, open) && !step.Begin? && !step.Show? && !step.Send?
    ensures Balanced(Do(s, step), NextOpen(open, s, step))
  {
    hide Trace, Floor, LastStatus, Statuses, ShowsItsJob, AwaitsUpdate;
  }

  lemma BeginIsBalanced(s: State, i: nat, calls: Calls, open: set<nat>)
    requires Base(s) && Enabled(s, Begin(i, calls)) && Balanced(s, open)
    ensures Balanced(Do(s, Begin(i, calls)), NextOpen(open, s, Begin(i, calls)))
  {
    hide Trace, Floor, LastStatus, Statuses, ShowsItsJob;
    JobHasSteps(s.workers[i].job, calls);
  }

  lemma ShowIsBalanced(s: State, i: nat, open: set<nat>)
    requires Base(s) && Enabled(s, Show(i)) && Balanced(s, open)
    ensures Balanced(Do(s, Show(i)), NextOpen(open, s, Show(i)))
  {
    hide Trace, Floor, LastStatus, Statuses, ShowsItsJob;
    OnlyLastIsRetry(s.workers[i].job, s.workers[i].calls, s.workers[i].shown);
    assert Unfinished(s.workers[i]) <==> s.workers[i].job.Update?;
  }

  lemma {:induction false} RunIsBalanced(states: seq<State>, steps: seq<Step>, n: nat)
    requires IsRun(states, steps) && n < |states| == |steps| + 1
    requires forall i :: 0 <= i < n ==> !Reopens(Open(states, steps, i), states[i], steps[i])
    ensures Balanced(states[n], Open(states, steps, n))
  {
    hide Enabled, Do, Reopens, Base, NextOpen;
    if n > 0 {
      RunIsBalanced(states, steps, n - 1);
      RunKeepsBase(states, steps, n - 1);
      StepKeepsBalanced(states[n - 1], steps[n - 1], Open(states, steps, n - 1));
    }
  }

  /** In every run, whatever generations are asked for, updates start within the retries if and only if none starts for
      a generation whose last update has not ended for a retry. */
  lemma WithinRetriesIffNoneReopens(states: seq<State>, steps: seq<Step>, n: nat)
    requires IsRun(states, steps) && n < |states| == |steps| + 1
    ensures (forall i :: 0 <= i <= n ==> WithinRetries(states[i])) <==>
      forall i :: 0 <= i < n ==> !Reopens(Open(states, steps, i), states[i], steps[i])
  {
    hide IsRun, Reopens, Open;
    if forall i :: 0 <= i < n ==> !Reopens(Open(states, steps, i), states[i], steps[i]) {
      forall i | 0 <= i <= n ensures WithinRetries(states[i]) {
        RunIsBalanced(states, steps, i);
        BalancedIsWithin(states[i], Open(states, steps, i));
      }
    } else {
      var i := FirstReopened(states, steps, n);
      FirstExceeds(states, steps, i);
    }
  }

  lemma BalancedIsWithin(s: State, open: set<nat>)
    requires Balanced(s, open)
    ensures WithinRetries(s)
  {
  }

  lemma FirstExceeds(states: seq<State>, steps: seq<Step>, i: nat)
    requires IsRun(states, steps) && i < |steps| < |states| == |steps| + 1
    requires Reopens(Open(states, steps, i), states[i], steps[i])
    requires forall j :: 0 <= j < i ==> !Reopens(Open(states, steps, j), states[j], steps[j])
    ensures !WithinRetries(states[i + 1])
  {
    hide Enabled, Do, Reopens, Base, Open;
    RunIsBalanced(states, steps, i);
    RunKeepsBase(states, steps, i);
    StepKeepsBalanced(states[i], steps[i], Open(states, steps, i));
  }

  lemma FirstReopened(states: seq<State>, steps: seq<Step>, n: nat) returns (i: nat)
    requires n <= |steps| <= |states|
    requires exists j :: 0 <= j < n && Reopens(Open(states, steps, j), states[j], steps[j])
    ensures i < n && Reopens(Open(states, steps, i), states[i], steps[i])
    ensures forall j :: 0 <= j < i ==> !Reopens(Open(states, steps, j), states[j], steps[j])
  {
    hide Reopens, Open;
    i := 0;
    while !Reopens(Open(states, steps, i), states[i], steps[i])
      invariant i < n && forall j :: 0 <= j < i ==> !Reopens(Open(states, steps, j), states[j], steps[j])
      decreases n - i
    {
      i := i + 1;
    }
  }

  // ----- If the generations asked for do not fall -----

  /** When the stale reads do no harm: in all states of a run whose requests do not fall, updates start within the
      retries if and only if none starts for the accepted generation while the flag is down. */
  lemma WithinRetriesIff(states: seq<State>, steps: seq<Step>, n: nat)
    requires IsRun(states, steps) && n < |states| == |steps| + 1 && AsksInOrder(states, steps, n)
    ensures (forall i :: 0 <= i <= n ==> WithinRetries(states[i])) <==>
      forall i :: 0 <= i < n ==> !Superfluous(states[i], steps[i])
  {
    hide IsRun, Superfluous;
    RunLength(states, steps);
    if forall i :: 0 <= i < n ==> !Superfluous(states[i], steps[i]) {
      forall i | 0 <= i <= n ensures WithinRetries(states[i]) { RunIsExact(states, steps, i); }
    } else {
      var i := First(states, steps, n);
      SuperfluousExceeds(states, steps, i);
    }
  }

  lemma RunLength(states: seq<State>, steps: seq<Step>)
    requires IsRun(states, steps)
    ensures |states| == |steps| + 1
  {
  }

  lemma First(states: seq<State>, steps: seq<Step>, n: nat) returns (i: nat)
    requires n <= |steps| <= |states| && exists j :: 0 <= j < n && Superfluous(states[j], steps[j])
    ensures i < n && Superfluous(states[i], steps[i]) && forall j :: 0 <= j < i ==> !Superfluous(states[j], steps[j])
  {
    i := 0;
    while !Superfluous(states[i], steps[i])
      invariant i < n && forall j :: 0 <= j < i ==> !Superfluous(states[j], steps[j])
      decreases n - i
    {
      i := i + 1;
    }
  }

  predicate Succeeded(d: Done) { d.job.Update? && d.calls.load.None? && d.calls.synk.None? }

  /** What the last error of the job was, if it could be retried. */
  predicate EndsForRetry(d: Done) {
    d.job.Update? && if d.calls.load.Some? then d.calls.load.value.retry
                     else d.calls.synk.Some? && d.calls.synk.value.retry
  }

  lemma SettledFacts(s: State)
    requires Base(s)
    ensures
      && (s.status.phase == Settled ==>
            s.status.err.None? && !s.status.retry && s.last.Some? && Succeeded(s.last.value))
      && ((forall w :: w in s.workers ==> !w.Running?) ==>
            (s.status.phase == Settled <==> s.last.Some? && Succeeded(s.last.value)))
      && s.status.phase != Ready
  {
    if s.known {
      assert s.workers[0] in s.workers;
    }
  }

  lemma SettledIsAccepted(s: State)
    requires Inv(s) && s.status.phase == Settled && !AwaitsUpdate(s)
    ensures s.last.Some? && s.last.value.job.Update? && s.last.value.job.generation == AcceptedGeneration(s)
  {
    hide Counted;
    assert s.workers[0] in s.workers;
    assert AwaitsUpdate(s) <==> s.workers[0].Pending? && s.workers[0].job.Update?;
  }

  /** An update waits that is not for the generation of the last job. */
  predicate AwaitsOther(s: State) {
    exists i :: 0 <= i < |s.workers| && s.workers[i].Pending? && s.workers[i].job.Update?
      && !(s.last.Some? && s.last.value.job == s.workers[i].job)
  }

  /** Settled tells of the accepted generation unless an update of another one waits; then of an earlier one. */
  lemma SettledGeneration(s: State)
    requires Inv(s) && s.status.phase == Settled
    ensures s.last.Some? && s.last.value.job.Update? && Floor(s) == AcceptedGeneration(s) >= 1
    ensures if AwaitsOther(s) then s.last.value.job.generation < AcceptedGeneration(s)
            else s.last.value.job.generation == AcceptedGeneration(s)
  {
    hide Counted;
    SettledFacts(s);
    AwaitsAndFloor(s);
    assert s.workers[0] in s.workers;
    var w := s.workers[0];
    assert AwaitsOther(s) <==> w.Pending? && w.job.Update? && s.last.value.job != w.job;
  }

  /** What the result of ensureUpdated tells: true means that the generation asked for is the accepted one, or that a
      deletion has begun. */
  lemma TrueMeansAccepted(s: State, step: Step)
    requires Enabled(s, step)
    ensures step.Decide? && Do(s, step).caller.AtRest? ==>
      Floor(Do(s, step)) == 0 || Floor(Do(s, step)) == s.caller.wanted
    ensures step.Store? ==> Floor(Do(s, step)) == 0 || Floor(Do(s, step)) == s.caller.generation
  {
  }

  /** Settled means that there is no error, no retry flag, and that the last job to end was an update whose chart
      loaded and whose Apply succeeded. Between jobs it is equivalent. If the generations asked for do not fall, the job
      was for the one that was accepted last, unless an update is waiting. */
  lemma SettledMeansApplied(states: seq<State>, steps: seq<Step>, n: nat)
    requires IsRun(states, steps) && n < |states| == |steps| + 1
    ensures
      var s := states[n];
      && (s.status.phase == Settled ==>
            && s.status.err.None? && !s.status.retry && s.last.Some? && Succeeded(s.last.value)
            && (AsksInOrder(states, steps, n) && !AwaitsUpdate(s) ==>
                  s.last.value.job.generation == AcceptedGeneration(s)))
      && ((forall w :: w in s.workers ==> !w.Running?) ==>
            (s.status.phase == Settled <==> s.last.Some? && Succeeded(s.last.value)))
  {
    hide IsRun, InOrder, Inv;
    RunKeepsBase(states, steps, n);
    SettledFacts(states[n]);
    if AsksInOrder(states, steps, n) && states[n].status.phase == Settled && !AwaitsUpdate(states[n]) {
      RunKeepsInv(states, steps, n);
      SettledIsAccepted(states[n]);
    }
  }

  /** The retry flag comes with an error, and never with Settled, Failed or Deleted. Between jobs it is up exactly
      when the last job ended for an error that can be retried. */
  lemma RetryMeansError(states: seq<State>, steps: seq<Step>, n: nat)
    requires IsRun(states, steps) && n < |states|
    ensures
      var s := states[n];
      && (s.status.retry ==> s.status.err.Some? && s.status.phase in {LoadingChart, Updating, Phase.Deleting})
      && ((forall w :: w in s.workers ==> !w.Running?) ==>
            (s.status.retry <==> s.last.Some? && EndsForRetry(s.last.value)))
  {
    RunKeepsBase(states, steps, n);
    var s := states[n];
    if s.known {
      assert s.workers[0] in s.workers;
    }
  }

  lemma AwaitsAndFloor(s: State)
    requires Inv(s)
    ensures s.known ==> AwaitsUpdate(s) == (s.workers[0].Pending? && s.workers[0].job.Update?) && Floor(s) == Current(s)
    ensures !s.known ==> !AwaitsUpdate(s) && Floor(s) == 0
    ensures s.status.phase != Ready
  {
    if s.known {
      assert Floor(s) == Current(s);
      assert s.workers[0] in s.workers;
    }
  }

  /** No step but the start of an update raises the accepted generation, and none but a job's own enters Deleted. */
  lemma OtherStepFacts(s: State, step: Step)
    requires Inv(s) && Enabled(s, step) && InOrder(s, step) && !step.Begin? && !step.Show?
    ensures
      var t := Do(s, step);
      && (if step.Send? && s.caller.job.Update? then Floor(t) == s.caller.job.generation && AwaitsUpdate(t)
          else Floor(t) == Floor(s) || Floor(t) == 0)
      && (t.status.phase == Deleted && !AwaitsUpdate(t) ==> s.status.phase == Deleted && !AwaitsUpdate(s))
  {
    var t := Do(s, step);
    StepKeepsInv(s, step);
    AwaitsAndFloor(s);
    AwaitsAndFloor(t);
    hide Counted, Floor, AwaitsUpdate, Statuses, Trace, LastStatus;
  }

  /** In phase Deleted no generation is accepted any more, unless a new update waits. */
  lemma DeletedHasNoGeneration(s: State)
    requires Inv(s) && s.status.phase == Deleted && !AwaitsUpdate(s)
    ensures Floor(s) == 0
  {
    AwaitsAndFloor(s);
    hide Counted, Floor, AwaitsUpdate;
  }

  // What a step of a job leaves alone.
  lemma JobStepFrame(s: State, step: Step)
    requires OneWorker(s) && Enabled(s, step) && (step.Begin? || step.Show?)
    ensures
      var t := Do(s, step);
      && s.known && t.known && |s.workers| == |t.workers| == 1
      && t.caller == s.caller && t.generation == s.generation && !t.workers[0].Pending?
      && !s.workers[0].Busy? && (Deleting(s.workers[0]) ==> Deleting(t.workers[0]))
  {
    hide Statuses, Trace;
  }

  lemma JobStepFacts(s: State, step: Step)
    requires Inv(s) && Enabled(s, step) && (step.Begin? || step.Show?)
    ensures Floor(Do(s, step)) == Floor(s) || Floor(Do(s, step)) == 0
    ensures !AwaitsUpdate(Do(s, step)) && Do(s, step).caller == s.caller
  {
    JobStepFrame(s, step);
    hide Do, Enabled, Floor, AwaitsUpdate;
    StepKeepsInv(s, step);
    AwaitsAndFloor(s);
    AwaitsAndFloor(Do(s, step));
    hide Inv;
  }

  /** The worker neither has a deletion nor is about to begin one. */
  ghost predicate NoDeletion(s: State) {
    forall i :: 0 <= i < |s.workers| && Executes(s.workers[i]) ==> s.workers[i].job.Update?
  }

  lemma AwaitsNoDeletion(s: State)
    requires Inv(s) && AwaitsUpdate(s)
    ensures NoDeletion(s) && Floor(s) >= 1
  {
    hide Counted, Floor;
    AwaitsAndFloor(s);
  }

  lemma UpdateIsNoDeletion(job: Job, calls: Calls, n: nat)
    requires job.Update? && n < |Statuses(job, calls)|
    ensures Statuses(job, calls)[n].phase != Deleted
  {
  }

  /** Until the caller sends a deletion there is none, and no phase Deleted comes up. */
  lemma NoDeletionStays(s: State, step: Step)
    requires Inv(s) && Enabled(s, step) && NoDeletion(s) && !(step.Send? && s.caller.job.Delete?)
    ensures NoDeletion(Do(s, step))
    ensures step.Begin? || step.Show? ==> Do(s, step).status.phase != Deleted
  {
    hide Counted, KnowsGeneration, ShowsItsJob, Floor, AwaitsUpdate, Statuses, Trace;
    match step
    case Begin(i, calls) =>
      assert |Statuses(s.workers[i].job, calls)| >= 2 by { JobHasSteps(s.workers[i].job, calls); }
      UpdateIsNoDeletion(s.workers[i].job, calls, 0);
    case Show(i) => UpdateIsNoDeletion(s.workers[i].job, s.workers[i].calls, s.workers[i].shown);
    case _ =>
  }

  // ----- What a stale read does -----

  ghost predicate Reachable(s: State) {
    exists states: seq<State>, steps: seq<Step> :: IsRun(states, steps) && states[|steps|] == s
  }

  lemma InitIsReachable()
    ensures Reachable(INIT)
  {
    assert IsRun([INIT], []);
  }

  lemma Then(s: State, step: Step, t: State)
    requires Reachable(s) && Enabled(s, step) && Do(s, step) == t
    ensures Reachable(t)
  {
    var states: seq<State>, steps: seq<Step> :| IsRun(states, steps) && states[|steps|] == s;
    hide Do, Enabled;
    assert IsRun(states + [t], steps + [step]);
  }

  const TRY_AGAIN := Calls(Some(Error("no chart", true)), None)
  const NO_ERROR := Calls(None, None)
  const NOT_LOADED := Status(LoadingChart, Some("no chart"), true)

  function Between(workers: seq<Worker>, status: Status, generation: nat, caller: Caller, since: multiset<Event>,
                   last: Option<Done>): State {
    State(true, workers, status, generation, caller, since, last)
  }

  lemma FirstUpdateIsWanted()
    ensures Reachable(Between([Receiving], InPhase(Accepted), 0, Sending(Update(1)), multiset{}, None))
  {
    var init, none := InPhase(Accepted), multiset{};
    var s1, s2, s3 := Between([Busy], init, 0, Added(1), none, None),
        Between([Receiving], init, 0, Added(1), none, None),
                      Between([Receiving], init, 0, Read(1, false), none, None);
    InitIsReachable();
    Then(INIT, Call(1), s1); Then(s1, Receive(0), s2); Then(s2, ReadStatus, s3);
    Then(s3, Decide, Between([Receiving], init, 0, Sending(Update(1)), none, None));
  }

  lemma FirstUpdateIsAccepted()
    ensures Reachable(Between([Pending(Update(1))], InPhase(Accepted), 1, AtRest, multiset{Started(1)}, None))
  {
    FirstUpdateIsWanted();
    var u, init, m := Update(1), InPhase(Accepted), multiset{Started(1)};
    var s4, s5 := Between([Receiving], init, 0, Sending(u), multiset{}, None),
        Between([Pending(u)], init, 0, Sent(1), m, None);
    Then(s4, Send(0), s5); Then(s5, Store, Between([Pending(u)], init, 1, AtRest, m, None));
  }

  lemma FirstUpdateFails()
    ensures Reachable(Between([Receiving], NOT_LOADED, 1, AtRest, multiset{Started(1), EndedForRetry(1)},
                              Some(Done(Update(1), TRY_AGAIN))))
  {
    FirstUpdateIsAccepted();
    var u, m := Update(1), multiset{Started(1)};
    var end, last := multiset{Started(1), EndedForRetry(1)}, Some(Done(u, TRY_AGAIN));
    var s0, s1 := Between([Pending(u)], InPhase(Accepted), 1, AtRest, m, None),
                  Between([Running(u, TRY_AGAIN, 1)], InPhase(LoadingChart), 1, AtRest, m, None);
    var s2, s3 := Between([Running(u, TRY_AGAIN, 2)], NOT_LOADED, 1, AtRest, end, last),
        Between([Busy], NOT_LOADED, 1, AtRest, end, last);
    Then(s0, Begin(0, TRY_AGAIN), s1); Then(s1, Show(0), s2); Then(s2, Finish(0), s3);
    Then(s3, Receive(0), Between([Receiving], NOT_LOADED, 1, AtRest, end, last));
  }

  lemma SecondUpdateReadWhileWaiting()
    ensures Reachable(Between([Pending(Update(1))], NOT_LOADED, 1, Sending(Update(1)),
                              multiset{Started(1), Started(1), EndedForRetry(1), StaleRead(1)},
                              Some(Done(Update(1), TRY_AGAIN))))
  {
    FirstUpdateFails();
    var u, last, m := Update(1), Some(Done(Update(1), TRY_AGAIN)), multiset{Started(1), EndedForRetry(1)};
    var m2 := m + multiset{Started(1)};
    var s0, s1, s2 := Between([Receiving], NOT_LOADED, 1, AtRest, m, last),
        Between([Receiving], NOT_LOADED, 1, Added(1), m, last),
                      Between([Receiving], NOT_LOADED, 1, Read(1, true), m, last);
    var s3, s4, s5 := Between([Receiving], NOT_LOADED, 1, Sending(u), m, last),
        Between([Pending(u)], NOT_LOADED, 1, Sent(1), m2, last),
                      Between([Pending(u)], NOT_LOADED, 1, AtRest, m2, last);
    var s6, s7 := Between([Pending(u)], NOT_LOADED, 1, Added(1), m2, last),
                  Between([Pending(u)], NOT_LOADED, 1, Read(1, true), m2 + multiset{StaleRead(1)}, last);
    assert AwaitsUpdate(s6) by { assert s6.workers[0].Pending?; }
    Then(s0, Call(1), s1); Then(s1, ReadStatus, s2); Then(s2, Decide, s3); Then(s3, Send(0), s4); Then(s4, Store, s5);
    Then(s5, Call(1), s6); Then(s6, ReadStatus, s7);
    Then(s7, Decide, Between([Pending(u)], NOT_LOADED, 1, Sending(u), m2 + multiset{StaleRead(1)}, last));
  }

  lemma SecondUpdateSettles()
    ensures Reachable(Between([Running(Update(1), NO_ERROR, 3)], InPhase(Settled), 1, Sending(Update(1)),
                              multiset{Started(1), Started(1), EndedForRetry(1), StaleRead(1)},
                              Some(Done(Update(1), NO_ERROR))))
  {
    SecondUpdateReadWhileWaiting();
    var u, c, last := Update(1), Sending(Update(1)), Some(Done(Update(1), TRY_AGAIN));
    var m, settled := multiset{Started(1), Started(1), EndedForRetry(1), StaleRead(1)}, Some(Done(Update(1), NO_ERROR));
    var s0, s1 := Between([Pending(u)], NOT_LOADED, 1, c, m, last),
        Between([Running(u, NO_ERROR, 1)], InPhase(LoadingChart), 1, c, m, last);
    var s2 := Between([Running(u, NO_ERROR, 2)], InPhase(Updating), 1, c, m, last);
    Then(s0, Begin(0, NO_ERROR), s1); Then(s1, Show(0), s2);
    Then(s2, Show(0), Between([Running(u, NO_ERROR, 3)], InPhase(Settled), 1, c, m, settled));
  }

  /** Why the first phase has to come first: the flag of a first update is read again while the second one waits,
      and a third one starts although the second one settled. */
  lemma StaleReadStartsAnother()
    ensures exists s :: Reachable(s) && s.status == InPhase(Settled) && s.since[Started(1)] == 3
                        && s.since[EndedForRetry(1)] == 1
  {
    SecondUpdateSettles();
    var u, c := Update(1), Sending(Update(1));
    var m, settled := multiset{Started(1), Started(1), EndedForRetry(1), StaleRead(1)}, Some(Done(Update(1), NO_ERROR));
    var s3, s4 := Between([Running(u, NO_ERROR, 3)], InPhase(Settled), 1, c, m, settled),
        Between([Busy], InPhase(Settled), 1, c, m, settled);
    var s5 := Between([Receiving], InPhase(Settled), 1, c, m, settled);
    Then(s3, Finish(0), s4); Then(s4, Receive(0), s5);
    Then(s5, Send(0), Between([Pending(u)], InPhase(Settled), 1, Sent(1), m + multiset{Started(1)}, settled));
  }
}
