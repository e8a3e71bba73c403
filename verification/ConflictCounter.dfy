/** The conflict counter that the two queue workers of a cr-syncer share without a lock. */
module ConflictCounter {

  const CLOUD := "cloud"

  datatype Worker = Upstream | Downstream

  /** The worker that writes to the cloud: syncUpstream writes downstream, syncDownstream upstream. */
  function CloudWorker(clusterName: string): Worker {
    if clusterName == CLOUD then Upstream else Downstream
  }

  /** Where a worker stands in processNextWorkItem. `Adding(read)` is between the two halves of an increment. */
  datatype Place = Waiting | Checking | Restarting | Resetting | Syncing | Adding(read: nat)

  /** What the write of one sync came to. `Other` is everything that leaves the counter alone. */
  datatype Write = Succeeded | Conflicted | Other

  /** `since` counts the cloud-facing conflicts since the last successful cloud-facing write or restart. */
  datatype State = State(counter: nat, up: Place, down: Place, since: nat)
  {
    function At(w: Worker): Place { if w == Upstream then up else down }

    function Move(w: Worker, p: Place): State {
      if w == Upstream then this.(up := p) else this.(down := p)
    }
  }

  datatype Step =
    | Take(w: Worker)
    | Check(w: Worker)
    | Restart(w: Worker, ok: bool)
    | Reset(w: Worker)
    | Sync(w: Worker, write: Write)
    | Add(w: Worker)

  const INIT := State(0, Waiting, Waiting, 0)

  predicate Enabled(s: State, step: Step) {
    match step
    case Take(w) => s.At(w).Waiting?
    case Check(w) => s.At(w).Checking?
    case Restart(w, _) => s.At(w).Restarting?
    case Reset(w) => s.At(w).Resetting?
    case Sync(w, _) => s.At(w).Syncing?
    case Add(w) => s.At(w).Adding?
  }

  function Do(s: State, step: Step, limit: nat, clusterName: string): State
    requires Enabled(s, step)
  {
    match step
    case Take(w) => s.Move(w, Checking)
    case Check(w) => s.Move(w, if s.counter >= limit then Restarting else Syncing)
    case Restart(w, ok) => s.Move(w, if ok then Resetting else Waiting)
    case Reset(w) => s.Move(w, Syncing).(counter := 0, since := 0)
    case Sync(w, write) =>
      if w != CloudWorker(clusterName) || write.Other? then s.Move(w, Waiting)
      else if write.Succeeded? then s.Move(w, Waiting).(counter := 0, since := 0)
      else s.Move(w, Adding(s.counter))
    case Add(w) => s.Move(w, Waiting).(counter := s.At(w).read + 1, since := s.since + 1)
  }

  ghost predicate IsPath(states: seq<State>, steps: seq<Step>, limit: nat, clusterName: string)
  {
    && |states| == |steps| + 1
    && forall i :: 0 <= i < |steps| ==>
         Enabled(states[i], steps[i]) && states[i + 1] == Do(states[i], steps[i], limit, clusterName)
  }

  ghost predicate IsRun(states: seq<State>, steps: seq<Step>, limit: nat, clusterName: string)
  {
    IsPath(states, steps, limit, clusterName) && states[0] == INIT
  }

  /** An increment goes wrong when the other worker's reset falls between its read and its write. */
  ghost predicate AddsAreAtomic(states: seq<State>, steps: seq<Step>)
    requires |states| == |steps| + 1
  {
    forall i :: 0 <= i < |steps| && steps[i].Add? && Enabled(states[i], steps[i]) ==>
      states[i].counter == states[i].At(steps[i].w).read
  }

  // The cloud-facing worker has seen the counter below the limit, and nobody else can raise it.
  ghost predicate Inv(s: State, limit: nat, clusterName: string)
  {
    var w := CloudWorker(clusterName);
    var other := if w == Upstream then Downstream else Upstream;
    && s.counter <= limit
    && (s.At(w).Syncing? ==> s.counter < limit)
    && (s.At(w).Adding? ==> s.At(w).read < limit)
    && !s.At(other).Adding?
  }

  lemma {:induction false} RunKeepsInv(states: seq<State>, steps: seq<Step>, limit: nat, clusterName: string, n: nat)
    requires limit >= 1 && IsRun(states, steps, limit, clusterName) && n < |states|
    ensures Inv(states[n], limit, clusterName)
  {
    if n > 0 {
      RunKeepsInv(states, steps, limit, clusterName, n - 1);
    }
  }

  /** In every interleaving, even of the two halves of an increment, the counter stays within the limit, and
      only the cloud-facing worker ever increments it. */
  lemma CounterWithinLimit(states: seq<State>, steps: seq<Step>, limit: nat, clusterName: string, n: nat)
    requires limit >= 1 && IsRun(states, steps, limit, clusterName) && n < |states|
    ensures states[n].counter <= limit
    ensures n < |steps| && states[n + 1].counter > states[n].counter ==> steps[n] == Add(CloudWorker(clusterName))
  {
    RunKeepsInv(states, steps, limit, clusterName, n);
  }

  /** The counter equals the number of cloud-facing conflicts since the last successful cloud-facing write or
      restart throughout a run, exactly when every increment of the run is atomic. */
  lemma CounterCountsConflicts(states: seq<State>, steps: seq<Step>, limit: nat, clusterName: string)
    requires limit >= 1 && IsRun(states, steps, limit, clusterName)
    ensures (forall n :: 0 <= n < |states| ==> states[n].counter == states[n].since) <==> AddsAreAtomic(states, steps)
  {
    if AddsAreAtomic(states, steps) {
      forall n | 0 <= n < |states| ensures states[n].counter == states[n].since {
        AtomicAddsCount(states, steps, limit, clusterName, n);
      }
    } else {
      var i :| 0 <= i < |steps| && steps[i].Add? && states[i].counter != states[i].At(steps[i].w).read;
      assert states[i + 1] == Do(states[i], steps[i], limit, clusterName);
    }
  }

  lemma {:induction false} AtomicAddsCount(states: seq<State>, steps: seq<Step>, limit: nat, clusterName: string,
                                           n: nat)
    requires IsRun(states, steps, limit, clusterName) && AddsAreAtomic(states, steps) && n < |states|
    ensures states[n].counter == states[n].since
  {
    if n > 0 {
      AtomicAddsCount(states, steps, limit, clusterName, n - 1);
    }
  }

  ghost predicate Reaches(s: State, t: State, limit: nat, clusterName: string)
  {
    exists states, steps :: IsPath(states, steps, limit, clusterName) && states[0] == s && states[|steps|] == t
  }

  lemma ReachesByPath(states: seq<State>, steps: seq<Step>, limit: nat, clusterName: string)
    requires IsPath(states, steps, limit, clusterName)
    ensures Reaches(states[0], states[|steps|], limit, clusterName)
  {
  }

  lemma ReachesTransitive(s: State, t: State, u: State, limit: nat, clusterName: string)
    requires Reaches(s, t, limit, clusterName) && Reaches(t, u, limit, clusterName)
    ensures Reaches(s, u, limit, clusterName)
  {
    var states1, steps1 :| IsPath(states1, steps1, limit, clusterName) && states1[0] == s && states1[|steps1|] == t;
    var states2, steps2 :| IsPath(states2, steps2, limit, clusterName) && states2[0] == t && states2[|steps2|] == u;
    assert IsPath(states1 + states2[1..], steps1 + steps2, limit, clusterName);
  }

  // Two conflicts; the other worker sees the limit reached and restarts.
  lemma OtherRestarts()
    ensures Reaches(INIT, State(2, Resetting, Waiting, 2), 2, "robot-1")
  {
    hide Reaches;
    var w, n := Downstream, "robot-1";
    ReachesByPath([INIT, State(0, Waiting, Checking, 0), State(0, Waiting, Syncing, 0), State(0, Waiting, Adding(0), 0),
                   State(1, Waiting, Waiting, 1)], [Take(w), Check(w), Sync(w, Conflicted), Add(w)], 2, n);
    ReachesByPath([State(1, Waiting, Waiting, 1), State(1, Waiting, Checking, 1), State(1, Waiting, Syncing, 1),
                   State(1, Waiting, Adding(1), 1), State(2, Waiting, Waiting, 2)],
                  [Take(w), Check(w), Sync(w, Conflicted), Add(w)], 2, n);
    ReachesByPath([State(2, Waiting, Waiting, 2), State(2, Checking, Waiting, 2), State(2, Restarting, Waiting, 2),
                   State(2, Resetting, Waiting, 2)], [Take(Upstream), Check(Upstream), Restart(Upstream, true)], 2, n);
    ReachesTransitive(INIT, State(1, Waiting, Waiting, 1), State(2, Waiting, Waiting, 2), 2, n);
    ReachesTransitive(INIT, State(2, Waiting, Waiting, 2), State(2, Resetting, Waiting, 2), 2, n);
  }

  // The cloud-facing worker restarts too, resets, and meets another conflict.
  lemma CloudWorkerRestarts()
    ensures Reaches(State(2, Resetting, Waiting, 2), State(1, Resetting, Waiting, 1), 2, "robot-1")
  {
    hide Reaches;
    var w, n := Downstream, "robot-1";
    ReachesByPath([State(2, Resetting, Waiting, 2), State(2, Resetting, Checking, 2),
                  State(2, Resetting, Restarting, 2),
                   State(2, Resetting, Resetting, 2), State(0, Resetting, Syncing, 0)],
                  [Take(w), Check(w), Restart(w, true), Reset(w)], 2, n);
    ReachesByPath([State(0, Resetting, Syncing, 0), State(0, Resetting, Adding(0), 0), State(1, Resetting, Waiting, 1)],
                  [Sync(w, Conflicted), Add(w)], 2, n);
    ReachesTransitive(State(2, Resetting, Waiting, 2), State(0, Resetting, Syncing, 0), State(1, Resetting, Waiting, 1),
                      2, n);
  }

  /** The race is real: with a limit of 2, both workers see the limit reached; the cloud-facing one restarts,
      and its next increment is half done when the other one resets. The counter ends at 2 after one conflict. */
  lemma SplitAddMiscounts()
    ensures Reaches(INIT, State(2, Syncing, Waiting, 1), 2, "robot-1")
  {
    hide Reaches;
    var w, n := Downstream, "robot-1";
    OtherRestarts();
    CloudWorkerRestarts();
    ReachesByPath([State(1, Resetting, Waiting, 1), State(1, Resetting, Checking, 1), State(1, Resetting, Syncing, 1),
                   State(1, Resetting, Adding(1), 1)], [Take(w), Check(w), Sync(w, Conflicted)], 2, n);
    ReachesByPath([State(1, Resetting, Adding(1), 1), State(0, Syncing, Adding(1), 0), State(2, Syncing, Waiting, 1)],
                  [Reset(Upstream), Add(w)], 2, n);
    ReachesTransitive(INIT, State(2, Resetting, Waiting, 2), State(1, Resetting, Waiting, 1), 2, n);
    ReachesTransitive(INIT, State(1, Resetting, Waiting, 1), State(1, Resetting, Adding(1), 1), 2, n);
    ReachesTransitive(INIT, State(1, Resetting, Adding(1), 1), State(2, Syncing, Waiting, 1), 2, n);
  }
}
