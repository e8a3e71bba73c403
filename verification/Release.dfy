/** The releases of the ChartAssignment controller: for each release one worker, and a status that it shows. */
module Release {
  import opened Wrappers

  datatype Phase = Accepted | LoadingChart | Updating | Settled | Failed | Deleting | Deleted | Ready

  /** An error of a job, and whether running the job again may help. */
  datatype Error = Error(message: string, retry: bool)

  datatype Status = Status(phase: Phase, err: Option<string>, retry: bool)

  /** setPhase */
  function InPhase(phase: Phase): Status { Status(phase, None, false) }

  /** setFailed: an error that may go away leaves the phase as it is. */
  function WithError(status: Status, e: Error): Status {
    Status(if e.retry then status.phase else Failed, Some(e.message), e.retry)
  }

  /** How the calls of a job end: loading the chart, and Synk's Apply or Delete. */
  datatype Calls = Calls(load: Option<Error>, synk: Option<Error>)

  datatype Job = Update(generation: nat) | Delete

  /** The statuses that a job shows, one after the other. Deleting goes on to Deleted even after an error, and
      deleting a release that is Deleted does nothing. */
  function Trace(job: Job, phase: Phase, calls: Calls): seq<Status> {
    match job
    case Update(_) =>
      [InPhase(LoadingChart)] +
      (if calls.load.Some? then [WithError(InPhase(LoadingChart), calls.load.value)]
       else [InPhase(Updating),
             if calls.synk.Some? then WithError(InPhase(Updating), calls.synk.value) else InPhase(Settled)])
    case Delete =>
      if phase == Deleted then []
      else
        [InPhase(Deleting)] + (if calls.synk.Some? then [WithError(InPhase(Deleting), calls.synk.value)] else [])
        + [InPhase(Deleted)]
  }

  /** The mutable release. `shown` is everything its status has been since it was added. */
  class Release {
    var status: Status
    var generation: nat
    ghost var shown: seq<Status>

    constructor ()
      ensures status == InPhase(Accepted) && generation == 0 && shown == [InPhase(Accepted)]
    {
      status, generation := InPhase(Accepted), 0;
      shown := [InPhase(Accepted)];
    }

    method SetPhase(phase: Phase)
      modifies this`status, this`shown
      ensures status == InPhase(phase) && shown == old(shown) + [status]
    {
      status := status.(phase := phase);
      status := status.(err := None);
      status := status.(retry := false);
      shown := shown + [status];
    }

    method SetFailed(e: Error)
      modifies this`status, this`shown
      ensures status == WithError(old(status), e) && shown == old(shown) + [status]
    {
      if !e.retry {
        status := status.(phase := Failed);
      }
      status := status.(err := Some(e.message));
      status := status.(retry := e.retry);
      shown := shown + [status];
    }

    /** update. It ends Settled exactly when the chart loaded and Apply returned no error. */
    method RunUpdate(generation: nat, calls: Calls)
      modifies this`status, this`shown
      ensures shown == old(shown) + Trace(Update(generation), old(status.phase), calls)
      ensures status == shown[|shown| - 1]
      ensures status.phase == Settled <==> calls.load.None? && calls.synk.None?
      ensures status.err.Some? <==> status.phase != Settled
      ensures status.retry <==> if calls.load.Some? then calls.load.value.retry
                                else calls.synk.Some? && calls.synk.value.retry
    {
      SetPhase(LoadingChart);
      if calls.load.Some? {
        SetFailed(calls.load.value);
        return;
      }
      SetPhase(Updating);
      if calls.synk.Some? {
        SetFailed(calls.synk.value);
        return;
      }
      SetPhase(Settled);
    }

    /** delete, as it is written: an error of Synk is overwritten by phase Deleted. */
    method RunDelete(calls: Calls)
      modifies this
      ensures shown == old(shown) + Trace(Delete, old(status.phase), calls)
      ensures status.phase == Deleted
      ensures old(status.phase) != Deleted ==> status == InPhase(Deleted) && generation == 0
      ensures old(status.phase) == Deleted ==> status == old(status) && generation == old(generation)
    {
      if status.phase == Deleted {
        return;
      }
      SetPhase(Deleting);
      if calls.synk.Some? {
        SetFailed(calls.synk.value);
      }
      SetPhase(Deleted);
      generation := 0;
    }
  }

  class Releases {
    var m: map<string, Release>

    /** add: there is one release per name for good. */
    method Add(name: string) returns (r: Release)
      modifies this
      ensures name in m && m[name] == r
      ensures name in old(m) ==> m == old(m)
      ensures name !in old(m) ==>
        fresh(r) && m == old(m)[name := r] && r.status == InPhase(Accepted) && r.generation == 0
    {
      if name in m {
        return m[name];
      }
      r := new Release();
      m := m[name := r];
    }

    /** ensureUpdated. `receiving` says whether the worker of the release waits for a job. The job that was
        started, if any, is returned; the result tells whether nothing more is needed. */
    method EnsureUpdated(name: string, wanted: nat, receiving: bool) returns (ok: bool, started: Option<Job>)
      modifies this, set r | r in m.Values :: r`generation
      ensures name in m && (name in old(m) ==> m == old(m))
      ensures
        var due := if name in old(m) then old(m[name].generation) != wanted || old(m[name].status.retry)
                   else wanted != 0;
        && (ok <==> !due || receiving)
        && started == (if due && receiving then Some(Update(wanted)) else None)
        && m[name].generation == (if ok then wanted else if name in old(m) then old(m[name].generation) else 0)
      ensures forall r :: r in old(m).Values && r != m[name] ==> r.generation == old(r.generation)
    {
      var r := Add(name);
      assert name in old(m) ==> r in old(m).Values;
      var status := r.status;
      if r.generation == wanted && !status.retry {
        return true, None;
      }
      if receiving {
        r.generation := wanted;
        return true, Some(Update(wanted));
      }
      return false, None;
    }
  }
}
