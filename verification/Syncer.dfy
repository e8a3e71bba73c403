/** The cr-syncer: spec flows from upstream to downstream, status flows back, from possibly stale caches. */
module Syncer {
  import opened Wrappers
  import opened ApiServer
  import opened ConflictCounter
  import SetNames

  const REMOTE_VERSION := "cr-syncer.cloudrobotics.com/remote-resource-version"

  datatype Config = Config(clusterName: string, subtree: string, statusIsSubresource: bool)

  /** What one sync of a key came to: both clusters, whether the key goes to the upstream queue, whether the
      sync has to be retried, and what the write of an object came to for the conflict counter. */
  datatype Outcome = Outcome(up: Cluster, down: Cluster, toUpstream: bool, failed: bool, write: Write)

  function VersionText(version: nat): string {
    SetNames.Decimal(version)
  }

  /** The status that syncDownstream writes upstream; None when a status is not a dictionary where one is needed. */
  function CopyStatus(dst: Status, src: Status, subtree: string): Option<Status> {
    if subtree == "" then Some(src)
    else if src.Nil? then Some(dst)
    else if !src.Dict? then None
    else if dst.NotADict? then None
    else
      var fields := if dst.Nil? then map[] else dst.fields;
      Some(Dict(if subtree in src.fields && src.fields[subtree] != Null
                then fields[subtree := src.fields[subtree]] else fields - {subtree}))
  }

  /** The upstream object as syncDownstream sends it. */
  function WithStatus(dst: Object, status: Status, src: Object): Object {
    dst.(status := status, annotations := dst.annotations[REMOTE_VERSION := VersionText(src.version)])
  }

  /** The downstream object as syncUpstream sends it. */
  function WithSpec(dst: Object, src: Object): Object {
    dst.(labels := src.labels, annotations := src.annotations - {REMOTE_VERSION}, spec := src.spec)
  }

  /** A downstream object that is not there yet: the upstream status is copied on creation only. */
  function NewCopy(src: Object): Object {
    WithSpec(Object(0, map[], map[], "", src.status, false, false), src)
  }

  function Written(r: Response): Write {
    if r.Ok? then Succeeded else if r.error.Conflict? then Conflicted else Other
  }

  function AfterDelete(up: Cluster, down: Cluster, r: Response): Outcome {
    if r.Ok? then Outcome(up, r.cluster, false, false, Other)
    else Outcome(up, down, false, !r.error.NotFound?, Other)
  }

  function Call(reachable: bool, r: Response): Response {
    if reachable then r else Err(Unavailable)
  }

  function Downstreamed(cfg: Config, key: Key, upCache: Objects, downCache: Objects,
                        up: Cluster, down: Cluster, reachable: bool): Outcome
  {
    if key !in downCache then Outcome(up, down, true, false, Other)
    else
      var src := downCache[key];
      if key !in upCache then
        if src.deleting then Outcome(up, down, false, false, Other)
        else AfterDelete(up, down, Call(reachable, Delete(down, key)))
      else
        match CopyStatus(upCache[key].status, src.status, cfg.subtree)
        case None => Outcome(up, down, false, true, Other)
        case Some(status) =>
          var dst := WithStatus(upCache[key], status, src);
          var r := Call(reachable,
            if cfg.statusIsSubresource
            then UpdateStatus(up, key, if status.Nil? then dst.(status := Dict(map[])) else dst)
            else Update(up, key, dst, false));
          Outcome(if r.Ok? then r.cluster else up, down, false, r.Err?, Written(r))
  }

  function Upstreamed(cfg: Config, key: Key, upCache: Objects, downCache: Objects,
                      up: Cluster, down: Cluster, reachable: bool): Outcome
  {
    if key !in upCache && key !in downCache then Outcome(up, down, false, false, Other)
    else if key !in upCache || upCache[key].deleting then
      AfterDelete(up, down, Call(reachable, Delete(down, key)))
    else
      var src := upCache[key];
      var r := Call(reachable,
        if key in downCache
        then Update(down, key, WithSpec(downCache[key], src), cfg.statusIsSubresource)
        else Create(down, key, NewCopy(src), cfg.statusIsSubresource));
      Outcome(up, if r.Ok? then r.cluster else down, false, r.Err?, Written(r))
  }

  /** What a worker does to the counter after its write, when nothing comes between reading and writing it. */
  function Counted(counter: nat, worker: Worker, write: Write, clusterName: string): nat {
    if worker != CloudWorker(clusterName) || write.Other? then counter
    else if write.Succeeded? then 0 else counter + 1
  }

  class CrSyncer {
    const cfg: Config
    const conflictErrorLimit: nat
    var upstream: Cluster
    var downstream: Cluster
    var upstreamInf: Objects
    var downstreamInf: Objects
    var upstreamQueue: set<Key>
    var downstreamQueue: set<Key>
    var infDone: bool          // the informers are running
    var conflictErrors: nat

    constructor (cfg: Config, conflictErrorLimit: nat, upstream: Cluster, downstream: Cluster)
      ensures this.cfg == cfg && this.conflictErrorLimit == conflictErrorLimit
      ensures this.upstream == upstream && this.downstream == downstream
      ensures upstreamInf == map[] && downstreamInf == map[] && upstreamQueue == downstreamQueue == {}
      ensures !infDone && conflictErrors == 0
    {
      this.cfg, this.conflictErrorLimit := cfg, conflictErrorLimit;
      this.upstream, this.downstream := upstream, downstream;
      upstreamInf, downstreamInf, upstreamQueue, downstreamQueue := map[], map[], {}, {};
      infDone, conflictErrors := false, 0;
    }

    /** startInformers: lists both clusters, which raises an event for every object. */
    method StartInformers(reachable: bool) returns (ok: bool)
      modifies this`infDone, this`upstreamInf, this`downstreamInf, this`upstreamQueue, this`downstreamQueue
      ensures ok <==> !old(infDone) && reachable
      ensures infDone == (ok || old(infDone) || !reachable)
      ensures ok ==>
        && upstreamInf == upstream.objects && downstreamInf == downstream.objects
        && upstreamQueue == old(upstreamQueue) + upstream.objects.Keys
        && downstreamQueue == old(downstreamQueue) + downstream.objects.Keys
      ensures !ok ==> unchanged(`upstreamInf, `downstreamInf, `upstreamQueue, `downstreamQueue)
    {
      if infDone {
        return false;
      }
      infDone := true;
      if !reachable {
        return false;
      }
      upstreamInf, downstreamInf := upstream.objects, downstream.objects;
      upstreamQueue := upstreamQueue + upstreamInf.Keys;
      downstreamQueue := downstreamQueue + downstreamInf.Keys;
      return true;
    }

    /** restartInformers: because it stops the running ones first, only an unreachable server makes it fail. */
    method RestartInformers(reachable: bool) returns (ok: bool)
      modifies this`infDone, this`upstreamInf, this`downstreamInf, this`upstreamQueue, this`downstreamQueue
      ensures ok == reachable && infDone
      ensures ok ==>
        && upstreamInf == upstream.objects && downstreamInf == downstream.objects
        && upstreamQueue == old(upstreamQueue) + upstream.objects.Keys
        && downstreamQueue == old(downstreamQueue) + downstream.objects.Keys
      ensures !ok ==> upstreamInf == downstreamInf == map[] && unchanged(`upstreamQueue, `downstreamQueue)
    {
      if infDone {
        infDone := false;
      }
      upstreamInf, downstreamInf := map[], map[];
      ok := StartInformers(reachable);
    }

    method SyncDownstream(key: Key, reachable: bool) returns (failed: bool)
      modifies this`upstream, this`downstream, this`upstreamQueue, this`conflictErrors
      ensures
        var o := Downstreamed(cfg, key, upstreamInf, downstreamInf, old(upstream), old(downstream), reachable);
        && upstream == o.up && downstream == o.down && failed == o.failed
        && upstreamQueue == old(upstreamQueue) + (if o.toUpstream then {key} else {})
        && conflictErrors == Counted(old(conflictErrors), Worker.Downstream, o.write, cfg.clusterName)
    {
      hide CopyStatus, Update, UpdateStatus, Delete, Call;
      if key !in downstreamInf {
        upstreamQueue := upstreamQueue + {key};
        return false;
      }
      var src := downstreamInf[key];
      if key !in upstreamInf {
        if src.deleting {
          return false;
        }
        failed := DeleteDownstream(key, reachable);
        return;
      }
      var dst := upstreamInf[key];
      var ok;
      ok, dst := CopyStatusInto(dst, src);
      if !ok {
        return true;
      }
      dst := dst.(annotations := SetAnnotation(dst.annotations, REMOTE_VERSION, VersionText(src.version)));
      assert dst == WithStatus(upstreamInf[key],
                               CopyStatus(upstreamInf[key].status, src.status, cfg.subtree).value, src);
      failed := WriteUpstream(key, dst, reachable);
    }

    /** The write of a status copy, with the subresource if there is one, and its effect on the counter. */
    method WriteUpstream(key: Key, o: Object, reachable: bool) returns (failed: bool)
      modifies this`upstream, this`conflictErrors
      ensures
        var r := Call(reachable,
          if cfg.statusIsSubresource
          then UpdateStatus(old(upstream), key, if o.status.Nil? then o.(status := Dict(map[])) else o)
          else Update(old(upstream), key, o, false));
        && upstream == (if r.Ok? then r.cluster else old(upstream)) && failed == r.Err?
        && conflictErrors == Counted(old(conflictErrors), Worker.Downstream, Written(r), cfg.clusterName)
    {
      hide Update, UpdateStatus, Call;
      var dst := o;
      var r: Response;
      if cfg.statusIsSubresource {
        if dst.status.Nil? {
          dst := dst.(status := Dict(map[]));
        }
        r := Call(reachable, UpdateStatus(upstream, key, dst));
      } else {
        r := Call(reachable, Update(upstream, key, dst, false));
      }
      if r.Err? {
        if r.error.Conflict? && cfg.clusterName != CLOUD {
          conflictErrors := conflictErrors + 1;
        }
        return true;
      }
      upstream := r.cluster;
      if cfg.clusterName != CLOUD {
        conflictErrors := 0;
      }
      return false;
    }

    /** The status that dst is given: all that src has, or its part under the subtree. */
    method CopyStatusInto(dst: Object, src: Object) returns (ok: bool, r: Object)
      ensures ok <==> CopyStatus(dst.status, src.status, cfg.subtree).Some?
      ensures ok ==> r == dst.(status := CopyStatus(dst.status, src.status, cfg.subtree).value)
    {
      r := dst;
      if cfg.subtree == "" {
        return true, dst.(status := src.status);
      }
      if src.status.Nil? {
        return true, dst;
      }
      if !src.status.Dict? {
        return false, dst;
      }
      if r.status.Nil? {
        r := r.(status := Dict(map[]));
      }
      if !r.status.Dict? {
        return false, r;
      }
      if cfg.subtree in src.status.fields && src.status.fields[cfg.subtree] != Null {
        r := r.(status := Dict(r.status.fields[cfg.subtree := src.status.fields[cfg.subtree]]));
      } else {
        r := r.(status := Dict(r.status.fields - {cfg.subtree}));
      }
      return true, r;
    }

    method SyncUpstream(key: Key, reachable: bool) returns (failed: bool)
      modifies this`downstream, this`conflictErrors
      ensures
        var o := Upstreamed(cfg, key, upstreamInf, downstreamInf, upstream, old(downstream), reachable);
        && upstream == o.up && downstream == o.down && failed == o.failed && !o.toUpstream
        && conflictErrors == Counted(old(conflictErrors), Worker.Upstream, o.write, cfg.clusterName)
    {
      var srcExists, dstExists := key in upstreamInf, key in downstreamInf;
      if !srcExists && !dstExists {
        return false;
      }
      if !srcExists {
        failed := DeleteDownstream(key, reachable);
        return;
      }
      var src := upstreamInf[key];
      if src.deleting {
        failed := DeleteDownstream(key, reachable);
        return;
      }
      var dst := if dstExists then downstreamInf[key] else Object(0, map[], map[], "", Nil, false, false);
      dst := dst.(labels := src.labels, annotations := src.annotations, spec := src.spec);
      dst := dst.(annotations := DeleteAnnotation(dst.annotations, REMOTE_VERSION));
      var r: Response;
      if dstExists {
        r := Call(reachable, Update(downstream, key, dst, cfg.statusIsSubresource));
      } else {
        // A new object starts with the status of its upstream one.
        dst := dst.(status := src.status);
        r := Call(reachable, Create(downstream, key, dst, cfg.statusIsSubresource));
      }
      if r.Err? {
        if r.error.Conflict? && cfg.clusterName == CLOUD {
          conflictErrors := conflictErrors + 1;
        }
        return true;
      }
      downstream := r.cluster;
      if cfg.clusterName == CLOUD {
        conflictErrors := 0;
      }
      return false;
    }

    method DeleteDownstream(key: Key, reachable: bool) returns (failed: bool)
      modifies this`downstream
      ensures
        var o := AfterDelete(upstream, old(downstream), Call(reachable, Delete(old(downstream), key)));
        downstream == o.down && failed == o.failed
    {
      var r := Call(reachable, Delete(downstream, key));
      if r.Err? {
        return !r.error.NotFound?;
      }
      downstream := r.cluster;
      return false;
    }

    /** processNextWorkItem for a key taken from the worker's queue: too many conflicts restart the informers
        first, which queues every object again, and a key whose sync failed goes back to its queue. */
    method ProcessNextWorkItem(worker: Worker, key: Key, reachable: bool)
      requires key in (if worker.Upstream? then upstreamQueue else downstreamQueue)
      requires conflictErrorLimit >= 1 && conflictErrors <= conflictErrorLimit
      modifies this
      ensures conflictErrors <= conflictErrorLimit
      ensures old(conflictErrors) >= conflictErrorLimit && !reachable ==>
        && unchanged(`upstream, `downstream, `conflictErrors, `upstreamQueue, `downstreamQueue)
      ensures old(conflictErrors) >= conflictErrorLimit && reachable ==>
        infDone && upstreamInf == old(upstream).objects && downstreamInf == old(downstream).objects
      ensures old(conflictErrors) < conflictErrorLimit || reachable ==>
        var restart := old(conflictErrors) >= conflictErrorLimit;
        var o := if worker.Upstream?
          then Upstreamed(cfg, key, upstreamInf, downstreamInf, old(upstream), old(downstream), reachable)
          else Downstreamed(cfg, key, upstreamInf, downstreamInf, old(upstream), old(downstream), reachable);
        && upstream == o.up && downstream == o.down
        && conflictErrors == Counted(if restart then 0 else old(conflictErrors), worker, o.write, cfg.clusterName)
        && upstreamQueue == old(upstreamQueue) - (if worker.Upstream? then {key} else {})
             + (if restart then old(upstream).objects.Keys else {})
                 + (if o.toUpstream || (worker.Upstream? && o.failed) then {key} else {})
        && downstreamQueue == old(downstreamQueue) - (if worker.Downstream? then {key} else {})
             + (if restart then old(downstream).objects.Keys else {})
                 + (if worker.Downstream? && o.failed then {key} else {})
    {
      hide Upstreamed, Downstreamed;
      Take(worker, key);
      if conflictErrors >= conflictErrorLimit {
        var ok := RestartInformers(reachable);
        if !ok {
          AddRateLimited(worker, key);
          assert upstreamQueue == old(upstreamQueue) && downstreamQueue == old(downstreamQueue);
          return;
        }
        conflictErrors := 0;
      }
      var failed: bool;
      if worker.Upstream? {
        failed := SyncUpstream(key, reachable);
      } else {
        failed := SyncDownstream(key, reachable);
      }
      if failed {
        AddRateLimited(worker, key);
      }
    }

    method Take(worker: Worker, key: Key)
      modifies this`upstreamQueue, this`downstreamQueue
      ensures upstreamQueue == old(upstreamQueue) - (if worker.Upstream? then {key} else {})
      ensures downstreamQueue == old(downstreamQueue) - (if worker.Downstream? then {key} else {})
    {
      if worker.Upstream? {
        upstreamQueue := upstreamQueue - {key};
      } else {
        downstreamQueue := downstreamQueue - {key};
      }
    }

    method AddRateLimited(worker: Worker, key: Key)
      modifies this`upstreamQueue, this`downstreamQueue
      ensures upstreamQueue == old(upstreamQueue) + (if worker.Upstream? then {key} else {})
      ensures downstreamQueue == old(downstreamQueue) + (if worker.Downstream? then {key} else {})
    {
      if worker.Upstream? {
        upstreamQueue := upstreamQueue + {key};
      } else {
        downstreamQueue := downstreamQueue + {key};
      }
    }
  }

  function SetAnnotation(annotations: map<string, string>, key: string, value: string): (r: map<string, string>)
    ensures key in r && r[key] == value && r - {key} == annotations - {key}
  {
    annotations[key := value]
  }

  function DeleteAnnotation(annotations: map<string, string>, key: string): (r: map<string, string>)
    ensures key !in r && forall k :: k != key ==> (k in r <==> k in annotations) && (k in r ==> r[k] == annotations[k])
  {
    annotations - {key}
  }
}
