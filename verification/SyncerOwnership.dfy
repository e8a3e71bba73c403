/** Who owns which field: what sync steps can change, however old the caches they work from. */
module SyncerOwnership {
  import opened Wrappers
  import opened ApiServer
  import opened Syncer

  type History = set<(Key, Object)>

  /** Both clusters, and every object that was ever stored in them, with its version. */
  datatype State = State(up: Cluster, down: Cluster, upHistory: History, downHistory: History)

  /** Outside writers put or remove any object; the syncer syncs a key from any two snapshots, each object of
      which may be of a different age. */
  datatype Step =
    | PutUp(key: Key, o: Object)
    | PutDown(key: Key, o: Object)
    | RemoveUp(key: Key)
    | RemoveDown(key: Key)
    | SyncUp(key: Key, upCache: Objects, downCache: Objects, reachable: bool)
    | SyncDown(key: Key, upCache: Objects, downCache: Objects, reachable: bool)

  /** The cached objects were stored at some time, in the state they had then. */
  ghost predicate Snapshot(cache: Objects, history: History) {
    forall k :: k in cache ==> (k, cache[k]) in history
  }

  ghost predicate Enabled(s: State, step: Step) {
    step.SyncUp? || step.SyncDown? ==>
      Snapshot(step.upCache, s.upHistory) && Snapshot(step.downCache, s.downHistory)
  }

  ghost function Entries(objects: Objects): History {
    set k | k in objects :: (k, objects[k])
  }

  ghost function Remember(s: State, up: Cluster, down: Cluster): State {
    State(up, down, s.upHistory + Entries(up.objects), s.downHistory + Entries(down.objects))
  }

  ghost function Synced(s: State, cfg: Config, step: Step): Outcome
    requires step.SyncUp? || step.SyncDown?
  {
    if step.SyncUp?
    then Upstreamed(cfg, step.key, step.upCache, step.downCache, s.up, s.down, step.reachable)
    else Downstreamed(cfg, step.key, step.upCache, step.downCache, s.up, s.down, step.reachable)
  }

  ghost function Do(s: State, cfg: Config, step: Step): State {
    match step
    case PutUp(key, o) => Remember(s, Put(s.up, key, o), s.down)
    case PutDown(key, o) => Remember(s, s.up, Put(s.down, key, o))
    case RemoveUp(key) => Remember(s, Remove(s.up, key), s.down)
    case RemoveDown(key) => Remember(s, s.up, Remove(s.down, key))
    case _ => Remember(s, Synced(s, cfg, step).up, Synced(s, cfg, step).down)
  }

  ghost predicate IsRun(states: seq<State>, steps: seq<Step>, cfg: Config)
  {
    && |states| == |steps| + 1
    && states[0] == State(Cluster(map[], 0), Cluster(map[], 0), {}, {})
    && forall i :: 0 <= i < |steps| ==> Enabled(states[i], steps[i]) && states[i + 1] == Do(states[i], cfg, steps[i])
  }

  /** A version number names one object in one state. */
  ghost predicate Versioned(c: Cluster, history: History) {
    && Entries(c.objects) <= history
    && (forall e :: e in history ==> e.1.version <= c.clock)
    && (forall e, f :: e in history && f in history && e.1.version == f.1.version ==> e == f)
  }

  /** At most the one key changes, and a changed object carries the next version. */
  ghost predicate Moves(before: Cluster, after: Cluster, key: Key) {
    after != before ==>
      && after.clock == before.clock + 1
      && after.objects - {key} == before.objects - {key}
      && (key in after.objects ==> after.objects[key].version == after.clock)
  }

  lemma MovesKeepsVersioned(before: Cluster, after: Cluster, key: Key, history: History)
    requires Versioned(before, history) && Moves(before, after, key)
    ensures Versioned(after, history + Entries(after.objects))
  {
    forall k | k in after.objects && k != key ensures (k, after.objects[k]) in history {
      assert k in (after.objects - {key}) && k in (before.objects - {key});
      assert (after.objects - {key})[k] == (before.objects - {key})[k];
      assert (k, before.objects[k]) in Entries(before.objects);
    }
  }

  lemma SyncMoves(s: State, cfg: Config, step: Step)
    requires step.SyncUp? || step.SyncDown?
    ensures Moves(s.up, Synced(s, cfg, step).up, step.key)
    ensures Moves(s.down, Synced(s, cfg, step).down, step.key)
    ensures step.SyncUp? ==> Synced(s, cfg, step).up == s.up
  {
  }

  lemma DoMoves(s: State, cfg: Config, step: Step)
    ensures
      var t := Do(s, cfg, step);
      && Moves(s.up, t.up, step.key) && Moves(s.down, t.down, step.key)
      && t.upHistory == s.upHistory + Entries(t.up.objects) && t.downHistory == s.downHistory + Entries(t.down.objects)
  {
    hide Synced;
    if step.SyncUp? || step.SyncDown? {
      SyncMoves(s, cfg, step);
    }
  }

  lemma {:induction false} RunIsVersioned(states: seq<State>, steps: seq<Step>, cfg: Config, n: nat)
    requires IsRun(states, steps, cfg) && n < |states|
    ensures Versioned(states[n].up, states[n].upHistory) && Versioned(states[n].down, states[n].downHistory)
  {
    hide Do, Moves, Enabled;
    if n > 0 {
      RunIsVersioned(states, steps, cfg, n - 1);
      var s, step := states[n - 1], steps[n - 1];
      var t := Do(s, cfg, step);
      DoMoves(s, cfg, step);
      MovesKeepsVersioned(s.up, t.up, step.key, s.upHistory);
      MovesKeepsVersioned(s.down, t.down, step.key, s.downHistory);
    }
  }

  /** Everything of the upstream objects but the status and the syncer's own annotation. */
  ghost predicate UpstreamKept(before: Objects, after: Objects) {
    && after.Keys == before.Keys
    && forall k :: k in before ==>
         && after[k].labels == before[k].labels && after[k].spec == before[k].spec
         && after[k].annotations - {REMOTE_VERSION} == before[k].annotations - {REMOTE_VERSION}
         && after[k].deleting == before[k].deleting && after[k].finalizers == before[k].finalizers
  }

  /** The status of every downstream object that was there before and still is. */
  ghost predicate StatusKept(before: Objects, after: Objects) {
    forall k :: k in before && k in after ==> after[k].status == before[k].status
  }

  // The server takes a write only if it carries the current version; then the cached object is the current one.
  lemma AcceptedMeansCurrent(c: Cluster, history: History, cache: Objects, key: Key)
    requires Versioned(c, history) && Snapshot(cache, history)
    requires key in cache && key in c.objects && cache[key].version == c.objects[key].version
    ensures cache[key] == c.objects[key]
  {
    assert (key, c.objects[key]) in Entries(c.objects);
    assert (key, cache[key]) in history;
  }

  lemma StoreKeepsSpec(c: Cluster, key: Key, status: Status, src: Object)
    requires key in c.objects
    ensures
      var r := Update(c, key, WithStatus(c.objects[key], status, src), false);
      r.Ok? && UpstreamKept(c.objects, r.cluster.objects)
    ensures
      var r := UpdateStatus(c, key, WithStatus(c.objects[key], status, src));
      r.Ok? && UpstreamKept(c.objects, r.cluster.objects)
  {
    var o := c.objects[key];
    assert WithStatus(o, status, src).annotations - {REMOTE_VERSION} == o.annotations - {REMOTE_VERSION};
  }

  lemma DownstreamWriteKeepsSpec(s: State, cfg: Config, step: Step)
    requires Versioned(s.up, s.upHistory) && Enabled(s, step) && step.SyncDown?
    ensures UpstreamKept(s.up.objects, Synced(s, cfg, step).up.objects)
  {
    var key := step.key;
    if key in step.downCache && key in step.upCache && key in s.up.objects
       && step.upCache[key].version == s.up.objects[key].version
    {
      AcceptedMeansCurrent(s.up, s.upHistory, step.upCache, key);
      var src := step.downCache[key];
      var status := CopyStatus(step.upCache[key].status, src.status, cfg.subtree);
      if status.Some? {
        StoreKeepsSpec(s.up, key, status.value, src);
        StoreKeepsSpec(s.up, key, Dict(map[]), src);
      }
      hide Versioned, Snapshot, UpstreamKept;
    }
  }

  lemma UpstreamWriteKeepsStatus(s: State, cfg: Config, step: Step)
    requires Versioned(s.down, s.downHistory) && Enabled(s, step) && step.SyncUp?
    ensures StatusKept(s.down.objects, Synced(s, cfg, step).down.objects)
  {
    var key := step.key;
    if key in step.downCache && key in s.down.objects && step.downCache[key].version == s.down.objects[key].version {
      AcceptedMeansCurrent(s.down, s.downHistory, step.downCache, key);
    }
  }

  /** Field ownership: in every run, with outside writes and arbitrarily stale caches, no sync step creates or
      deletes an upstream object or changes its spec, labels, deletion or foreign annotations, and none
      changes the status of a downstream object that exists. */
  lemma FieldOwnership(states: seq<State>, steps: seq<Step>, cfg: Config, n: nat)
    requires IsRun(states, steps, cfg) && n < |steps| && (steps[n].SyncUp? || steps[n].SyncDown?)
    ensures UpstreamKept(states[n].up.objects, states[n + 1].up.objects)
    ensures StatusKept(states[n].down.objects, states[n + 1].down.objects)
  {
    RunIsVersioned(states, steps, cfg, n);
    var s, step := states[n], steps[n];
    assert states[n + 1] == Remember(s, Synced(s, cfg, step).up, Synced(s, cfg, step).down);
    assert Enabled(s, step);
    SyncMoves(s, cfg, step);
    hide Synced, Do, Enabled, Versioned;
    if step.SyncDown? {
      DownstreamWriteKeepsSpec(s, cfg, step);
    } else {
      UpstreamWriteKeepsStatus(s, cfg, step);
    }
  }

  lemma SpecIsCopied(s: State, cfg: Config, step: Step)
    requires step.SyncUp? && Synced(s, cfg, step).write.Succeeded?
    ensures
      var down := Synced(s, cfg, step).down;
      && step.key in down.objects && step.key in step.upCache
      && down.objects[step.key].spec == step.upCache[step.key].spec
      && down.objects[step.key].labels == step.upCache[step.key].labels
      && down.objects[step.key].annotations == step.upCache[step.key].annotations - {REMOTE_VERSION}
  {
  }

  lemma StatusIsCopied(s: State, cfg: Config, step: Step)
    requires Versioned(s.up, s.upHistory) && Enabled(s, step) && step.SyncDown? && Synced(s, cfg, step).write.Succeeded?
    ensures step.key in s.up.objects && StatusWritten(s.up.objects[step.key], Synced(s, cfg, step).up, cfg, step)
  {
    AcceptedMeansCurrent(s.up, s.upHistory, step.upCache, step.key);
  }

  /** What a status copy that succeeded has made of the upstream object `before`: all of the downstream status, or its
      subtree in what was there. A status subresource cannot be missing, and leaves the annotations. */
  ghost predicate StatusWritten(before: Object, up: Cluster, cfg: Config, step: Step)
    requires step.SyncDown?
  {
    && step.key in up.objects && step.key in step.downCache
    && var o, src := up.objects[step.key], step.downCache[step.key];
    && (cfg.subtree == "" ==> o.status == if cfg.statusIsSubresource && src.status.Nil? then Dict(map[])
                                          else src.status)
    && (cfg.subtree != "" ==>
          && CopyStatus(before.status, src.status, cfg.subtree).Some?
          && var copied := CopyStatus(before.status, src.status, cfg.subtree).value;
          o.status == if cfg.statusIsSubresource && copied.Nil? then Dict(map[]) else copied)
    && (if cfg.statusIsSubresource then o.annotations == before.annotations
        else REMOTE_VERSION in o.annotations && o.annotations[REMOTE_VERSION] == VersionText(src.version))
  }

  /** The other half: what a sync step that wrote has written. A status copy lands on the current upstream
      object, from the snapshot of the downstream one; a spec copy the other way round. */
  lemma WrittenFields(states: seq<State>, steps: seq<Step>, cfg: Config, n: nat)
    requires IsRun(states, steps, cfg) && n < |steps| && (steps[n].SyncUp? || steps[n].SyncDown?)
    requires Synced(states[n], cfg, steps[n]).write.Succeeded?
    ensures
      var step, s, t := steps[n], states[n], states[n + 1];
      && (step.SyncUp? ==>
            && step.key in t.down.objects && step.key in step.upCache
            && t.down.objects[step.key].spec == step.upCache[step.key].spec
            && t.down.objects[step.key].labels == step.upCache[step.key].labels
            && t.down.objects[step.key].annotations == step.upCache[step.key].annotations - {REMOTE_VERSION})
      && (step.SyncDown? ==> step.key in s.up.objects && StatusWritten(s.up.objects[step.key], t.up, cfg, step))
  {
    hide Synced, StatusWritten, Versioned;
    RunIsVersioned(states, steps, cfg, n);
    assert states[n + 1] == Do(states[n], cfg, steps[n]) && Enabled(states[n], steps[n]);
    if steps[n].SyncUp? {
      SpecIsCopied(states[n], cfg, steps[n]);
    } else {
      StatusIsCopied(states[n], cfg, steps[n]);
    }
  }
}
