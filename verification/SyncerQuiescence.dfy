/** Once outside writers stop, the two queues of a cr-syncer drain, and what they leave behind is consistent.
    For a CRD without status subresource or subtree. Events may be late, and workers do not wait for them. */
module SyncerQuiescence {
  import opened Wrappers
  import opened ApiServer
  import opened Syncer
  import O = SyncerOwnership
  import SetNames

  const CONFIG := Config("robot", "", false)

  /** Both clusters, the caches, the keys whose last change a cache has not seen yet, and the queues. */
  datatype State = State(
    up: Cluster, down: Cluster,
    upCache: Objects, downCache: Objects,
    upPending: set<Key>, downPending: set<Key>,
    upQueue: set<Key>, downQueue: set<Key>)

  /** An event brings a cache up to date for a key, or shows it an earlier state (None: no object), with later events
      still to come. A sync takes a key from its queue, whatever the caches have seen. */
  datatype Step =
    | DeliverUp(key: Key) | DeliverDown(key: Key)
    | SeeUp(key: Key, seen: Option<Object>) | SeeDown(key: Key, seen: Option<Object>)
    | SyncUp(key: Key) | SyncDown(key: Key)

  /** Both caches have caught up with the key. */
  predicate Fresh(s: State, key: Key) {
    key !in s.upPending && key !in s.downPending
  }

  /** No object from the future, and of the current version only the current object. */
  predicate Earlier(c: Cluster, key: Key, o: Option<Object>) {
    o.Some? ==>
      && o.value.version <= c.clock
      && (key in c.objects && c.objects[key].version == o.value.version ==> o.value == c.objects[key])
  }

  predicate Enabled(s: State, step: Step) {
    match step
    case DeliverUp(key) => key in s.upPending
    case DeliverDown(key) => key in s.downPending
    case SeeUp(key, o) => key in s.upPending && Earlier(s.up, key, o)
    case SeeDown(key, o) => key in s.downPending && Earlier(s.down, key, o)
    case SyncUp(key) => key in s.upQueue
    case SyncDown(key) => key in s.downQueue
  }

  /** A step that comes before the last event of its key. */
  predicate Early(s: State, step: Step) {
    step.SeeUp? || step.SeeDown? || ((step.SyncUp? || step.SyncDown?) && !Fresh(s, step.key))
  }

  function Show(cache: Objects, key: Key, o: Option<Object>): Objects {
    if o.Some? then cache[key := o.value] else cache - {key}
  }

  function Refresh(cache: Objects, objects: Objects, key: Key): Objects {
    Show(cache, key, Get(objects, key))
  }

  /** A change of the object of a key raises an event; an update that changes nothing raises none. */
  function Raise(pending: set<Key>, before: Cluster, after: Cluster, key: Key): set<Key> {
    if Get(before.objects, key) == Get(after.objects, key) then pending else pending + {key}
  }

  function Upped(s: State, key: Key): Outcome {
    Upstreamed(CONFIG, key, s.upCache, s.downCache, s.up, s.down, true)
  }

  function Downed(s: State, key: Key): Outcome {
    Downstreamed(CONFIG, key, s.upCache, s.downCache, s.up, s.down, true)
  }

  function Settle(s: State, o: Outcome, key: Key): State {
    s.(up := o.up, down := o.down,
       upPending := Raise(s.upPending, s.up, o.up, key),
       downPending := Raise(s.downPending, s.down, o.down, key))
  }

  function DoSyncUp(s: State, key: Key): State {
    var o := Upped(s, key);
    Settle(s, o, key).(upQueue := if o.failed then s.upQueue else s.upQueue - {key})
  }

  function DoSyncDown(s: State, key: Key): State {
    var o := Downed(s, key);
    Settle(s, o, key).(downQueue := if o.failed then s.downQueue else s.downQueue - {key},
                       upQueue := if o.toUpstream then s.upQueue + {key} else s.upQueue)
  }

  function Do(s: State, step: Step): State {
    match step
    case DeliverUp(key) =>
      s.(upCache := Refresh(s.upCache, s.up.objects, key), upPending := s.upPending - {key},
         upQueue := s.upQueue + {key})
    case DeliverDown(key) =>
      s.(downCache := Refresh(s.downCache, s.down.objects, key), downPending := s.downPending - {key},
         downQueue := s.downQueue + {key})
    case SeeUp(key, o) => s.(upCache := Show(s.upCache, key, o), upQueue := s.upQueue + {key})
    case SeeDown(key, o) => s.(downCache := Show(s.downCache, key, o), downQueue := s.downQueue + {key})
    case SyncUp(key) => DoSyncUp(s, key)
    case SyncDown(key) => DoSyncDown(s, key)
  }

  // ----- What a sync of a key does, given the current objects -----

  /** syncUpstream would leave the downstream object as it is. */
  predicate UpSettled(u: Option<Object>, d: Option<Object>) {
    if u.None? || u.value.deleting then d.Some? ==> d.value.deleting && d.value.finalizers
    else d.Some? && WithSpec(d.value, u.value) == d.value
  }

  /** syncDownstream would do nothing at all. */
  predicate DownSettled(u: Option<Object>, d: Option<Object>) {
    && d.Some?
    && (u.None? ==> d.value.deleting)
    && (u.Some? ==> WithStatus(u.value, d.value.status, d.value) == u.value)
  }

  /** The downstream object after syncUpstream, up to its version. */
  function Pushed(u: Option<Object>, d: Option<Object>, version: nat): Option<Object> {
    if UpSettled(u, d) then d
    else if u.None? || u.value.deleting then
      if d.None? || !d.value.finalizers then None else Some(d.value.(deleting := true, version := version))
    else if d.None? then Some(NewCopy(u.value).(version := version))
    else Some(WithSpec(d.value, u.value).(version := version))
  }

  /** A cache agrees with its cluster on every key without an event still to be delivered. */
  ghost predicate Caught(s: State) {
    && (forall k :: k !in s.upPending ==> Get(s.upCache, k) == Get(s.up.objects, k))
    && (forall k :: k !in s.downPending ==> Get(s.downCache, k) == Get(s.down.objects, k))
  }

  ghost predicate SameElsewhere(before: Cluster, after: Cluster, key: Key) {
    forall k :: k != key ==> Get(after.objects, k) == Get(before.objects, k)
  }

  /** With caches that have caught up, syncUpstream succeeds and pushes the upstream fields. */
  lemma SyncUpEffect(s: State, key: Key)
    requires Caught(s) && Fresh(s, key)
    ensures
      var o := Upped(s, key);
      var u, d := Get(s.up.objects, key), Get(s.down.objects, key);
      && !o.failed && !o.toUpstream && o.up == s.up
      && Get(o.down.objects, key) == Pushed(u, d, s.down.clock + 1)
      && SameElsewhere(s.down, o.down, key)
      && (if UpSettled(u, d) then o.down == s.down else o.down.clock == s.down.clock + 1)
  {
    assert Get(s.upCache, key) == Get(s.up.objects, key);
    assert Get(s.downCache, key) == Get(s.down.objects, key);
  }

  /** And syncDownstream: it asks for a sync upstream, deletes an orphan, or copies the status back. */
  lemma SyncDownEffect(s: State, key: Key)
    requires Caught(s) && Fresh(s, key)
    ensures
      var o := Downed(s, key);
      var u, d := Get(s.up.objects, key), Get(s.down.objects, key);
      && !o.failed && (o.toUpstream <==> d.None?)
      && SameElsewhere(s.up, o.up, key) && SameElsewhere(s.down, o.down, key)
      && (DownSettled(u, d) || d.None? ==> o.up == s.up && o.down == s.down)
      && (!DownSettled(u, d) && d.Some? && u.None? ==>
            o.up == s.up && Get(o.down.objects, key) == Pushed(u, d, s.down.clock + 1)
            && o.down.clock == s.down.clock + 1)
      && (!DownSettled(u, d) && d.Some? && u.Some? ==>
            && o.down == s.down && o.up.clock == s.up.clock + 1
            && Get(o.up.objects, key) == Some(WithStatus(u.value, d.value.status, d.value).(version := s.up.clock + 1)))
  {
    assert Get(s.upCache, key) == Get(s.up.objects, key);
    assert Get(s.downCache, key) == Get(s.down.objects, key);
  }

  // ----- Every difference is covered by an event on its way -----

  predicate UpCovered(s: State, k: Key) {
    var u, d := Get(s.up.objects, k), Get(s.down.objects, k);
    || k in s.upQueue || k in s.upPending || UpSettled(u, d)
    || ((k in s.downQueue || k in s.downPending) && !DownSettled(u, d))
  }

  /** `tidy` is the stronger form, which outside writers can count on: a status that differs waits for an event
      of its own, not just for the one that a push of the spec is going to raise. */
  predicate DownCovered(s: State, k: Key, tidy: bool) {
    var u, d := Get(s.up.objects, k), Get(s.down.objects, k);
    || k in s.downQueue || k in s.downPending || d.None? || DownSettled(u, d)
    || ((k in s.upQueue || k in s.upPending) && (u.None? || (!tidy && !UpSettled(u, d))))
  }

  /** The syncer's annotation never names a version that downstream has yet to issue. */
  ghost predicate Issued(s: State, u: Object) {
    REMOTE_VERSION in u.annotations ==>
      exists n: nat :: n <= s.down.clock && u.annotations[REMOTE_VERSION] == VersionText(n)
  }

  /** A cache holds no object from the future, and of a current version only the current object. */
  ghost predicate Lags(cache: Objects, c: Cluster) {
    forall k :: Earlier(c, k, Get(cache, k))
  }

  ghost predicate Sound(s: State) {
    && Caught(s) && Lags(s.upCache, s.up) && Lags(s.downCache, s.down)
    && (forall k :: k in s.up.objects ==> Issued(s, s.up.objects[k]) && s.up.objects[k].version <= s.up.clock)
    && (forall k :: k in s.down.objects ==> s.down.objects[k].version <= s.down.clock)
    && (forall k :: k in s.down.objects && s.down.objects[k].deleting ==> s.down.objects[k].finalizers)
  }

  ghost predicate Covered(s: State, tidy: bool) {
    forall k :: UpCovered(s, k) && DownCovered(s, k, tidy)
  }

  // ----- The measure -----

  function Weight(b: bool, n: nat): nat { if b then n else 0 }

  /** A key's share of the measure: the changes still to be made for it, and the events on their way. */
  function Rank(s: State, k: Key): nat {
    var u, d := Get(s.up.objects, k), Get(s.down.objects, k);
    Weight(!UpSettled(u, d), 5) + Weight(u.Some? && d.Some? && !DownSettled(u, d), 1)
    + Weight(k in s.upQueue, 1) + Weight(k in s.upPending, 2)
    + Weight(k in s.downQueue, 2) + Weight(k in s.downPending, 3)
  }

  function Total(s: State, keys: seq<Key>): nat {
    if keys == [] then 0 else Rank(s, keys[0]) + Total(s, keys[1..])
  }

  /** Whatever the caches show, a sync changes each cluster at its key only, and gives what it changes the next
      version. */
  lemma SyncMoves(s: State, key: Key)
    ensures O.Moves(s.up, Upped(s, key).up, key) && O.Moves(s.down, Upped(s, key).down, key)
    ensures O.Moves(s.up, Downed(s, key).up, key) && O.Moves(s.down, Downed(s, key).down, key)
    ensures Upped(s, key).up == s.up && !Upped(s, key).toUpstream
  {
    hide O.Moves;
    var t := O.State(s.up, s.down, {}, {});
    O.SyncMoves(t, CONFIG, O.SyncUp(key, s.upCache, s.downCache, true));
    O.SyncMoves(t, CONFIG, O.SyncDown(key, s.upCache, s.downCache, true));
    assert Upped(s, key).up == s.up && !Upped(s, key).toUpstream by { hide Update, Create, Delete; }
  }

  lemma MovesElsewhere(before: Cluster, after: Cluster, key: Key, k: Key)
    requires O.Moves(before, after, key) && k != key
    ensures Get(after.objects, k) == Get(before.objects, k)
  {
    if after != before {
      assert Get(after.objects - {key}, k) == Get(before.objects - {key}, k);
    }
  }

  // What a step leaves of any key but its own: everything.
  lemma StepIsLocal(s: State, step: Step, k: Key)
    requires k != step.key
    ensures
      var t := Do(s, step);
      && Get(t.up.objects, k) == Get(s.up.objects, k) && Get(t.down.objects, k) == Get(s.down.objects, k)
      && Get(t.upCache, k) == Get(s.upCache, k) && Get(t.downCache, k) == Get(s.downCache, k)
      && (k in t.upPending <==> k in s.upPending) && (k in t.downPending <==> k in s.downPending)
      && (k in t.upQueue <==> k in s.upQueue) && (k in t.downQueue <==> k in s.downQueue)
  {
    hide Upped, Downed, O.Moves;
    if step.SyncUp? || step.SyncDown? {
      SyncMoves(s, step.key);
      MovesElsewhere(s.up, Upped(s, step.key).up, step.key, k);
      MovesElsewhere(s.down, Upped(s, step.key).down, step.key, k);
      MovesElsewhere(s.up, Downed(s, step.key).up, step.key, k);
      MovesElsewhere(s.down, Downed(s, step.key).down, step.key, k);
    }
  }

  lemma PushedIsSettled(u: Option<Object>, d: Option<Object>, version: nat)
    ensures UpSettled(u, Pushed(u, d, version))
  {
  }

  lemma SyncUpLowersRank(s: State, key: Key, tidy: bool)
    requires Sound(s) && key in s.upQueue && Fresh(s, key)
    ensures Rank(DoSyncUp(s, key), key) < Rank(s, key)
    ensures UpCovered(DoSyncUp(s, key), key)
    ensures DownCovered(s, key, tidy) ==> DownCovered(DoSyncUp(s, key), key, tidy)
  {
    hide Upped, Caught;
    SyncUpEffect(s, key);
    var u, d := Get(s.up.objects, key), Get(s.down.objects, key);
    PushedIsSettled(u, d, s.down.clock + 1);
  }

  lemma SyncDownLowersRank(s: State, key: Key, tidy: bool)
    requires Sound(s) && key in s.downQueue && Fresh(s, key)
    ensures Rank(DoSyncDown(s, key), key) < Rank(s, key)
    ensures UpCovered(s, key) ==> UpCovered(DoSyncDown(s, key), key)
    ensures DownCovered(DoSyncDown(s, key), key, tidy)
  {
    hide Downed, Caught;
    SyncDownEffect(s, key);
    var u, d := Get(s.up.objects, key), Get(s.down.objects, key);
    PushedIsSettled(u, d, s.down.clock + 1);
  }

  const MAX_RANK := 14

  /** A step lowers the rank of its key, unless it is early; then it raises it by no more than the largest rank. */
  lemma StepLowersRank(s: State, step: Step)
    requires Sound(s) && Enabled(s, step)
    ensures !Early(s, step) ==> Rank(Do(s, step), step.key) < Rank(s, step.key)
    ensures Rank(Do(s, step), step.key) <= Rank(s, step.key) + MAX_RANK
  {
    hide DoSyncUp, DoSyncDown, UpSettled, DownSettled, Sound;
    if !Early(s, step) {
      match step
      case SyncUp(key) => SyncUpLowersRank(s, key, false);
      case SyncDown(key) => SyncDownLowersRank(s, key, false);
      case _ =>
    }
  }

  // ----- Syncs that do not wait for the caches -----

  /** An early sync upstream writes only over the object it has seen, and what it has not seen is still on its way. */
  lemma EarlySyncUpCovers(s: State, key: Key, tidy: bool)
    requires Sound(s) && key in s.upQueue && !Fresh(s, key)
    requires UpCovered(s, key) && DownCovered(s, key, tidy)
    ensures UpCovered(DoSyncUp(s, key), key) && DownCovered(DoSyncUp(s, key), key, tidy)
  {
    assert Earlier(s.down, key, Get(s.downCache, key));
    assert key !in s.upPending ==> Get(s.upCache, key) == Get(s.up.objects, key);
  }

  /** The key that syncDownstream drops for good: a downstream object that is being deleted, whose upstream object the
      cache does not show yet, although there is one and it lacks the status. */
  predicate Loses(s: State, step: Step, tidy: bool) {
    && step.SyncDown? && step.key in s.downCache && s.downCache[step.key].deleting && step.key !in s.upCache
    && step.key in s.up.objects && step.key !in s.downPending
    && var u, d := Get(s.up.objects, step.key), Get(s.downCache, step.key);
    !DownSettled(u, d) && (tidy || UpSettled(u, d))
  }

  lemma EarlySyncDownCovers(s: State, key: Key, tidy: bool)
    requires Sound(s) && key in s.downQueue && !Fresh(s, key)
    requires UpCovered(s, key) && DownCovered(s, key, tidy)
    ensures UpCovered(DoSyncDown(s, key), key)
    ensures DownCovered(DoSyncDown(s, key), key, tidy) <==> !Loses(s, SyncDown(key), tidy)
  {
    assert Earlier(s.up, key, Get(s.upCache, key));
    assert key !in s.upPending ==> Get(s.upCache, key) == Get(s.up.objects, key);
    assert key !in s.downPending ==> Get(s.downCache, key) == Get(s.down.objects, key);
  }
  // ----- What every step keeps -----

  lemma MovesKeepsLags(before: Cluster, after: Cluster, key: Key, cache: Objects)
    requires Lags(cache, before) && O.Moves(before, after, key)
    ensures Lags(cache, after)
  {
    forall k ensures Earlier(after, k, Get(cache, k)) {
      assert Earlier(before, k, Get(cache, k));
      if k != key {
        MovesElsewhere(before, after, key, k);
        assert Get(after.objects, k) == Get(before.objects, k);
      }
    }
  }

  ghost predicate VersionsIssued(c: Cluster) { forall k :: k in c.objects ==> c.objects[k].version <= c.clock }

  ghost predicate HeldIfDeleting(c: Cluster) {
    forall k :: k in c.objects && c.objects[k].deleting ==> c.objects[k].finalizers
  }

  lemma MovesKeepsVersions(before: Cluster, after: Cluster, key: Key)
    requires VersionsIssued(before) && O.Moves(before, after, key)
    ensures VersionsIssued(after)
  {
    forall k | k in after.objects ensures after.objects[k].version <= after.clock {
      if k != key {
        MovesElsewhere(before, after, key, k);
        assert Get(before.objects, k).Some?;
      }
    }
  }

  // The objects that a sync can write, at its key.
  lemma SyncWrites(s: State, key: Key)
    requires Sound(s)
    ensures HeldIfDeleting(Upped(s, key).down) && HeldIfDeleting(Downed(s, key).down)
    ensures key in Downed(s, key).up.objects ==> Issued(s, Downed(s, key).up.objects[key])
  {
    assert Earlier(s.down, key, Get(s.downCache, key));
    if key in s.up.objects {
      assert Issued(s, s.up.objects[key]);
    }
  }

  lemma SyncKeepsSound(s: State, step: Step)
    requires Sound(s) && (step.SyncUp? || step.SyncDown?)
    ensures Sound(Do(s, step))
  {
    hide Upped, Downed, O.Moves, Earlier;
    var t, key := Do(s, step), step.key;
    SyncMoves(s, key);
    SyncWrites(s, key);
    MovesKeepsLags(s.up, t.up, key, s.upCache);
    MovesKeepsLags(s.down, t.down, key, s.downCache);
    MovesKeepsVersions(s.up, t.up, key);
    MovesKeepsVersions(s.down, t.down, key);
    ClockGrows(s.down, t.down, key);
    hide Lags;
    forall k
      ensures k !in t.upPending ==> Get(t.upCache, k) == Get(t.up.objects, k)
      ensures k !in t.downPending ==> Get(t.downCache, k) == Get(t.down.objects, k)
      ensures k in t.up.objects ==> Issued(t, t.up.objects[k])
    {
      if k != key {
        StepIsLocal(s, step, k);
        assert Get(s.up.objects, k).Some? ==> Issued(s, Get(s.up.objects, k).value);
        assert Get(t.up.objects, k) == Get(s.up.objects, k);
      } else if k in s.up.objects {
        assert Issued(s, s.up.objects[k]);
      }
    }
  }

  lemma ClockGrows(before: Cluster, after: Cluster, key: Key)
    requires O.Moves(before, after, key)
    ensures before.clock <= after.clock
  {
  }

  lemma StepKeepsSound(s: State, step: Step)
    requires Sound(s) && Enabled(s, step)
    ensures Sound(Do(s, step))
  {
    hide DoSyncUp, DoSyncDown, Earlier;
    if step.SyncUp? || step.SyncDown? {
      SyncKeepsSound(s, step);
    } else {
      var t, key := Do(s, step), step.key;
      CurrentIsEarlier(s, key);
      forall k
        ensures Earlier(t.up, k, Get(t.upCache, k)) && Earlier(t.down, k, Get(t.downCache, k))
        ensures k !in t.upPending ==> Get(t.upCache, k) == Get(t.up.objects, k)
        ensures k !in t.downPending ==> Get(t.downCache, k) == Get(t.down.objects, k)
        ensures k in t.up.objects ==> Issued(t, t.up.objects[k])
      {
        assert Earlier(s.up, k, Get(s.upCache, k)) && Earlier(s.down, k, Get(s.downCache, k));
        if k in s.up.objects {
          assert Issued(s, s.up.objects[k]);
        }
      }
    }
  }

  lemma CurrentIsEarlier(s: State, key: Key)
    requires Sound(s)
    ensures Earlier(s.up, key, Get(s.up.objects, key)) && Earlier(s.down, key, Get(s.down.objects, key))
  {
  }

  /** Whatever is covered stays covered, in either form, unless the step loses its key. */
  lemma StepCovers(s: State, step: Step, tidy: bool)
    requires Sound(s) && Covered(s, tidy) && Enabled(s, step)
    ensures Covered(Do(s, step), tidy) <==> !Loses(s, step, tidy)
  {
    var t, key := Do(s, step), step.key;
    KeyCovers(s, step, tidy);
    hide Do, Enabled, Loses, Sound, UpCovered, DownCovered;
    forall k | k != key ensures UpCovered(t, k) && DownCovered(t, k, tidy) {
      assert UpCovered(s, k) && DownCovered(s, k, tidy);
      SameCover(s, step, k, tidy);
    }
  }

  lemma SameCover(s: State, step: Step, k: Key, tidy: bool)
    requires k != step.key
    ensures UpCovered(Do(s, step), k) == UpCovered(s, k) && DownCovered(Do(s, step), k, tidy) == DownCovered(s, k, tidy)
  {
    hide Do, UpSettled, DownSettled;
    StepIsLocal(s, step, k);
  }

  lemma KeyCovers(s: State, step: Step, tidy: bool)
    requires Sound(s) && Covered(s, tidy) && Enabled(s, step)
    ensures UpCovered(Do(s, step), step.key)
    ensures DownCovered(Do(s, step), step.key, tidy) <==> !Loses(s, step, tidy)
  {
    hide DoSyncUp, DoSyncDown, UpSettled, DownSettled, Earlier, Lags, Issued;
    var key := step.key;
    assert UpCovered(s, key) && DownCovered(s, key, tidy);
    match step
    case SyncUp(_) => if Fresh(s, key) { SyncUpLowersRank(s, key, tidy); } else { EarlySyncUpCovers(s, key, tidy); }
    case SyncDown(_) =>
      if Fresh(s, key) {
        SyncDownLowersRank(s, key, tidy);
        assert Get(s.upCache, key) == Get(s.up.objects, key);
      } else {
        EarlySyncDownCovers(s, key, tidy);
      }
    case _ =>
  }

  ghost predicate Distinct(keys: seq<Key>) { forall i, j :: 0 <= i < j < |keys| ==> keys[i] != keys[j] }

  lemma {:induction false} StepLowersTotal(s: State, step: Step, keys: seq<Key>)
    requires Sound(s) && Enabled(s, step) && Distinct(keys)
    ensures step.key !in keys ==> Total(Do(s, step), keys) == Total(s, keys)
    ensures step.key in keys && !Early(s, step) ==> Total(Do(s, step), keys) < Total(s, keys)
    ensures Total(Do(s, step), keys) <= Total(s, keys) + MAX_RANK
  {
    hide Do, Enabled, Early, Sound, UpSettled, DownSettled;
    if keys != [] {
      StepLowersTotal(s, step, keys[1..]);
      if keys[0] == step.key {
        StepLowersRank(s, step);
        assert step.key !in keys[1..];
      } else {
        StepIsLocal(s, step, keys[0]);
        assert Rank(Do(s, step), keys[0]) == Rank(s, keys[0]);
      }
    }
  }

  // ----- Outside writers -----

  /** A change from outside; the periodic resync that queues every cached object again; or a restart of the informers,
      after too many conflicts, which list everything anew. */
  datatype Outside =
    | PutUp(key: Key, o: Object)
    | DropUp(key: Key)
    | PutDown(key: Key, o: Object)
    | DropDown(key: Key)
    | Resync
    | Restart

  function Happen(s: State, e: Outside): State {
    match e
    case PutUp(key, o) => s.(up := Put(s.up, key, o), upPending := s.upPending + {key})
    case DropUp(key) => s.(up := Remove(s.up, key), upPending := s.upPending + {key})
    case PutDown(key, o) => s.(down := Put(s.down, key, o), downPending := s.downPending + {key})
    case DropDown(key) => s.(down := Remove(s.down, key), downPending := s.downPending + {key})
    case Resync => Requeued(s)
    case Restart => Requeued(Relisted(s))
  }

  function Requeued(s: State): State {
    s.(upQueue := s.upQueue + s.upCache.Keys, downQueue := s.downQueue + s.downCache.Keys)
  }

  function Relisted(s: State): State {
    s.(upCache := s.up.objects, downCache := s.down.objects, upPending := {}, downPending := {})
  }

  /** The least that is asked of every outside writer: the syncer's annotation names no future version, and
      deletion marks stay only on objects with finalizers. */
  ghost predicate Plausible(s: State, e: Outside) {
    && (e.PutUp? ==> Issued(s, e.o))
    && (e.PutDown? ==> e.o.deleting ==> e.o.finalizers)
  }

  lemma OutsideKeepsSound(s: State, e: Outside)
    requires Sound(s) && Plausible(s, e)
    ensures Sound(Happen(s, e))
  {
    var t := Happen(s, e);
    forall k ensures Earlier(t.up, k, Get(t.upCache, k)) && Earlier(t.down, k, Get(t.downCache, k)) {
      CurrentIsEarlier(s, k);
      assert Earlier(s.up, k, Get(s.upCache, k)) && Earlier(s.down, k, Get(s.downCache, k));
    }
    forall k | k in t.up.objects ensures Issued(t, t.up.objects[k]) {
      if k in s.up.objects {
        assert Issued(s, s.up.objects[k]);
      }
    }
  }

  /** A version that downstream issues now is not the one any upstream annotation names. */
  lemma NewVersionIsUnnamed(s: State, u: Object, status: Status, d: Object)
    requires Issued(s, u) && d.version > s.down.clock
    ensures WithStatus(u, status, d) != u
  {
    assert WithStatus(u, status, d).annotations[REMOTE_VERSION] == VersionText(d.version);
    assert SetNames.Number(VersionText(d.version)) == d.version;
    if REMOTE_VERSION in u.annotations {
      var n: nat :| n <= s.down.clock && u.annotations[REMOTE_VERSION] == VersionText(n);
      assert SetNames.Number(VersionText(n)) == n;
    }
  }

  /** An outside write of an upstream object is repaired if it writes the status and version that downstream
      has, or something else that syncUpstream will push. */
  predicate Repaired(s: State, key: Key, o: Object) {
    var d := Get(s.down.objects, key);
    d.None? || DownSettled(Some(o), d) || !UpSettled(Some(o), d)
  }

  lemma VersionDoesNotMatter(o: Object, d: Option<Object>, version: nat)
    ensures UpSettled(Some(o.(version := version)), d) == UpSettled(Some(o), d)
    ensures DownSettled(Some(o.(version := version)), d) == DownSettled(Some(o), d)
  {
    if d.Some? {
      assert WithSpec(d.value, o.(version := version)) == WithSpec(d.value, o);
      assert WithStatus(o.(version := version), d.value.status, d.value)
          == WithStatus(o, d.value.status, d.value).(version := version);
    }
  }

  /** The event leaves every difference covered: a downstream event of the key is still to come or to be looked at, or
      the write is repaired. Only writes of upstream objects can go unnoticed. */
  predicate Noticed(s: State, e: Outside) {
    e.PutUp? ==> e.key in s.downQueue || e.key in s.downPending || Repaired(s, e.key, e.o)
  }

  /** A resync or a restart covers every difference, whatever was written before. */
  lemma ResyncCovers(s: State, e: Outside)
    requires Sound(s) && (e.Resync? || e.Restart?)
    ensures Covered(Happen(s, e), true)
  {
    var t := Happen(s, e);
    forall k ensures UpCovered(t, k) && DownCovered(t, k, true) {
      assert k !in s.upPending ==> Get(s.upCache, k) == Get(s.up.objects, k);
      assert k !in s.downPending ==> Get(s.downCache, k) == Get(s.down.objects, k);
    }
  }

  lemma TidyIsCovered(s: State)
    requires Covered(s, true)
    ensures Covered(s, false)
  {
    hide UpSettled, DownSettled;
    forall k ensures UpCovered(s, k) && DownCovered(s, k, false) {
      assert UpCovered(s, k) && DownCovered(s, k, true);
    }
  }

  // What an outside write leaves of any key but its own.
  lemma OthersStayCovered(s: State, e: Outside, k: Key, tidy: bool)
    requires !e.Resync? && !e.Restart? && k != e.key
    ensures UpCovered(Happen(s, e), k) == UpCovered(s, k)
    ensures DownCovered(Happen(s, e), k, tidy) == DownCovered(s, k, tidy)
  {
    hide UpSettled, DownSettled;
    var t := Happen(s, e);
    assert Get(t.up.objects, k) == Get(s.up.objects, k) && Get(t.down.objects, k) == Get(s.down.objects, k);
  }

  /** Whatever is written from outside, and in whatever state, every difference stays covered if and only if the write
      is noticed. */
  lemma CoveredIffNoticed(s: State, e: Outside)
    requires Sound(s) && Covered(s, false) && (e.PutDown? ==> Plausible(s, e))
    ensures Covered(Happen(s, e), false) <==> Noticed(s, e)
  {
    var t := Happen(s, e);
    if e.Resync? || e.Restart? {
      ResyncCovers(s, e);
      TidyIsCovered(t);
    } else {
      assert UpCovered(s, e.key) && DownCovered(s, e.key, false);
      KeyCoveredIffNoticed(s, e);
      hide UpCovered, DownCovered, Noticed;
      forall k | k != e.key ensures UpCovered(t, k) && DownCovered(t, k, false) {
        assert UpCovered(s, k) && DownCovered(s, k, false);
        OthersStayCovered(s, e, k, false);
      }
    }
  }

  lemma KeyCoveredIffNoticed(s: State, e: Outside)
    requires Sound(s) && !e.Resync? && !e.Restart? && (e.PutDown? ==> Plausible(s, e))
    requires UpCovered(s, e.key) && DownCovered(s, e.key, false)
    ensures UpCovered(Happen(s, e), e.key) && DownCovered(Happen(s, e), e.key, false) <==> Noticed(s, e)
  {
    var t, key := Happen(s, e), e.key;
    match e
    case PutUp(_, o) => VersionDoesNotMatter(o, Get(s.down.objects, key), s.up.clock + 1);
    case PutDown(_, _) =>
      if key in s.up.objects {
        assert Issued(s, s.up.objects[key]);
        NewVersionIsUnnamed(s, s.up.objects[key], t.down.objects[key].status, t.down.objects[key]);
      }
    case _ =>
  }

  /** A writer who keeps to the ownership of the fields: upstream writes leave the status and the syncer's
      annotation, and an upstream object is not created while a downstream copy is left. Downstream, and upstream
      deletion, are free. */
  predicate KeepsToOwnFields(s: State, e: Outside) {
    e.PutUp? ==>
      if e.key in s.up.objects then
        var o := s.up.objects[e.key];
        e.o.status == o.status
        && Annotation(e.o.annotations, REMOTE_VERSION) == Annotation(o.annotations, REMOTE_VERSION)
      else e.key !in s.down.objects
  }

  function Annotation(m: map<string, string>, key: string): Option<string> {
    if key in m then Some(m[key]) else None
  }

  /** Outside writes that keep to their own fields leave every difference covered, in the stronger form. */
  lemma OutsideKeepsCovered(s: State, e: Outside)
    requires Sound(s) && Covered(s, true) && Plausible(s, e) && KeepsToOwnFields(s, e)
    ensures Covered(Happen(s, e), true)
  {
    var t := Happen(s, e);
    if e.Resync? || e.Restart? {
      ResyncCovers(s, e);
    } else {
      forall k ensures UpCovered(t, k) && DownCovered(t, k, true) {
        assert UpCovered(s, k) && DownCovered(s, k, true);
        if e.PutDown? && k == e.key && k in s.up.objects {
          assert Issued(s, s.up.objects[k]);
          NewVersionIsUnnamed(s, s.up.objects[k], t.down.objects[k].status, t.down.objects[k]);
        }
      }
    }
  }

  // ----- Runs of steps and outside writes -----

  /** Two clusters whose informers have just been started: they list everything and queue every object. */
  function Started(up: Cluster, down: Cluster): State {
    Happen(State(up, down, up.objects, down.objects, {}, {}, {}, {}), Resync)
  }

  datatype Event = Inside(step: Step) | From(outside: Outside)

  ghost predicate Leads(s: State, event: Event, t: State) {
    match event
    case Inside(step) => Enabled(s, step) && t == Do(s, step)
    case From(e) => Plausible(s, e) && t == Happen(s, e)
  }

  ghost predicate IsMixedRun(states: seq<State>, events: seq<Event>) {
    && |states| == |events| + 1
    && forall i :: 0 <= i < |events| ==> Leads(states[i], events[i], states[i + 1])
  }

  lemma {:induction false} MixedRunIsSound(states: seq<State>, events: seq<Event>, n: nat)
    requires IsMixedRun(states, events) && n < |states| && Sound(states[0])
    ensures Sound(states[n])
  {
    hide Sound, Do, Happen, Enabled, Plausible;
    if n > 0 {
      MixedRunIsSound(states, events, n - 1);
      assert Leads(states[n - 1], events[n - 1], states[n]);
      match events[n - 1] {
        case Inside(step) => StepKeepsSound(states[n - 1], step);
        case From(e) => OutsideKeepsSound(states[n - 1], e);
      }
    }
  }

  /** After the event, a difference is covered no more: it is a sync that drops a key for which there is still something
      to do, or a write that is not noticed. */
  predicate Misses(s: State, event: Event) {
    match event
    case Inside(step) => Loses(s, step, false)
    case From(e) => !Noticed(s, e)
  }

  /** Outside writes keep to their own fields. */
  ghost predicate KeepsFields(s: State, event: Event) { event.From? ==> KeepsToOwnFields(s, event.outside) }

  /** The event is a sync that drops a key, in the stronger form. */
  predicate LosesKey(s: State, event: Event) { event.Inside? && Loses(s, event.step, true) }

  // One event, in either form.
  lemma EventCoversIff(s: State, event: Event, t: State)
    requires Sound(s) && Covered(s, false) && Leads(s, event, t)
    ensures Covered(t, false) <==> !Misses(s, event)
  {
    hide Sound, Covered, Do, Happen, Enabled, Plausible, Noticed, Loses;
    match event
    case Inside(step) => StepCovers(s, step, false);
    case From(e) => CoveredIffNoticed(s, e);
  }

  lemma EventCovers(s: State, event: Event, t: State)
    requires Sound(s) && Covered(s, true) && Leads(s, event, t) && KeepsFields(s, event)
    ensures Covered(t, true) <==> !LosesKey(s, event)
  {
    hide Sound, Covered, Do, Happen, Enabled, Plausible, KeepsToOwnFields, Loses;
    match event
    case Inside(step) => StepCovers(s, step, true);
    case From(e) => OutsideKeepsCovered(s, e);
  }

  ghost predicate StaysCovered(states: seq<State>, n: nat, tidy: bool) {
    forall i :: 0 <= i < |states| && i <= n ==> Covered(states[i], tidy)
  }

  ghost predicate NoneMissed(states: seq<State>, events: seq<Event>, n: nat)
    requires n <= |events| <= |states|
  {
    forall i :: 0 <= i < n ==> !Misses(states[i], events[i])
  }

  ghost predicate NoneLost(states: seq<State>, events: seq<Event>, n: nat)
    requires n <= |events| <= |states|
  {
    forall i :: 0 <= i < n ==> !LosesKey(states[i], events[i])
  }

  lemma {:induction false} CoveredWhileNoneMissed(states: seq<State>, events: seq<Event>, n: nat)
    requires IsMixedRun(states, events) && n < |states| && Sound(states[0]) && Covered(states[0], false)
    ensures StaysCovered(states, n, false) <==> NoneMissed(states, events, n)
  {
    hide Sound, Covered, Misses, Leads;
    if n > 0 {
      CoveredWhileNoneMissed(states, events, n - 1);
      MixedRunIsSound(states, events, n - 1);
      assert StaysCovered(states, n, false) <==> StaysCovered(states, n - 1, false) && Covered(states[n], false);
      assert NoneMissed(states, events, n) <==>
        NoneMissed(states, events, n - 1) && !Misses(states[n - 1], events[n - 1]);
      if StaysCovered(states, n - 1, false) {
        EventCoversIff(states[n - 1], events[n - 1], states[n]);
      }
    }
  }

  lemma {:induction false} CoveredWhileNoneLost(states: seq<State>, events: seq<Event>, n: nat)
    requires IsMixedRun(states, events) && n < |states| && Sound(states[0]) && Covered(states[0], true)
    requires forall i :: 0 <= i < n ==> KeepsFields(states[i], events[i])
    ensures StaysCovered(states, n, true) <==> NoneLost(states, events, n)
  {
    hide Sound, Covered, LosesKey, Leads, KeepsFields;
    if n > 0 {
      CoveredWhileNoneLost(states, events, n - 1);
      MixedRunIsSound(states, events, n - 1);
      assert StaysCovered(states, n, true) <==> StaysCovered(states, n - 1, true) && Covered(states[n], true);
      assert NoneLost(states, events, n) <==>
        NoneLost(states, events, n - 1) && !LosesKey(states[n - 1], events[n - 1]);
      if StaysCovered(states, n - 1, true) {
        EventCovers(states[n - 1], events[n - 1], states[n]);
      }
    }
  }

  lemma StartIsCovered(up: Cluster, down: Cluster)
    requires Sound(State(up, down, up.objects, down.objects, {}, {}, {}, {}))
    ensures Sound(Started(up, down)) && Covered(Started(up, down), true) && Covered(Started(up, down), false)
  {
    hide Sound, Covered, Happen;
    var s := State(up, down, up.objects, down.objects, {}, {}, {}, {});
    assert Plausible(s, Resync);
    ResyncCovers(s, Resync);
    OutsideKeepsSound(s, Resync);
    TidyIsCovered(Happen(s, Resync));
  }

  /** From the moment the informers are started, through outside writes of any kind and any steps of the syncer in
      between, early or not, every difference stays covered if and only if no sync loses its key and every write is
      noticed. */
  lemma CoveredIffNoneMissed(states: seq<State>, events: seq<Event>, up: Cluster, down: Cluster)
    requires IsMixedRun(states, events)
    requires states[0] == Started(up, down) && Sound(State(up, down, up.objects, down.objects, {}, {}, {}, {}))
    ensures forall n :: 0 <= n < |states| ==> Sound(states[n])
    ensures StaysCovered(states, |events|, false) <==> NoneMissed(states, events, |events|)
  {
    hide Sound, Covered, Misses, Leads, Happen;
    StartIsCovered(up, down);
    forall n | 0 <= n < |states| ensures Sound(states[n]) {
      MixedRunIsSound(states, events, n);
    }
    CoveredWhileNoneMissed(states, events, |events|);
  }

  /** Writers who keep to their own fields need not look at the queues: then every difference stays covered, in the
      stronger form, if and only if no sync loses its key. */
  lemma MixedRunStaysCovered(states: seq<State>, events: seq<Event>, up: Cluster, down: Cluster)
    requires IsMixedRun(states, events) && forall i :: 0 <= i < |events| ==> KeepsFields(states[i], events[i])
    requires states[0] == Started(up, down) && Sound(State(up, down, up.objects, down.objects, {}, {}, {}, {}))
    ensures StaysCovered(states, |events|, true) <==> NoneLost(states, events, |events|)
    ensures StaysCovered(states, |events|, true) ==> StaysCovered(states, |events|, false)
  {
    hide Sound, Covered, LosesKey, Leads, Happen, KeepsFields;
    StartIsCovered(up, down);
    CoveredWhileNoneLost(states, events, |events|);
    if StaysCovered(states, |events|, true) {
      forall i | 0 <= i < |states| ensures Covered(states[i], false) { TidyIsCovered(states[i]); }
    }
  }

  // ----- When the writers stop -----

  /** Nobody else writes; resyncs and restarts still happen. */
  predicate Quiet(event: Event) { event.From? ==> event.outside.Resync? || event.outside.Restart? }

  /** Queueing a key again adds three to its rank at most. */
  const REQUEUE := 3

  /** What the first n events allow for: a constant for each early step, and one for each resync or restart. */
  function Allowance(states: seq<State>, events: seq<Event>, keys: seq<Key>, n: nat): nat
    requires n <= |events| <= |states|
  {
    if n == 0 then 0
    else
      Allowance(states, events, keys, n - 1) +
      match events[n - 1]
      case Inside(step) => Weight(Early(states[n - 1], step), MAX_RANK + 1)
      case From(_) => REQUEUE * |keys| + 1
  }

  function Known(s: State): set<Key> {
    s.upQueue + s.downQueue + s.upPending + s.downPending
    + s.up.objects.Keys + s.down.objects.Keys + s.upCache.Keys + s.downCache.Keys
  }

  /** All keys that are known anywhere. */
  ghost predicate Within(s: State, keys: seq<Key>) {
    forall k :: k in Known(s) ==> k in keys
  }

  predicate Drained(s: State) {
    s.upQueue == s.downQueue == s.upPending == s.downPending == {}
  }

  lemma StepKeepsWithin(s: State, step: Step, keys: seq<Key>)
    requires Within(s, keys) && Enabled(s, step)
    ensures step.key in keys && Within(Do(s, step), keys)
  {
    hide Do;
    var t := Do(s, step);
    assert step.key in Known(s);
    forall k | k in Known(t) ensures k in keys {
      if k != step.key {
        StepIsLocal(s, step, k);
        assert k in s.up.objects <==> Get(s.up.objects, k).Some?;
        assert k in s.down.objects <==> Get(s.down.objects, k).Some?;
      }
    }
  }

  lemma {:induction false} RequeueRaisesTotal(s: State, e: Outside, keys: seq<Key>)
    requires e.Resync? || e.Restart?
    ensures Total(Happen(s, e), keys) <= Total(s, keys) + REQUEUE * |keys|
  {
    if keys != [] {
      RequeueRaisesTotal(s, e, keys[1..]);
      assert Rank(Happen(s, e), keys[0]) <= Rank(s, keys[0]) + REQUEUE;
    }
  }

  lemma {:induction false} RunLowersTotal(states: seq<State>, events: seq<Event>, keys: seq<Key>, n: nat)
    requires IsMixedRun(states, events) && n < |states| && Distinct(keys)
    requires forall i :: 0 <= i < |events| ==> Quiet(events[i]) && !Misses(states[i], events[i])
    requires Sound(states[0]) && Covered(states[0], false) && Within(states[0], keys)
    ensures Sound(states[n]) && Covered(states[n], false) && Within(states[n], keys)
    ensures n + Total(states[n], keys) <= Total(states[0], keys) + Allowance(states, events, keys, n)
  {
    hide Do, Enabled, Happen, Misses, Sound, Covered, Within, Early, Distinct, Total;
    if n > 0 {
      RunLowersTotal(states, events, keys, n - 1);
      var s, event := states[n - 1], events[n - 1];
      assert Leads(s, event, states[n]) && Quiet(event);
      EventCoversIff(s, event, states[n]);
      match event
      case Inside(step) =>
        StepKeepsSound(s, step);
        StepLowersTotal(s, step, keys);
        StepKeepsWithin(s, step, keys);
      case From(e) =>
        OutsideKeepsSound(s, e);
        RequeueRaisesTotal(s, e, keys);
        RequeueKeepsWithin(s, e, keys);
    }
  }

  lemma RequeueKeepsWithin(s: State, e: Outside, keys: seq<Key>)
    requires Within(s, keys) && (e.Resync? || e.Restart?)
    ensures Within(Happen(s, e), keys)
  {
  }

  /** What the two clusters look like when all is said and done. */
  ghost predicate Consistent(s: State) {
    forall k ::
      var u, d := Get(s.up.objects, k), Get(s.down.objects, k);
      // A downstream object whose upstream is gone or being deleted is itself being deleted, held by a finalizer.
      && (u.None? || u.value.deleting ==> d.None? || (d.value.deleting && d.value.finalizers))
      && (u.Some? && !u.value.deleting ==> d.Some?)
      && (u.Some? && !u.value.deleting && d.Some? ==>
            && d.value.spec == u.value.spec && d.value.labels == u.value.labels
            && d.value.annotations == u.value.annotations - {REMOTE_VERSION})
      && (u.Some? && d.Some? ==>
            && u.value.status == d.value.status
            && REMOTE_VERSION in u.value.annotations
            && u.value.annotations[REMOTE_VERSION] == VersionText(d.value.version))
  }

  /** Quiescence: however events are delivered and workers take turns, with early syncs, resyncs and restarts and
      without, the steps are no more than the measure of the start, a constant for each early one, and one for each
      resync or restart; as long as the queues are not drained some step can be taken that is not early; and once they
      are, the clusters are consistent. The one step that must not be among them is the one that loses its key. */
  lemma QueuesDrain(states: seq<State>, events: seq<Event>, keys: seq<Key>)
    requires IsMixedRun(states, events) && Distinct(keys)
    requires forall i :: 0 <= i < |events| ==> Quiet(events[i]) && !Misses(states[i], events[i])
    requires Sound(states[0]) && Covered(states[0], false) && Within(states[0], keys)
    ensures |events| <= Total(states[0], keys) + Allowance(states, events, keys, |events|)
    ensures var s := states[|events|]; !Drained(s) ==> exists step :: Enabled(s, step) && !Early(s, step)
    ensures Drained(states[|events|]) ==> Consistent(states[|events|])
  {
    hide Misses, Sound, Covered, Within, Total, Allowance, Consistent, Leads;
    var n := |events|;
    var s := states[n];
    RunLowersTotal(states, events, keys, n);
    if !Drained(s) {
      StepExists(s);
    } else {
      DrainedIsConsistent(s);
    }
  }

  lemma StepExists(s: State)
    requires !Drained(s)
    ensures exists step :: Enabled(s, step) && !Early(s, step)
  {
    if k :| k in s.upPending {
      assert Enabled(s, DeliverUp(k)) && !Early(s, DeliverUp(k));
    } else if k :| k in s.downPending {
      assert Enabled(s, DeliverDown(k)) && !Early(s, DeliverDown(k));
    } else if k :| k in s.upQueue {
      assert Enabled(s, SyncUp(k)) && !Early(s, SyncUp(k));
    } else {
      var k :| k in s.downQueue;
      assert Enabled(s, SyncDown(k)) && !Early(s, SyncDown(k));
    }
  }

  lemma DrainedIsConsistent(s: State)
    requires Sound(s) && Covered(s, false) && Drained(s)
    ensures Consistent(s)
  {
    forall k
      ensures
        var u, d := Get(s.up.objects, k), Get(s.down.objects, k);
        && UpSettled(u, d) && (d.None? || DownSettled(u, d))
    {
      assert UpCovered(s, k) && DownCovered(s, k, false);
    }
  }

  /** So whenever the writers stop, and no event before or after was missed, the queues drain and leave the clusters
      consistent. */
  lemma WritersStop(states: seq<State>, events: seq<Event>, m: nat, keys: seq<Key>, up: Cluster, down: Cluster)
    requires IsMixedRun(states, events) && m <= |events| && NoneMissed(states, events, |events|)
    requires states[0] == Started(up, down) && Sound(State(up, down, up.objects, down.objects, {}, {}, {}, {}))
    requires (forall i :: m <= i < |events| ==> Quiet(events[i])) && Distinct(keys) && Within(states[m], keys)
    ensures |events| - m <= Total(states[m], keys) + Allowance(states[m..], events[m..], keys, |events| - m)
    ensures var s := states[|events|]; !Drained(s) ==> exists step :: Enabled(s, step) && !Early(s, step)
    ensures Drained(states[|events|]) ==> Consistent(states[|events|])
  {
    hide Misses, Sound, Covered, Within, Total, Allowance, Consistent, Leads, Drained, Started;
    CoveredIffNoneMissed(states, events, up, down);
    assert Covered(states[m], false);
    forall i | 0 <= i < |events| - m
      ensures Leads(states[m..][i], events[m..][i], states[m..][i + 1])
      ensures Quiet(events[m..][i]) && !Misses(states[m..][i], events[m..][i])
    {
      assert Leads(states[m + i], events[m + i], states[m + i + 1]);
    }
    QueuesDrain(states[m..], events[m..], keys);
  }

  // ----- The key that is lost -----

  const LIVE := Object(0, map[], map[], "", Nil, false, false)
  const GOING := Object(0, map[], map[], "", Dict(map[]), true, true)

  /** The exception is real. Upstream creates an object, and downstream has one of that name that is being deleted, with
      another status. The downstream event is there first: its sync finds nothing upstream and drops the key. Once the
      upstream event has come there is nothing to push, the queues are drained, and the statuses differ. */
  lemma LostKeyIsNeverSynced(key: Key)
    ensures exists states: seq<State>, events: seq<Event> ::
      && IsMixedRun(states, events) && states[0] == Started(Cluster(map[], 0), Cluster(map[], 0))
      && Drained(states[|events|]) && !Consistent(states[|events|])
  {
    var none, u, d := Cluster(map[], 0), LIVE.(version := 1), GOING.(version := 1);
    var up, down := Cluster(map[key := u], 1), Cluster(map[key := d], 1);
    var s0 := State(none, none, map[], map[], {}, {}, {}, {});
    var s1 := State(up, none, map[], map[], {key}, {}, {}, {});
    var s2 := State(up, down, map[], map[], {key}, {key}, {}, {});
    var s3 := State(up, down, map[], map[key := d], {key}, {}, {}, {key});
    var s4 := State(up, down, map[], map[key := d], {key}, {}, {}, {});
    var s5 := State(up, down, map[key := u], map[key := d], {}, {}, {key}, {});
    var s6 := State(up, down, map[key := u], map[key := d], {}, {}, {}, {});
    LostKeyDrops(s3, s4, key);
    NothingToPush(s5, s6, key);
    var states := [s0, s1, s2, s3, s4, s5, s6];
    var events := [From(PutUp(key, LIVE)), From(PutDown(key, GOING)), Inside(DeliverDown(key)), Inside(SyncDown(key)),
                   Inside(DeliverUp(key)), Inside(SyncUp(key))];
    assert Leads(s0, events[0], s1) && Leads(s1, events[1], s2) && Leads(s2, events[2], s3) && Leads(s4, events[4], s5);
    hide Leads;
    assert IsMixedRun(states, events);
    assert !Consistent(s6) by { assert Get(s6.up.objects, key) == Some(u) && Get(s6.down.objects, key) == Some(d); }
  }

  lemma LostKeyDrops(s: State, t: State, key: Key)
    requires key in s.downCache && s.downCache[key].deleting && key !in s.upCache && key in s.downQueue
    requires t == s.(downQueue := s.downQueue - {key})
    ensures Leads(s, Inside(SyncDown(key)), t)
  {
    var o := Downed(s, key);
    assert o.up == s.up && o.down == s.down && !o.failed && !o.toUpstream;
  }

  lemma NothingToPush(s: State, t: State, key: Key)
    requires key in s.upCache && key in s.downCache && key in s.down.objects && s.downCache[key] == s.down.objects[key]
    requires !s.upCache[key].deleting && WithSpec(s.downCache[key], s.upCache[key]) == s.downCache[key]
    requires key in s.upQueue
    requires t == s.(upQueue := s.upQueue - {key})
    ensures Leads(s, Inside(SyncUp(key)), t)
  {
    var o := Upped(s, key);
    assert o.up == s.up && o.down == s.down && !o.failed;
  }

  /** Once the queues have drained, exactly the writes that are repaired leave every difference covered. */
  lemma CoveredIffRepaired(s: State, key: Key, o: Object)
    requires Sound(s) && Covered(s, false) && Drained(s)
    ensures Covered(Happen(s, PutUp(key, o)), false) <==> Repaired(s, key, o)
  {
    hide Sound, Covered, Happen, Repaired;
    CoveredIffNoticed(s, PutUp(key, o));
  }

  lemma EqualIsSettled(u: Object, d: Object)
    ensures WithStatus(u, d.status, d) == u <==>
      && u.status == d.status
      && REMOTE_VERSION in u.annotations && u.annotations[REMOTE_VERSION] == VersionText(d.version)
  {
    if REMOTE_VERSION in u.annotations && u.annotations[REMOTE_VERSION] == VersionText(d.version) {
      assert WithStatus(u, d.status, d).annotations == u.annotations;
    } else {
      assert REMOTE_VERSION in WithStatus(u, d.status, d).annotations;
    }
  }

  /** And an unrepaired write is never noticed: syncUpstream has nothing to push, the queues are drained after
      two steps, and the clusters stay inconsistent until the next resync. */
  lemma UnrepairedWriteSurvives(s: State, key: Key, o: Object)
    requires Sound(s) && Covered(s, false) && Drained(s) && Issued(s, o) && !Repaired(s, key, o)
    ensures
      var s1 := Happen(s, PutUp(key, o));
      var s2 := Do(s1, DeliverUp(key));
      var t := Do(s2, SyncUp(key));
      && Enabled(s1, DeliverUp(key)) && Enabled(s2, SyncUp(key))
      && Drained(t) && !Consistent(t)
  {
    var s1 := Happen(s, PutUp(key, o));
    var s2 := Do(s1, DeliverUp(key));
    OutsideKeepsSound(s, PutUp(key, o));
    StepKeepsSound(s1, DeliverUp(key));
    SyncUpEffect(s2, key);
    var u, d := Get(s2.up.objects, key), Get(s2.down.objects, key);
    VersionDoesNotMatter(o, d, s.up.clock + 1);
    var t := Do(s2, SyncUp(key));
    hide Upped;
    assert t.up == s2.up && t.down == s2.down && Drained(t);
    assert UpSettled(u, d) && !DownSettled(u, d);
    EqualIsSettled(u.value, d.value);
    assert Get(t.up.objects, key) == u && Get(t.down.objects, key) == d;
  }
}
