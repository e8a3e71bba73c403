/** All interleavings of the reconciles of one ChartAssignment, the worker of its release, a cache that lags behind,
    and everybody else who writes the object. */
module ChartAssignmentRuns {
  import opened Wrappers
  import opened Release
  import opened ChartAssignments
  import R = ReleaseRuns

  datatype Stored = Stored(uid: nat, version: nat, generation: nat, deleting: bool, finalizers: seq<string>,
                           status: AssignmentStatus)

  /** Where the reconcile stands, with the object it has in its hands. */
  datatype Place =
    | Idle
    | Preparing(o: Stored) | UpdateDue(o: Stored) | UpdateCalled(o: Stored)
    | DeleteDue(o: Stored) | DeleteCalled(o: Stored) | Removing(o: Stored)
    | StatusDue(o: Stored) | Writing(o: Stored, status: AssignmentStatus)

  /** `history` is every state of the object so far, of which the cache shows the one at `shown`. `installed` is the
      object whose update was started last, until the release reaches Deleted; `doomed` are the objects for which a
      deletion was ever reconciled. `answer` is what ensureUpdated returned in this reconcile, false before it did. */
  datatype State = State(
    live: Option<Stored>, clock: nat, history: seq<Option<Stored>>, shown: nat,
    rel: R.State, place: Place, answer: bool, installed: Option<nat>, doomed: set<nat>)

  datatype Step =
    | Outside(next: Option<Stored>) | CacheMoves(to: nat)
    | Take | Prepare(ok: bool) | Release(step: R.Step) | UpdateReturns
    | ReadPhase | Remove(ok: bool)
    | ReadStatus(lookup: Lookup, now: int) | WriteStatus(ok: bool)

  const NEW_STATUS := AssignmentStatus(0, None, [])
  const INIT := State(None, 0, [None], 0, R.INIT, Idle, false, None, {})

  /** What others may do to the object, in one write or several. They do not write the status; a deletion that was asked
      for stays, and an object under deletion is gone when it has no finalizer. */
  predicate Allowed(live: Option<Stored>, next: Option<Stored>, clock: nat) {
    match (live, next)
    case (None, Some(n)) =>
      && n.uid == clock + 1 && n.version == clock + 1 && n.generation == 1
      && !n.deleting && n.status == NEW_STATUS
    case (Some(o), Some(n)) =>
      && n.uid == o.uid && n.version == clock + 1 && n.generation >= o.generation && n.status == o.status
      && (o.deleting ==> n.deleting) && (n.deleting ==> n.finalizers != [])
    case (Some(_), None) => true
    case (None, None) => false
  }

  /** They take the finalizer away. */
  predicate Strips(s: State, step: Step) {
    && step.Outside? && s.live.Some? && FINALIZER in s.live.value.finalizers
    && !Holds(step.next, s.live.value.uid)
  }

  predicate Enabled(s: State, step: Step) {
    match step
    case Outside(next) => Allowed(s.live, next, s.clock)
    case CacheMoves(to) => s.shown <= to < |s.history|
    case Take => s.place.Idle? && s.shown < |s.history|
    case Prepare(_) => s.place.Preparing?
    case Release(r) =>
      && R.Enabled(s.rel, r)
      && (r.Call? ==> s.place.UpdateDue? && r.wanted == s.place.o.generation)
      && (r.CallDelete? ==> s.place.DeleteDue?)
    case UpdateReturns => s.place.UpdateCalled? && s.rel.caller.AtRest?
    case ReadPhase => s.place.DeleteCalled? && s.rel.caller.AtRest?
    case Remove(_) => s.place.Removing?
    case ReadStatus(_, _) => s.place.StatusDue?
    case WriteStatus(_) => s.place.Writing?
  }

  function Store(s: State, live: Option<Stored>): State {
    s.(live := live, clock := s.clock + 1, history := s.history + [live])
  }

  /** The API server takes a write that carries the current version. */
  predicate IsCurrent(s: State, o: Stored) {
    s.live.Some? && s.live.value.uid == o.uid && s.live.value.version == o.version
  }

  function WithFinalizers(s: State, finalizers: seq<string>): Stored
    requires s.live.Some?
  {
    s.live.value.(finalizers := finalizers, version := s.clock + 1)
  }

  function Taken(s: State): State
    requires s.shown < |s.history|
  {
    match s.history[s.shown]
    case None => s
    case Some(o) =>
      if o.deleting then s.(place := DeleteDue(o), answer := false, doomed := s.doomed + {o.uid})
      else s.(place := Preparing(o), answer := false)
  }

  /** Between the look at the namespace and ensureUpdated: the finalizer is added, if need be. */
  function Prepared(s: State, ok: bool): State
    requires s.place.Preparing?
  {
    var o := s.place.o;
    if !ok then s.(place := Idle)
    else if FINALIZER in o.finalizers then s.(place := UpdateDue(o))
    else if !IsCurrent(s, o) then s.(place := Idle)
    else
      var new_ := WithFinalizers(s, o.finalizers + [FINALIZER]);
      Store(s, Some(new_)).(place := UpdateDue(new_))
  }

  function Released(s: State, step: R.Step): State
    requires Enabled(s, Release(step))
  {
    var rel := R.Do(s.rel, step);
    var t := s.(rel := rel);
    match step
    case Call(_) => t.(place := UpdateCalled(s.place.o))
    case CallDelete => t.(place := DeleteCalled(s.place.o))
    case Send(_) => if s.rel.caller.job.Update? && s.place.UpdateCalled? then t.(installed := Some(s.place.o.uid))
                    else t
    case Begin(_, _) | Show(_) => if rel.status.phase == Deleted then t.(installed := None) else t
    case Decide => if rel.caller.AtRest? then t.(answer := true) else t
    case Store => t.(answer := true)
    case _ => t
  }

  function Removed(s: State, ok: bool): State
    requires s.place.Removing?
  {
    var o := s.place.o;
    if !ok || !IsCurrent(s, o) then s.(place := Idle)
    else
      var new_ := WithFinalizers(s, Without(o.finalizers, FINALIZER));
      Store(s, if new_.deleting && new_.finalizers == [] then None else Some(new_)).(place := StatusDue(new_))
  }

  function Do(s: State, step: Step): State
    requires Enabled(s, step)
  {
    match step
    case Outside(next) => Store(s, next)
    case CacheMoves(to) => s.(shown := to)
    case Take => Taken(s)
    case Prepare(ok) => Prepared(s, ok)
    case Release(r) => Released(s, r)
    case UpdateReturns => s.(place := StatusDue(s.place.o))
    case ReadPhase =>
      s.(place := if s.rel.status.phase == Deleted && FINALIZER in s.place.o.finalizers then Removing(s.place.o)
                  else StatusDue(s.place.o))
    case Remove(ok) => Removed(s, ok)
    case ReadStatus(lookup, now) =>
      var new_ := NewStatus(s.place.o.status, s.place.o.generation, s.rel.status, lookup, now);
      s.(place := if s.rel.status.phase == Deleted || new_.None? then Idle else Writing(s.place.o, new_.value))
    case WriteStatus(ok) =>
      var t := s.(place := Idle);
      if ok && IsCurrent(s, s.place.o)
      then Store(t, Some(s.live.value.(status := s.place.status, version := s.clock + 1)))
      else t
  }

  ghost predicate IsRun(states: seq<State>, steps: seq<Step>) {
    && |states| == |steps| + 1
    && states[0] == INIT
    && forall i :: 0 <= i < |steps| ==> Enabled(states[i], steps[i]) && states[i + 1] == Do(states[i], steps[i])
  }

  // ----- The invariant -----

  /** The object exists and carries the finalizer. */
  predicate Holds(live: Option<Stored>, uid: nat) {
    live.Some? && live.value.uid == uid && FINALIZER in live.value.finalizers
  }

  /** No status that was ever written is unsound, and every write takes a later version. */
  ghost predicate Dated(history: seq<Option<Stored>>, clock: nat) {
    && (forall o :: Some(o) in history ==> o.uid <= clock && o.version <= clock && o.generation >= 1 && Sound(o.status))
    && (forall i, j :: 0 <= i < j < |history| && history[i].Some? && history[j].Some? ==>
          history[i].value.version < history[j].value.version)
  }

  /** An object under deletion stays so, and its generation never falls. */
  ghost predicate Steady(history: seq<Option<Stored>>) {
    forall i, j :: 0 <= i < j < |history| && history[i].Some? && history[j].Some?
                   && history[i].value.uid == history[j].value.uid ==>
      && (history[i].value.deleting ==> history[j].value.deleting)
      && history[i].value.generation <= history[j].value.generation
  }

  /** An object once stored with the finalizer has had it ever since, unless it was seen under deletion. */
  ghost predicate Guarded(history: seq<Option<Stored>>, doomed: set<nat>) {
    forall i, j :: 0 <= i <= j < |history| && history[i].Some? && FINALIZER in history[i].value.finalizers
                   && history[i].value.uid !in doomed ==>
      Holds(history[j], history[i].value.uid)
  }

  ghost predicate HistoryInv(s: State) {
    && s.shown < |s.history| && s.history[|s.history| - 1] == s.live
    && Dated(s.history, s.clock) && Steady(s.history) && Guarded(s.history, s.doomed)
    && (forall o :: Some(o) in s.history[s.shown..] && o.uid in s.doomed ==> o.deleting)
    && (forall u :: u in s.doomed ==> u <= s.clock)
  }

  /** The cache will not show a generation of the object below this one. */
  ghost predicate NotOlder(visible: seq<Option<Stored>>, uid: nat, generation: nat) {
    forall o :: Some(o) in visible && o.uid == uid ==> o.generation >= generation
  }

  /** The cache shows this object only, from now on. */
  ghost predicate OnlyShows(visible: seq<Option<Stored>>, uid: nat) {
    forall x :: x in visible ==> x.Some? && x.value.uid == uid
  }

  /** The reconcile that is inside ensureUpdated or ensureDeleted is the one that called it. */
  predicate CalledFrom(c: R.Caller, p: Place) {
    match c
    case AtRest => true
    case Added(w) => p.UpdateCalled? && w == p.o.generation
    case Read(w, _) => p.UpdateCalled? && w == p.o.generation
    case Sending(Update(w)) => p.UpdateCalled? && w == p.o.generation
    case Sent(w) => p.UpdateCalled? && w == p.o.generation
    case Sending(Delete) => p.DeleteCalled?
  }

  ghost predicate PlaceInv(s: State)
    requires s.shown < |s.history|
  {
    var c, p := s.rel.caller, s.place;
    && (!p.Idle? ==> Sound(p.o.status) && p.o.uid <= s.clock && p.o.generation >= 1 && p.o.generation >= R.Floor(s.rel))
    && (p.Preparing? ==> p.o.uid !in s.doomed && exists i :: 0 <= i <= s.shown && s.history[i] == Some(p.o))
    && (p.UpdateDue? || p.UpdateCalled? ==> Holds(s.live, p.o.uid) && OnlyShows(s.history[s.shown..], p.o.uid))
    && (p.Preparing? || p.UpdateDue? || p.UpdateCalled? ==> NotOlder(s.history[s.shown..], p.o.uid, p.o.generation))
    && (s.answer && ((p.UpdateCalled? && c.AtRest?) || p.StatusDue?) ==>
          R.Floor(s.rel) == 0 || R.Floor(s.rel) == p.o.generation)
    && (s.answer && p.UpdateCalled? ==> c.AtRest?)
    && (p.Preparing? || p.UpdateDue? || p.DeleteDue? || p.DeleteCalled? || p.Removing? ==> !s.answer)
    && (p.DeleteDue? || p.DeleteCalled? || p.Removing? ==> p.o.uid in s.doomed)
    && (p.Removing? && s.installed.Some? ==> R.NoDeletion(s.rel))
    && (p.Writing? ==> Sound(p.status))
    && CalledFrom(c, p)
  }

  ghost predicate InstalledInv(s: State)
    requires s.shown < |s.history|
  {
    && (s.installed.Some? ==>
          && Holds(s.live, s.installed.value) && OnlyShows(s.history[s.shown..], s.installed.value)
          && NotOlder(s.history[s.shown..], s.installed.value, R.Floor(s.rel)))
    && (s.installed.Some? && !R.AwaitsUpdate(s.rel) ==> s.rel.status.phase != Deleted)
    && (R.Floor(s.rel) > 0 ==> s.installed.Some?)
  }

  ghost predicate Inv(s: State) {
    R.Inv(s.rel) && HistoryInv(s) && PlaceInv(s) && InstalledInv(s)
  }

  // ----- Writing to the store -----

  /** The next state of the object carries the next version and keeps what has to be kept. */
  ghost predicate Evolves(s: State, next: Option<Stored>) {
    && (next.Some? ==> next.value.version == s.clock + 1 && next.value.generation >= 1 && Sound(next.value.status))
    && (next.Some? && s.live.None? ==> next.value.uid == s.clock + 1)
    && (next.Some? && s.live.Some? ==>
          && next.value.uid == s.live.value.uid && next.value.generation >= s.live.value.generation
          && (s.live.value.deleting ==> next.value.deleting))
    && (s.live.Some? && FINALIZER in s.live.value.finalizers ==>
          Holds(next, s.live.value.uid) || s.live.value.uid in s.doomed)
  }

  lemma InHistory(s: State)
    requires s.history != [] && s.history[|s.history| - 1] == s.live && s.shown < |s.history|
    ensures s.live in s.history && s.live in s.history[s.shown..]
    ensures forall o :: o in s.history[s.shown..] ==> o in s.history
    ensures forall next :: s.history + [next] == Store(s, next).history
                           && Store(s, next).history[s.shown..] == s.history[s.shown..] + [next]
  {
    assert s.history[s.shown..][|s.history| - 1 - s.shown] == s.live;
  }

  lemma StoreKeepsSteady(s: State, next: Option<Stored>)
    requires HistoryInv(s) && Evolves(s, next)
    ensures Steady(Store(s, next).history)
  {
    InHistory(s);
    var t := Store(s, next);
    forall i, j | 0 <= i < j < |t.history| && t.history[i].Some? && t.history[j].Some?
                  && t.history[i].value.uid == t.history[j].value.uid
      ensures (t.history[i].value.deleting ==> t.history[j].value.deleting)
      ensures t.history[i].value.generation <= t.history[j].value.generation
    {
      assert Some(t.history[i].value) in s.history;
      if j == |s.history| && i < |s.history| - 1 && s.live.Some? {
        assert s.history[|s.history| - 1].value.uid == s.history[i].value.uid;
      }
    }
  }

  lemma StoreKeepsGuarded(s: State, next: Option<Stored>)
    requires HistoryInv(s) && Evolves(s, next)
    ensures Guarded(Store(s, next).history, s.doomed)
  {
    hide Dated, Steady, Sound;
    var h, n := Store(s, next).history, |s.history|;
    forall i, j | 0 <= i <= j < |h| && h[i].Some? && FINALIZER in h[i].value.finalizers && h[i].value.uid !in s.doomed
      ensures Holds(h[j], h[i].value.uid)
    {
      if i < n {
        assert Holds(s.history[n - 1], s.history[i].value.uid);
        assert j < n ==> Holds(s.history[j], s.history[i].value.uid);
      }
    }
  }

  lemma StoreKeepsDated(s: State, next: Option<Stored>)
    requires HistoryInv(s) && Evolves(s, next)
    ensures Dated(Store(s, next).history, s.clock + 1)
  {
    hide Sound, Steady, Guarded, Holds;
    InHistory(s);
    var h := Store(s, next).history;
    forall i, j | 0 <= i < j < |h| && h[i].Some? && h[j].Some? ensures h[i].value.version < h[j].value.version {
      assert Some(s.history[i].value) in s.history;
    }
  }

  lemma StoreKeepsHistory(s: State, next: Option<Stored>)
    requires HistoryInv(s) && Evolves(s, next)
    ensures HistoryInv(Store(s, next))
  {
    hide Sound, Steady, Dated, Guarded, Holds;
    InHistory(s);
    StoreKeepsSteady(s, next);
    StoreKeepsDated(s, next);
    StoreKeepsGuarded(s, next);
    DatedUids(s);
  }

  lemma DatedUids(s: State)
    requires HistoryInv(s)
    ensures forall o :: Some(o) in s.history ==> o.uid <= s.clock
  {
    hide Sound, Steady, Guarded;
  }

  lemma StoreKeepsNotOlder(s: State, next: Option<Stored>, uid: nat, generation: nat)
    requires HistoryInv(s) && Evolves(s, next) && NotOlder(s.history[s.shown..], uid, generation) && uid <= s.clock
    ensures NotOlder(Store(s, next).history[s.shown..], uid, generation)
  {
    InHistory(s);
  }

  lemma StoreKeepsShown(s: State, next: Option<Stored>, uid: nat)
    requires HistoryInv(s) && OnlyShows(s.history[s.shown..], uid) && next.Some? && next.value.uid == uid
    ensures OnlyShows(Store(s, next).history[s.shown..], uid)
  {
    hide Dated, Steady, Guarded;
    InHistory(s);
  }

  lemma StoreKeepsPlace(s: State, next: Option<Stored>)
    requires Inv(s) && Evolves(s, next)
    requires s.live.Some? && FINALIZER in s.live.value.finalizers ==> Holds(next, s.live.value.uid)
    ensures PlaceInv(Store(s, next))
  {
    hide R.Inv, R.Floor, R.AwaitsUpdate, R.NoDeletion, HistoryInv, Sound, NotOlder, OnlyShows, InstalledInv, Evolves;
    HistoryIsThere(s);
    var p, t := s.place, Store(s, next);
    if p.Preparing? || p.UpdateDue? || p.UpdateCalled? {
      StoreKeepsNotOlder(s, next, p.o.uid, p.o.generation);
    }
    if p.UpdateDue? || p.UpdateCalled? {
      StoreKeepsShown(s, next, p.o.uid);
    }
    if p.Preparing? {
      var i :| 0 <= i <= s.shown && s.history[i] == Some(p.o);
      assert t.history[i] == Some(p.o);
    }
  }

  lemma HistoryIsThere(s: State)
    requires HistoryInv(s)
    ensures s.shown < |s.history|
  {
  }

  lemma StoreKeepsInv(s: State, next: Option<Stored>)
    requires Inv(s) && Evolves(s, next)
    requires s.live.Some? && FINALIZER in s.live.value.finalizers ==> Holds(next, s.live.value.uid)
    ensures Inv(Store(s, next))
  {
    hide R.Inv, R.Floor, R.AwaitsUpdate, R.NoDeletion, HistoryInv, PlaceInv, Sound, NotOlder, OnlyShows, Evolves;
    StoreKeepsHistory(s, next);
    StoreKeepsPlace(s, next);
    HistoryIsThere(s);
    if s.installed.Some? {
      InstalledIsPast(s);
      StoreKeepsNotOlder(s, next, s.installed.value, R.Floor(s.rel));
      StoreKeepsShown(s, next, s.installed.value);
    }
  }

  lemma InstalledIsPast(s: State)
    requires HistoryInv(s) && s.installed.Some? && Holds(s.live, s.installed.value)
    ensures s.installed.value <= s.clock
  {
    hide Sound, Steady, Guarded;
    InHistory(s);
  }

  // ----- The steps of the others, and of the reconcile -----

  lemma NewIsSound()
    ensures Sound(NEW_STATUS)
  {
  }

  lemma AllowedEvolves(s: State, next: Option<Stored>)
    requires HistoryInv(s) && Allowed(s.live, next, s.clock) && !Strips(s, Outside(next))
    ensures Evolves(s, next)
    ensures s.live.Some? && FINALIZER in s.live.value.finalizers ==> Holds(next, s.live.value.uid)
  {
    hide Sound, Steady, Guarded;
    InHistory(s);
    NewIsSound();
  }

  lemma OutsideKeepsInv(s: State, next: Option<Stored>)
    requires Inv(s) && Enabled(s, Outside(next)) && !Strips(s, Outside(next))
    ensures Inv(Do(s, Outside(next)))
  {
    hide HistoryInv, PlaceInv, InstalledInv, R.Inv, Evolves, Holds, Store, Allowed, Strips;
    AllowedEvolves(s, next);
    StoreKeepsInv(s, next);
  }

  lemma CacheKeepsInv(s: State, to: nat)
    requires Inv(s) && Enabled(s, CacheMoves(to))
    ensures Inv(Do(s, CacheMoves(to)))
  {
    hide R.Inv, R.Floor, R.AwaitsUpdate, R.NoDeletion, Dated, Steady, Guarded, Sound, Holds;
    var t := s.(shown := to);
    assert t.history[t.shown..] == s.history[s.shown..][t.shown - s.shown..];
    assert forall x :: x in t.history[t.shown..] ==> x in s.history[s.shown..];
  }

  lemma ShownFacts(s: State, o: Stored)
    requires HistoryInv(s) && s.history[s.shown] == Some(o)
    ensures Some(o) in s.history && Some(o) in s.history[s.shown..]
    ensures NotOlder(s.history[s.shown..], o.uid, o.generation) && o.uid <= s.clock && o.generation >= 1
    ensures Sound(o.status)
    ensures o.deleting ==> forall p :: Some(p) in s.history[s.shown..] && p.uid == o.uid ==> p.deleting
  {
    assert s.history[s.shown..][0] == Some(o) && Some(o) in s.history;
    forall p | Some(p) in s.history[s.shown..] && p.uid == o.uid
      ensures (o.deleting ==> p.deleting) && p.generation >= o.generation
    {
      var j :| 0 <= j < |s.history[s.shown..]| && s.history[s.shown..][j] == Some(p);
      assert s.history[s.shown + j] == Some(p);
    }
  }

  // What the cache shows is of the installed object, and not older than the update that was accepted.
  lemma ShownIsInOrder(s: State, o: Stored)
    requires Inv(s) && s.history[s.shown] == Some(o)
    ensures o.generation >= R.Floor(s.rel)
  {
    hide R.Inv, R.Floor, R.AwaitsUpdate, R.NoDeletion, HistoryInv, PlaceInv, Sound;
    HistoryIsThere(s);
    assert s.history[s.shown..][0] == Some(o);
    assert Some(o) in s.history[s.shown..];
  }

  lemma DoomKeepsHistory(s: State, o: Stored)
    requires HistoryInv(s) && s.history[s.shown] == Some(o) && o.deleting
    ensures HistoryInv(s.(place := DeleteDue(o), answer := false, doomed := s.doomed + {o.uid}))
  {
    hide Dated, Steady, Holds, NotOlder, Sound;
    ShownFacts(s, o);
  }

  lemma TakeDeletionKeepsInv(s: State, o: Stored)
    requires Inv(s) && s.place.Idle? && s.history[s.shown] == Some(o) && o.deleting
    ensures Inv(s.(place := DeleteDue(o), answer := false, doomed := s.doomed + {o.uid}))
  {
    hide HistoryInv, NotOlder, OnlyShows, R.Inv, Sound, R.Floor, R.AwaitsUpdate, Holds;
    ShownFacts(s, o);
    ShownIsInOrder(s, o);
    DoomKeepsHistory(s, o);
  }

  lemma NotDoomed(s: State, o: Stored)
    requires HistoryInv(s) && s.history[s.shown] == Some(o) && !o.deleting
    ensures o.uid !in s.doomed
  {
    hide Dated, Steady, Guarded;
    assert s.history[s.shown..][0] == Some(o);
  }

  lemma TakeUpdateKeepsInv(s: State, o: Stored)
    requires Inv(s) && s.place.Idle? && s.history[s.shown] == Some(o) && !o.deleting
    ensures Inv(s.(place := Preparing(o), answer := false))
  {
    hide HistoryInv, NotOlder, OnlyShows, R.Inv, Sound, R.Floor, R.AwaitsUpdate, Holds;
    ShownFacts(s, o);
    ShownIsInOrder(s, o);
    NotDoomed(s, o);
    HistoryStays(s, s.(place := Preparing(o), answer := false));
  }

  lemma TakeKeepsInv(s: State)
    requires Inv(s) && Enabled(s, Take)
    ensures Inv(Do(s, Take))
  {
    hide Inv;
    if s.history[s.shown].Some? {
      if s.history[s.shown].value.deleting {
        TakeDeletionKeepsInv(s, s.history[s.shown].value);
      } else {
        TakeUpdateKeepsInv(s, s.history[s.shown].value);
      }
    }
  }

  // The object that the reconcile prepares has the finalizer: so has all that the cache can show.
  lemma GuardedIsShown(s: State, o: Stored)
    requires HistoryInv(s) && o.uid !in s.doomed && FINALIZER in o.finalizers
    requires exists i :: 0 <= i <= s.shown && s.history[i] == Some(o)
    ensures Holds(s.live, o.uid) && OnlyShows(s.history[s.shown..], o.uid)
  {
    hide Dated, Steady;
    var i :| 0 <= i <= s.shown && s.history[i] == Some(o);
    forall x | x in s.history[s.shown..] ensures x.Some? && x.value.uid == o.uid {
      var j :| 0 <= j < |s.history[s.shown..]| && s.history[s.shown..][j] == x;
      assert Holds(s.history[s.shown + j], s.history[i].value.uid);
    }
    assert Holds(s.history[|s.history| - 1], s.history[i].value.uid);
  }

  // If it has the current version, it is the current object, and the cache shows that.
  lemma CurrentIsShown(s: State, o: Stored)
    requires HistoryInv(s) && IsCurrent(s, o)
    requires exists i :: 0 <= i <= s.shown && s.history[i] == Some(o)
    ensures s.live == Some(o) && s.shown == |s.history| - 1
  {
    hide Steady, Guarded, Sound;
    var i :| 0 <= i <= s.shown && s.history[i] == Some(o);
    assert s.history[|s.history| - 1].value.version == s.history[i].value.version;
  }

  lemma PrepareKeepsInv(s: State, ok: bool)
    requires Inv(s) && Enabled(s, Prepare(ok))
    ensures Inv(Do(s, Prepare(ok)))
  {
    hide R.Inv, R.Floor, R.AwaitsUpdate, R.NoDeletion, HistoryInv, NotOlder, OnlyShows, Sound, Holds;
    HistoryIsThere(s);
    var o, t := s.place.o, Do(s, Prepare(ok));
    if ok && FINALIZER !in o.finalizers && IsCurrent(s, o) {
      AddKeepsInv(s);
    } else {
      HistoryStays(s, t);
      if FINALIZER in o.finalizers {
        GuardedIsShown(s, o);
      }
    }
  }

  lemma AddEvolves(s: State)
    requires HistoryInv(s) && s.place.Preparing? && s.live == Some(s.place.o) && s.shown == |s.history| - 1
    ensures
      var new_ := WithFinalizers(s, s.place.o.finalizers + [FINALIZER]);
      && Evolves(s, Some(new_)) && Holds(Some(new_), s.place.o.uid) && new_.uid <= s.clock
      && OnlyShows(Store(s, Some(new_)).history[s.shown..], new_.uid)
      && NotOlder(Store(s, Some(new_)).history[s.shown..], new_.uid, new_.generation)
  {
    hide Sound, Steady, Guarded;
    InHistory(s);
    var o := s.place.o;
    var new_ := WithFinalizers(s, o.finalizers + [FINALIZER]);
    assert s.history[s.shown..] == [Some(o)];
    assert Store(s, Some(new_)).history[s.shown..] == [Some(o), Some(new_)];
    assert FINALIZER in new_.finalizers;
  }

  lemma AddKeepsInv(s: State)
    requires Inv(s) && s.place.Preparing? && IsCurrent(s, s.place.o)
    ensures
      var new_ := WithFinalizers(s, s.place.o.finalizers + [FINALIZER]);
      Inv(Store(s, Some(new_)).(place := UpdateDue(new_)))
  {
    hide R.Inv, R.Floor, R.AwaitsUpdate, R.NoDeletion, HistoryInv, NotOlder, OnlyShows, Sound, Holds, Evolves;
    var o := s.place.o;
    HistoryIsThere(s);
    CurrentIsShown(s, o);
    var new_ := WithFinalizers(s, o.finalizers + [FINALIZER]);
    AddEvolves(s);
    var t := Store(s, Some(new_));
    StoreKeepsInv(s, Some(new_));
    HistoryStays(t, t.(place := UpdateDue(new_)));
  }

  // ----- The steps of the release -----

  lemma HistoryStays(s: State, t: State)
    requires HistoryInv(s)
    requires (t.live, t.clock, t.history, t.shown, t.doomed) == (s.live, s.clock, s.history, s.shown, s.doomed)
    ensures HistoryInv(t)
  {
    hide Dated, Steady, Guarded, Holds, NotOlder;
  }

  lemma WorkerSteps(s: State, r: R.Step)
    requires Enabled(s, Release(r)) && (r.Begin? || r.Show?)
    ensures
      var rel := R.Do(s.rel, r);
      Do(s, Release(r)) == s.(rel := rel, installed := if rel.status.phase == Deleted then None else s.installed)
  {
    hide R.Do, R.Enabled;
  }

  lemma NotOlderThanNothing(visible: seq<Option<Stored>>, uid: nat)
    requires forall o :: Some(o) in visible ==> o.generation >= 0
    ensures NotOlder(visible, uid, 0)
  {
  }

  lemma WorkerKeepsInv(s: State, r: R.Step)
    requires Inv(s) && Enabled(s, Release(r)) && (r.Begin? || r.Show?)
    ensures Inv(Do(s, Release(r)))
  {
    hide R.Inv, R.Floor, R.AwaitsUpdate, R.NoDeletion, R.Enabled, R.Do, HistoryInv, Sound, Holds, OnlyShows, NotOlder,
         Do, Enabled, CalledFrom;
    HistoryIsThere(s);
    WorkerSteps(s, r);
    ReleaseEnabled(s, r);
    var rel := R.Do(s.rel, r);
    R.StepKeepsInv(s.rel, r);
    R.JobStepFacts(s.rel, r);
    if s.place.Removing? && s.installed.Some? {
      R.NoDeletionStays(s.rel, r);
    }
    if rel.status.phase == Deleted {
      R.DeletedHasNoGeneration(rel);
    }
    HistoryStays(s, Do(s, Release(r)));
    if s.installed.Some? {
      NotOlderThanNothing(s.history[s.shown..], s.installed.value);
    }
  }

  lemma ReleaseEnabled(s: State, r: R.Step)
    requires Enabled(s, Release(r))
    ensures R.Enabled(s.rel, r)
  {
  }

  // The caller's place in ensureUpdated or ensureDeleted, the object whose update it starts, and its answer.
  lemma CallerSteps(s: State, r: R.Step)
    requires CalledFrom(s.rel.caller, s.place) && Enabled(s, Release(r)) && !r.Begin? && !r.Show?
    ensures
      var t := Do(s, Release(r));
      && CalledFrom(t.rel.caller, t.place) && t.rel == R.Do(s.rel, r)
      && t == s.(rel := t.rel, place := t.place, answer := t.answer, installed := t.installed)
      && (t.place == s.place || (s.place.UpdateDue? && t.place == UpdateCalled(s.place.o))
                                || (s.place.DeleteDue? && t.place == DeleteCalled(s.place.o)))
      && (if r.Send? && s.rel.caller.job.Update? then
            s.place.UpdateCalled? && s.rel.caller.job.generation == s.place.o.generation
            && t.installed == Some(s.place.o.uid)
          else t.installed == s.installed)
      && (s.rel.caller.AtRest? ==> t.place != s.place || t.rel.caller.AtRest?)
      && (if (r.Decide? && t.rel.caller.AtRest?) || r.Store?
          then t.answer && t.rel.caller.AtRest? && t.place == s.place && s.place.UpdateCalled?
               && (r.Decide? ==> s.rel.caller.wanted == s.place.o.generation)
               && (r.Store? ==> s.rel.caller.generation == s.place.o.generation)
          else t.answer == s.answer)
  {
    hide R.Floor, R.WithRelease;
  }

  // The object in the hands of the reconcile is not older than the update that was accepted.
  lemma AsksInOrder(s: State, r: R.Step)
    requires Inv(s) && Enabled(s, Release(r))
    ensures R.InOrder(s.rel, r)
  {
    hide R.Inv, R.Floor, R.AwaitsUpdate, R.NoDeletion, HistoryInv, Sound, Holds, OnlyShows, NotOlder;
  }

  lemma CallerKeepsInv(s: State, r: R.Step)
    requires Inv(s) && Enabled(s, Release(r)) && !r.Begin? && !r.Show?
    ensures Inv(Do(s, Release(r)))
  {
    hide R.Inv, R.Floor, R.AwaitsUpdate, R.NoDeletion, R.Enabled, R.Do, HistoryInv, Sound, Holds, OnlyShows, NotOlder,
         Do, Enabled, CalledFrom;
    HistoryIsThere(s);
    var t := Do(s, Release(r));
    PlaceIsCalledFrom(s);
    CallerSteps(s, r);
    ReleaseEnabled(s, r);
    AsksInOrder(s, r);
    R.StepKeepsInv(s.rel, r);
    R.OtherStepFacts(s.rel, r);
    R.TrueMeansAccepted(s.rel, r);
    if s.place.Removing? && s.installed.Some? {
      AtRestInRemoval(s, r);
      R.NoDeletionStays(s.rel, r);
    }
    HistoryStays(s, t);
    if s.installed.Some? {
      NotOlderThanNothing(s.history[s.shown..], s.installed.value);
    }
  }

  // While the finalizer is being removed, the reconcile is in no call.
  lemma AtRestInRemoval(s: State, r: R.Step)
    requires CalledFrom(s.rel.caller, s.place) && s.place.Removing? && Enabled(s, Release(r))
    ensures !r.Send? && Do(s, Release(r)).place == s.place
  {
    hide R.Do;
  }

  lemma PlaceIsCalledFrom(s: State)
    requires s.shown < |s.history| && PlaceInv(s)
    ensures CalledFrom(s.rel.caller, s.place)
  {
  }

  // ----- The end of a reconcile -----

  lemma RemovalEvolves(s: State)
    requires Inv(s) && s.place.Removing? && IsCurrent(s, s.place.o)
    ensures Evolves(s, Removed(s, true).live)
    ensures var o := s.live.value; Sound(o.status) && o.uid <= s.clock && o.generation >= 1
  {
    hide R.Inv, R.Floor, R.AwaitsUpdate, R.NoDeletion, Steady, Guarded, OnePerKind, Has, OnlyShows, NotOlder,
         InstalledInv;
    InHistory(s);
  }

  /** The finalizer is taken from an object whose update was started. */
  predicate DropsInstalled(s: State, step: Step) {
    step == Remove(true) && s.place.Removing? && IsCurrent(s, s.place.o) && s.installed.Some?
  }

  lemma RemoveKeepsInv(s: State, ok: bool)
    requires Inv(s) && Enabled(s, Remove(ok)) && !DropsInstalled(s, Remove(ok))
    ensures Inv(Do(s, Remove(ok)))
  {
    hide R.Inv, R.Floor, R.AwaitsUpdate, R.NoDeletion, Sound, HistoryInv, Evolves, OnlyShows, NotOlder, Holds;
    HistoryIsThere(s);
    var t := Removed(s, ok);
    if ok && IsCurrent(s, s.place.o) {
      RemovalEvolves(s);
      StoreKeepsHistory(s, t.live);
      HistoryStays(Store(s, t.live), t);
    } else {
      HistoryStays(s, t);
    }
  }

  lemma StatusKeepsInv(s: State, lookup: Lookup, now: int)
    requires Inv(s) && Enabled(s, ReadStatus(lookup, now))
    ensures Inv(Do(s, ReadStatus(lookup, now)))
  {
    hide R.Inv, R.Floor, R.AwaitsUpdate, R.NoDeletion, HistoryInv, Sound, NewStatus, OnlyShows, NotOlder, Holds;
    HistoryIsThere(s);
    var t := Do(s, ReadStatus(lookup, now));
    R.AwaitsAndFloor(s.rel);
    if t.place.Writing? {
      SoundIsOnePerKind(s.place.o.status);
      NewStatusIsSound(s.place.o.status, s.place.o.generation, s.rel.status, lookup, now);
    }
    HistoryStays(s, t);
  }

  lemma SoundIsOnePerKind(status: AssignmentStatus)
    requires Sound(status)
    ensures OnePerKind(status.conditions)
  {
  }

  lemma StatusEvolves(s: State, status: AssignmentStatus)
    requires HistoryInv(s) && s.live.Some? && Sound(status)
    ensures
      var next := Some(s.live.value.(status := status, version := s.clock + 1));
      Evolves(s, next) && (FINALIZER in s.live.value.finalizers ==> Holds(next, s.live.value.uid))
  {
    hide Sound, Steady, Guarded;
    InHistory(s);
  }

  lemma WriteKeepsInv(s: State, ok: bool)
    requires Inv(s) && Enabled(s, WriteStatus(ok))
    ensures Inv(Do(s, WriteStatus(ok)))
  {
    hide R.Inv, R.Floor, R.AwaitsUpdate, R.NoDeletion, HistoryInv, Sound, Evolves, NotOlder, OnlyShows, Holds;
    HistoryIsThere(s);
    var t := s.(place := Idle);
    HistoryStays(s, t);
    if ok && IsCurrent(s, s.place.o) {
      StatusEvolves(t, s.place.status);
      StoreKeepsInv(t, Some(s.live.value.(status := s.place.status, version := s.clock + 1)));
    }
  }

  /** ensureDeleted finds phase Deleted between the acceptance of an update and its first phase, and is going to drop
      the finalizer. */
  predicate DropsEarly(s: State, step: Step) {
    step.ReadPhase? && s.place.DeleteCalled? && s.rel.status.phase == Deleted && FINALIZER in s.place.o.finalizers
    && R.AwaitsUpdate(s.rel)
  }

  lemma MoveKeepsInv(s: State, step: Step)
    requires Inv(s) && Enabled(s, step) && (step.UpdateReturns? || step.ReadPhase?)
    ensures Inv(Do(s, step))
    ensures step.ReadPhase? && Do(s, step).place.Removing? ==> (s.installed.Some? <==> DropsEarly(s, step))
  {
    hide R.Inv, R.Floor, R.AwaitsUpdate, R.NoDeletion, HistoryInv, Sound, Holds, NotOlder, OnlyShows;
    HistoryIsThere(s);
    HistoryStays(s, Do(s, step));
    if R.AwaitsUpdate(s.rel) {
      R.AwaitsNoDeletion(s.rel);
    }
  }

  lemma StepKeepsInv(s: State, step: Step)
    requires Inv(s) && Enabled(s, step)
    requires !DropsInstalled(s, step) && !Strips(s, step)
    ensures Inv(Do(s, step))
  {
    hide Inv, Enabled, Do, DropsInstalled, Strips;
    match step
    case Outside(next) => OutsideKeepsInv(s, next);
    case CacheMoves(to) => CacheKeepsInv(s, to);
    case Take => TakeKeepsInv(s);
    case Prepare(ok) => PrepareKeepsInv(s, ok);
    case Release(r) => if r.Begin? || r.Show? { WorkerKeepsInv(s, r); } else { CallerKeepsInv(s, r); }
    case Remove(ok) => RemoveKeepsInv(s, ok);
    case ReadStatus(lookup, now) => StatusKeepsInv(s, lookup, now);
    case WriteStatus(ok) => WriteKeepsInv(s, ok);
    case _ => MoveKeepsInv(s, step);
  }

  /** While the finalizer is being removed, no other update starts, and an update that was started stays so. */
  lemma RemovalStays(s: State, step: Step)
    requires Inv(s) && Enabled(s, step) && !step.ReadPhase? && Do(s, step).place.Removing?
    ensures s.place.Removing? && Do(s, step).installed == s.installed
  {
    hide R.Inv, R.Floor, R.AwaitsUpdate, R.NoDeletion, HistoryInv, Sound, Holds, NotOlder, OnlyShows, InstalledInv;
    HistoryIsThere(s);
    if step.Release? {
      PlaceIsCalledFrom(s);
      ReleaseEnabled(s, step.step);
      if step.step.Begin? || step.step.Show? {
        WorkerSteps(s, step.step);
        if s.installed.Some? { R.NoDeletionStays(s.rel, step.step); }
      } else {
        CallerSteps(s, step.step);
        AtRestInRemoval(s, step.step);
      }
    }
  }

  // ----- What holds in every run -----

  /** The last look at the phase fell between the acceptance of an update and its first phase, and found a Deleted that
      is left over from before. */
  ghost predicate LookedEarly(states: seq<State>, steps: seq<Step>, n: nat)
    requires n <= |steps| <= |states|
  {
    n > 0 && if steps[n - 1].ReadPhase? then DropsEarly(states[n - 1], steps[n - 1])
             else LookedEarly(states, steps, n - 1)
  }

  /** After such a look, the finalizer is removed from the object as it was read. */
  ghost predicate RemovesEarly(states: seq<State>, steps: seq<Step>, i: nat)
    requires i < |steps| <= |states|
  {
    steps[i] == Remove(true) && states[i].place.Removing? && IsCurrent(states[i], states[i].place.o)
    && LookedEarly(states, steps, i)
  }

  ghost predicate NoneRemovedEarly(states: seq<State>, steps: seq<Step>, n: nat)
    requires n <= |steps| <= |states|
  {
    forall i :: 0 <= i < n ==> !RemovesEarly(states, steps, i)
  }

  /** The first n steps are such that nobody else takes the finalizer away. */
  ghost predicate NoneStrips(states: seq<State>, steps: seq<Step>, n: nat)
    requires n <= |steps| <= |states|
  {
    forall i :: 0 <= i < n ==> !Strips(states[i], steps[i])
  }

  lemma InitIsInv()
    ensures Inv(INIT)
  {
  }

  lemma RunLength(states: seq<State>, steps: seq<Step>)
    requires IsRun(states, steps)
    ensures |states| == |steps| + 1
  {
  }

  /** As long as no finalizer is removed early or taken away by others, the invariant holds, and a removal that is due
      is of an object whose update was started exactly if the look was early. */
  lemma {:induction false} RunKeepsInv(states: seq<State>, steps: seq<Step>, n: nat)
    requires IsRun(states, steps) && n < |states| == |steps| + 1
    requires NoneRemovedEarly(states, steps, n) && NoneStrips(states, steps, n)
    ensures Inv(states[n])
    ensures states[n].place.Removing? ==> (states[n].installed.Some? <==> LookedEarly(states, steps, n))
  {
    hide Enabled, Do, DropsEarly, Inv, Strips;
    if n == 0 {
      InitIsInv();
    } else {
      RunKeepsInv(states, steps, n - 1);
      var s, step := states[n - 1], steps[n - 1];
      assert !RemovesEarly(states, steps, n - 1);
      StepKeepsInv(s, step);
      if states[n].place.Removing? {
        if step.ReadPhase? { MoveKeepsInv(s, step); ReadKeepsInstalled(s); } else { RemovalStays(s, step); }
      }
    }
  }

  lemma ReadKeepsInstalled(s: State)
    requires Enabled(s, ReadPhase)
    ensures Do(s, ReadPhase).installed == s.installed
  {
  }

  // Another update that starts meanwhile is of the same object: it holds the finalizer too.
  lemma InstalledStays(s: State, step: Step, uid: nat)
    requires Inv(s) && Enabled(s, step) && s.installed == Some(uid)
    requires !InDeleted(Do(s, step).rel)
    ensures Do(s, step).installed == Some(uid)
  {
    if step.Release? && (step.step.Begin? || step.step.Show?) {
      R.JobStepFacts(s.rel, step.step);
    } else if step.Release? {
      CallerSteps(s, step.step);
    }
    hide R.Inv, HistoryInv, R.Enabled, R.Do, R.Floor, R.AwaitsUpdate, Sound, NotOlder, Taken, Prepared, Removed, Store,
         NewStatus;
  }

  lemma StepAt(states: seq<State>, steps: seq<Step>, n: nat)
    requires IsRun(states, steps) && n + 1 < |states|
    ensures |states| == |steps| + 1 && Enabled(states[n], steps[n]) && states[n + 1] == Do(states[n], steps[n])
  {
  }

  /** The step puts an update into the hands of the worker. */
  predicate StartsUpdate(s: State, step: Step) {
    step.Release? && step.step.Send? && s.rel.caller.Sending? && s.rel.caller.job.Update?
  }

  /** Not counting a phase that is left over from before an update that waits. */
  predicate InDeleted(rel: R.State) { rel.status.phase == Deleted && !R.AwaitsUpdate(rel) }

  lemma StartInstalls(s: State, step: Step)
    requires Inv(s) && Enabled(s, step) && StartsUpdate(s, step)
    ensures s.place.UpdateCalled? && Do(s, step).installed == Some(s.place.o.uid)
  {
    CallerSteps(s, step.step);
  }

  lemma {:induction false} StaysInstalled(states: seq<State>, steps: seq<Step>, n: nat, m: nat)
    requires IsRun(states, steps) && n < m < |states| == |steps| + 1
    requires NoneRemovedEarly(states, steps, m) && NoneStrips(states, steps, m)
    requires StartsUpdate(states[n], steps[n])
    requires forall k :: n < k <= m ==> !InDeleted(states[k].rel)
    ensures states[n].place.UpdateCalled? && states[m].installed == Some(states[n].place.o.uid)
  {
    hide Inv, Enabled, Do, IsRun, RemovesEarly, StartsUpdate, InDeleted;
    StepAt(states, steps, m - 1);
    RunKeepsInv(states, steps, m - 1);
    if m == n + 1 {
      StartInstalls(states[n], steps[n]);
    } else {
      StaysInstalled(states, steps, n, m - 1);
      InstalledStays(states[m - 1], steps[m - 1], states[n].place.o.uid);
    }
  }

  /** The finalizer: an object whose update was started exists and carries the finalizer until its release reaches
      Deleted, whatever the cache shows, whoever else writes, and whichever calls fail. */
  lemma StartedCarriesFinalizer(states: seq<State>, steps: seq<Step>, n: nat, m: nat)
    requires IsRun(states, steps) && n < m < |states| == |steps| + 1
    requires NoneRemovedEarly(states, steps, m) && NoneStrips(states, steps, m)
    requires StartsUpdate(states[n], steps[n])
    requires forall k :: n < k <= m ==> !InDeleted(states[k].rel)
    ensures states[n].place.UpdateCalled? && Holds(states[m].live, states[n].place.o.uid)
  {
    hide IsRun, RemovesEarly, StartsUpdate, InDeleted, R.Inv, HistoryInv, PlaceInv, Holds, NotOlder;
    StaysInstalled(states, steps, n, m);
    RunKeepsInv(states, steps, m);
  }

  /** The object whose update was started last, and whose release has not reached Deleted since, carries the
      finalizer. */
  ghost predicate Carries(s: State) { s.installed.Some? ==> Holds(s.live, s.installed.value) }

  /** The steps that end it: others take the finalizer from an object whose update was started; so does a removal; or an
      update is started although the object has lost the finalizer before. */
  predicate EndsCarrying(s: State, step: Step) {
    || (step.Outside? && s.installed.Some? && !Holds(step.next, s.installed.value))
    || DropsInstalled(s, step)
    || (StartsUpdate(s, step) && s.place.UpdateCalled? && !Holds(s.live, s.place.o.uid))
  }

  lemma StepKeepsCalledFrom(s: State, step: Step)
    requires CalledFrom(s.rel.caller, s.place) && Enabled(s, step)
    ensures CalledFrom(Do(s, step).rel.caller, Do(s, step).place)
  {
    hide R.Do, R.Enabled, NewStatus;
    if step.Release? {
      if step.step.Begin? || step.step.Show? {
        WorkerSteps(s, step.step);
        WorkerLeavesCaller(s, step.step);
      } else {
        CallerSteps(s, step.step);
      }
    }
  }

  lemma WorkerLeavesCaller(s: State, r: R.Step)
    requires Enabled(s, Release(r)) && (r.Begin? || r.Show?)
    ensures R.Do(s.rel, r).caller == s.rel.caller
  {
    hide R.Statuses;
  }

  lemma StepCarriesIff(s: State, step: Step)
    requires Carries(s) && CalledFrom(s.rel.caller, s.place) && Enabled(s, step)
    ensures Carries(Do(s, step)) <==> !EndsCarrying(s, step)
  {
    hide R.Do, NewStatus, CalledFrom, R.Floor;
    match step
    case Release(r) =>
      if r.Begin? || r.Show? { WorkerSteps(s, r); } else { CallerSteps(s, r); }
    case Remove(_) => NoneLeft(s.place.o.finalizers);
    case _ =>
  }

  /** In every run, with everything that others may write, the finalizer is carried throughout if and only if there is
      no such step. */
  lemma {:induction false} CarriedIffNoneEnds(states: seq<State>, steps: seq<Step>, n: nat)
    requires IsRun(states, steps) && n < |states| == |steps| + 1
    ensures CalledFrom(states[n].rel.caller, states[n].place)
    ensures (forall m :: 0 <= m <= n ==> Carries(states[m])) <==>
      forall i :: 0 <= i < n ==> !EndsCarrying(states[i], steps[i])
  {
    hide Enabled, Do, EndsCarrying, Carries;
    if n == 0 {
      NothingToCarry();
    } else {
      CarriedIffNoneEnds(states, steps, n - 1);
      StepKeepsCalledFrom(states[n - 1], steps[n - 1]);
      if Carries(states[n - 1]) {
        StepCarriesIff(states[n - 1], steps[n - 1]);
      }
    }
  }

  lemma NothingToCarry()
    ensures Carries(INIT)
  {
  }

  /** The same, told by the steps: from the start of an update until its release reaches Deleted. */
  ghost predicate CarriedSinceStart(states: seq<State>, steps: seq<Step>, m: nat)
    requires m < |states| == |steps| + 1
  {
    forall n :: 0 <= n < m && StartsUpdate(states[n], steps[n])
                && (forall k :: n < k <= m ==> !InDeleted(states[k].rel)) ==>
      states[n].place.UpdateCalled? && Holds(states[m].live, states[n].place.o.uid)
  }

  lemma InstalledHolds(s: State)
    requires Inv(s)
    ensures Carries(s) && (s.installed.Some? ==> !InDeleted(s.rel))
  {
    hide R.Inv, R.Floor, R.AwaitsUpdate, HistoryInv, PlaceInv, Holds, OnlyShows, NotOlder;
  }

  // An early removal takes the finalizer from the object whose update was started.
  lemma RemovalDrops(s: State)
    requires Inv(s) && Enabled(s, Remove(true)) && IsCurrent(s, s.place.o) && s.installed.Some?
    ensures var t := Do(s, Remove(true));
      t.installed == s.installed && t.rel == s.rel && !Holds(t.live, s.installed.value)
  {
    hide R.Inv, R.Floor, R.AwaitsUpdate, HistoryInv, PlaceInv, OnlyShows, NotOlder;
    NoneLeft(s.place.o.finalizers);
  }

  lemma NoneLeft(finalizers: seq<string>)
    ensures FINALIZER !in Without(finalizers, FINALIZER)
  {
  }

  // Where the update of the installed object was started.
  lemma {:induction false} InstalledWasStarted(states: seq<State>, steps: seq<Step>, i: nat) returns (n: nat)
    requires IsRun(states, steps) && i < |states| == |steps| + 1
    requires NoneRemovedEarly(states, steps, i) && NoneStrips(states, steps, i) && states[i].installed.Some?
    ensures n < i && StartsUpdate(states[n], steps[n]) && states[n].place.UpdateCalled?
    ensures states[i].installed == Some(states[n].place.o.uid)
    ensures forall k :: n < k <= i ==> !InDeleted(states[k].rel)
  {
    hide Inv, Enabled, Do, RemovesEarly, StartsUpdate, InDeleted;
    RunKeepsInv(states, steps, i);
    InstalledHolds(states[i]);
    assert i > 0;
    RunKeepsInv(states, steps, i - 1);
    if StartsUpdate(states[i - 1], steps[i - 1]) {
      n := i - 1;
      StartInstalls(states[n], steps[n]);
    } else {
      OthersInstallNothing(states[i - 1], steps[i - 1]);
      n := InstalledWasStarted(states, steps, i - 1);
    }
  }

  lemma OthersInstallNothing(s: State, step: Step)
    requires Inv(s) && Enabled(s, step) && !StartsUpdate(s, step)
    ensures Do(s, step).installed == s.installed || Do(s, step).installed.None?
  {
    hide R.Inv, HistoryInv, PlaceInv, InstalledInv, R.Do, Sound, NotOlder, NewStatus;
  }

  /** If nobody else takes it away, the finalizer is carried throughout a run if and only if none is removed after a
      look at the phase that was too early, from the object as it was read. */
  lemma CarriedIffNoneRemovedEarly(states: seq<State>, steps: seq<Step>, n: nat)
    requires IsRun(states, steps) && n < |states| == |steps| + 1 && NoneStrips(states, steps, n)
    ensures (forall m :: 0 <= m <= n ==> Carries(states[m])) <==> NoneRemovedEarly(states, steps, n)
    ensures (forall m :: 0 <= m <= n ==> CarriedSinceStart(states, steps, m)) <==> NoneRemovedEarly(states, steps, n)
  {
    hide IsRun, RemovesEarly, Carries, StartsUpdate, InDeleted, Inv, Holds;
    if NoneRemovedEarly(states, steps, n) {
      forall m | 0 <= m <= n ensures Carries(states[m]) && CarriedSinceStart(states, steps, m) {
        RunKeepsInv(states, steps, m);
        InstalledHolds(states[m]);
        forall k | 0 <= k < m && StartsUpdate(states[k], steps[k])
                   && (forall j :: k < j <= m ==> !InDeleted(states[j].rel))
          ensures states[k].place.UpdateCalled? && Holds(states[m].live, states[k].place.o.uid)
        {
          StartedCarriesFinalizer(states, steps, k, m);
        }
      }
    } else {
      var i := FirstRemoval(states, steps, n);
      RemovalEndsIt(states, steps, i);
    }
  }

  lemma FirstRemoval(states: seq<State>, steps: seq<Step>, n: nat) returns (i: nat)
    requires n <= |steps| <= |states| && !NoneRemovedEarly(states, steps, n)
    ensures i < n && RemovesEarly(states, steps, i) && NoneRemovedEarly(states, steps, i)
  {
    hide RemovesEarly;
    i := 0;
    while !RemovesEarly(states, steps, i)
      invariant i < n && NoneRemovedEarly(states, steps, i)
      invariant exists j :: i <= j < n && RemovesEarly(states, steps, j)
      decreases n - i
    {
      i := i + 1;
    }
  }

  lemma RemovalEndsIt(states: seq<State>, steps: seq<Step>, i: nat)
    requires IsRun(states, steps) && i < |steps| < |states| == |steps| + 1
    requires RemovesEarly(states, steps, i) && NoneRemovedEarly(states, steps, i) && NoneStrips(states, steps, i)
    ensures !Carries(states[i + 1]) && !CarriedSinceStart(states, steps, i + 1)
  {
    hide Inv, Enabled, Do, StartsUpdate, InDeleted, DropsEarly, Holds, LookedEarly, NoneRemovedEarly;
    StepAt(states, steps, i);
    RunKeepsInv(states, steps, i);
    RemovalDrops(states[i]);
    var n := InstalledWasStarted(states, steps, i);
    SameRelease(states[i], states[i + 1]);
  }

  lemma SameRelease(s: State, t: State)
    requires s.rel == t.rel
    ensures InDeleted(s.rel) == InDeleted(t.rel)
  {
  }

  ghost predicate SoundInv(s: State) {
    && R.Base(s.rel) && s.history != [] && s.history[|s.history| - 1] == s.live
    && (forall o :: Some(o) in s.history ==> Sound(o.status))
    && (!s.place.Idle? ==> Sound(s.place.o.status))
    && (s.place.Writing? ==> Sound(s.place.status))
  }

  lemma StoreKeepsSound(s: State, next: Option<Stored>)
    requires SoundInv(s) && (next.Some? ==> Sound(next.value.status))
    ensures SoundInv(Store(s, next))
  {
    hide R.Base, Sound;
  }

  lemma StepKeepsSound(s: State, step: Step)
    requires SoundInv(s) && Enabled(s, step) && !step.Release?
    ensures SoundInv(Do(s, step))
  {
    hide R.Base, R.AwaitsUpdate, R.Floor, R.Enabled, R.Do, OnePerKind, Has, NewStatus;
    assert s.history[|s.history| - 1] in s.history;
    NewIsSound();
    R.SettledFacts(s.rel);
    match step
    case Outside(next) => StoreKeepsSound(s, next);
    case Prepare(ok) =>
      if ok && IsCurrent(s, s.place.o) {
        StoreKeepsSound(s, Some(WithFinalizers(s, s.place.o.finalizers + [FINALIZER])));
      }
    case Remove(ok) =>
      if ok && IsCurrent(s, s.place.o) {
        var new_ := WithFinalizers(s, Without(s.place.o.finalizers, FINALIZER));
        StoreKeepsSound(s, if new_.deleting && new_.finalizers == [] then None else Some(new_));
      }
    case WriteStatus(ok) =>
      if ok && IsCurrent(s, s.place.o) {
        StoreKeepsSound(s.(place := Idle), Some(s.live.value.(status := s.place.status, version := s.clock + 1)));
      }
    case ReadStatus(lookup, now) =>
      if Do(s, step).place.Writing? {
        NewStatusIsSound(s.place.o.status, s.place.o.generation, s.rel.status, lookup, now);
      }
    case Take => assert s.history[s.shown] in s.history;
    case _ =>
  }

  lemma ReleaseKeepsSound(s: State, r: R.Step)
    requires SoundInv(s) && Enabled(s, Release(r))
    ensures SoundInv(Do(s, Release(r)))
  {
    hide R.Base, R.Enabled, R.Do, Sound;
    R.StepKeepsBase(s.rel, r);
  }

  lemma {:induction false} RunKeepsSound(states: seq<State>, steps: seq<Step>, n: nat)
    requires IsRun(states, steps) && n < |states|
    ensures SoundInv(states[n])
  {
    if n > 0 {
      RunKeepsSound(states, steps, n - 1);
      hide SoundInv, Enabled, Do;
      if steps[n - 1].Release? {
        ReleaseKeepsSound(states[n - 1], steps[n - 1].step);
      } else {
        StepKeepsSound(states[n - 1], steps[n - 1]);
      }
    }
  }

  /** Every status that was ever in the store has one condition per kind, is in phase Ready exactly if its Ready
      condition is true, and then its Settled condition is true as well. */
  lemma StoredStatusIsSound(states: seq<State>, steps: seq<Step>, n: nat, o: Stored)
    requires IsRun(states, steps) && n < |states| && Some(o) in states[n].history
    ensures
      && OnePerKind(o.status.conditions)
      && (Has(o.status.conditions, READY, true) <==> o.status.phase == Some(Ready))
      && (Has(o.status.conditions, READY, true) ==> Has(o.status.conditions, SETTLED, true))
  {
    RunKeepsSound(states, steps, n);
  }

  /** The status that a reconcile is about to write is settled exactly if the release is settled, and then the last
      job was an update without error. */
  lemma WrittenStatusIsOfRelease(states: seq<State>, steps: seq<Step>, n: nat)
    requires IsRun(states, steps) && n < |steps| && steps[n].ReadStatus? && states[n + 1].place.Writing?
    ensures
      var rel, written := states[n].rel, states[n + 1].place.status;
      && written.observed == states[n].place.o.generation
      && (Has(written.conditions, SETTLED, true) <==> rel.status.phase == Settled)
      && (rel.status.phase == Settled ==> rel.last.Some? && R.Succeeded(rel.last.value))
  {
    hide Has, NewStatus, R.Base, R.AwaitsUpdate, R.Succeeded;
    RunKeepsSound(states, steps, n);
    StepAt(states, steps, n);
    var s, step := states[n], steps[n];
    SoundIsOnePerKind(s.place.o.status);
    R.SettledFacts(s.rel);
    NewStatusIsSound(s.place.o.status, s.place.o.generation, s.rel.status, step.lookup, step.now);
  }

  lemma PlaceIsInOrder(s: State)
    requires Inv(s) && s.place.StatusDue?
    ensures s.place.o.generation >= R.Floor(s.rel)
    ensures s.answer ==> R.Floor(s.rel) == 0 || R.Floor(s.rel) == s.place.o.generation
  {
    hide R.Inv, R.Floor, R.AwaitsUpdate, R.NoDeletion, HistoryInv, Sound, OnlyShows, NotOlder;
  }

  /** When a settled status is right: the last job was for the generation that the status names as observed if and only
      if that generation is the one accepted last and no update of another one waits for its first phase. If
      ensureUpdated returned true, only a waiting update can make the status wrong. */
  lemma SettledStatusIsOfAcceptedGeneration(states: seq<State>, steps: seq<Step>, n: nat)
    requires IsRun(states, steps) && n < |steps| < |states|
    requires NoneRemovedEarly(states, steps, n) && NoneStrips(states, steps, n) && steps[n].ReadStatus?
    requires states[n + 1].place.Writing?
    ensures
      var s, rel, written := states[n], states[n].rel, states[n + 1].place.status;
      Has(written.conditions, SETTLED, true) ==>
        && rel.last.Some? && rel.last.value.job.Update?
        && (rel.last.value.job.generation == written.observed <==>
              R.AcceptedGeneration(rel) == written.observed && !R.AwaitsOther(rel))
        && (s.answer ==> R.AcceptedGeneration(rel) == written.observed)
  {
    hide RemovesEarly, Inv, Do, Enabled, Has, R.AwaitsOther, R.Floor, R.Succeeded;
    StepAt(states, steps, n);
    WrittenStatusIsOfRelease(states, steps, n);
    RunKeepsInv(states, steps, n);
    var s := states[n];
    if s.rel.status.phase == Settled {
      ReleaseInv(s);
      R.SettledGeneration(s.rel);
      ReadsWhenDue(s, steps[n]);
      PlaceIsInOrder(s);
    }
  }

  lemma ReleaseInv(s: State)
    requires Inv(s)
    ensures R.Inv(s.rel)
  {
  }

  lemma ReadsWhenDue(s: State, step: Step)
    requires Enabled(s, step) && step.ReadStatus?
    ensures s.place.StatusDue?
  {
  }

  /** Unless a finalizer was removed early or taken away, the reconciler never asks for a generation below the one
      accepted last, as the results on generations demand. */
  lemma RequestIsInOrder(states: seq<State>, steps: seq<Step>, n: nat)
    requires IsRun(states, steps) && n < |states| == |steps| + 1
    requires NoneRemovedEarly(states, steps, n) && NoneStrips(states, steps, n) && states[n].place.UpdateDue?
    ensures R.InOrder(states[n].rel, R.Call(states[n].place.o.generation))
  {
    hide R.Inv, R.Floor, R.AwaitsUpdate, R.NoDeletion, HistoryInv, Sound, OnlyShows, NotOlder, IsRun, RemovesEarly;
    RunKeepsInv(states, steps, n);
  }
}
