/** The AppRollout controller: the difference between the ChartAssignments there are and those that are wanted. */
module AppRolloutReconcile {
  import opened Wrappers
  import opened NameOrder
  import opened AppRollout

  datatype OwnerRef = OwnerRef(uid: nat, name: string)

  /** A ChartAssignment in the API server. */
  datatype Stored = Stored(content: Assignment, owners: seq<OwnerRef>, version: nat,
                           finalizers: seq<string>, deleting: bool)

  type Store = map<string, Stored>

  predicate Owned(s: Stored, uid: nat) { exists o :: o in s.owners && o.uid == uid }

  /** The owned assignments, which is what a listing by owner gives when the cache is current. */
  function OwnedPart(store: Store, uid: nat): Store { map n | n in store && Owned(store[n], uid) :: store[n] }

  /** chartAssignmentChanged */
  predicate Changed(prev: Assignment, cur: Assignment) {
    || prev.labels != cur.labels || prev.annotations != cur.annotations
    || (prev.clusterName, prev.namespaceName, prev.chart) != (cur.clusterName, cur.namespaceName, cur.chart)
  }

  /** setOwnerReference: a reference to the same owner is replaced, or the new one goes to the end. */
  function WithOwner(owners: seq<OwnerRef>, ref: OwnerRef): seq<OwnerRef> {
    if owners == [] then [ref]
    else if owners[0].uid == ref.uid then [ref] + owners[1..]
    else [owners[0]] + WithOwner(owners[1..], ref)
  }

  method SetOwnerReference(owners: seq<OwnerRef>, ref: OwnerRef) returns (res: seq<OwnerRef>)
    ensures res == WithOwner(owners, ref)
  {
    for i := 0 to |owners|
      invariant WithOwner(owners, ref) == owners[..i] + WithOwner(owners[i..], ref)
    {
      assert owners[i..][1..] == owners[i + 1..];
      if owners[i].uid == ref.uid {
        return owners[i := ref];
      }
    }
    return owners + [ref];
  }

  function Lookup<T>(m: map<string, T>, n: string): Option<T> { if n in m then Some(m[n]) else None }

  /** The wanted assignment of a name. */
  ghost function WantedOf(wanted: seq<Assignment>, n: string): Option<Assignment> {
    if i :| 0 <= i < |wanted| && wanted[i].name == n then Some(wanted[i]) else None
  }

  function Created(a: Assignment, ref: OwnerRef, version: nat): Stored { Stored(a, [ref], version, [], false) }

  /** The object of an update is built from nothing: what it does not set, the API server drops. */
  function Replaced(before: Stored, a: Assignment, ref: OwnerRef, version: nat): Stored {
    before.(content := a, owners := [ref], finalizers := [], version := version)
  }

  /** What a reconcile did about one name: `prev` is what the listing showed, `before` and `after` what was stored. An
      object under deletion goes as soon as it has no finalizer. */
  predicate Did(prev: Option<Stored>, want: Option<Assignment>, before: Option<Stored>, after: Option<Stored>,
                ref: OwnerRef) {
    match (prev, want)
    case (None, None) => after == before
    case (None, Some(a)) => before.None? && after.Some? && after.value == Created(a, ref, after.value.version)
    case (Some(p), Some(a)) =>
      if !Changed(p.content, a) then after == before
      else
        && before.Some? && before.value.version == p.version
        && (if before.value.deleting then after.None?
            else after.Some? && after.value == Replaced(before.value, a, ref, after.value.version))
    case (Some(p), None) =>
      && before.Some?
      && (if before.value.finalizers == [] then after.None?
          else if before.value.deleting then after == before
          else after.Some? && after.value == before.value.(deleting := true, version := after.value.version))
  }

  /** What a reconcile did about all names; after an error, some may not have been dealt with. */
  ghost predicate Reconciled(listing: Store, wanted: seq<Assignment>, before: Store, after: Store, ref: OwnerRef,
                             ok: bool) {
    forall n ::
      || Did(Lookup(listing, n), WantedOf(wanted, n), Lookup(before, n), Lookup(after, n), ref)
      || (!ok && Lookup(after, n) == Lookup(before, n))
  }

  class Server {
    var store: Store
    var clock: nat
    /** How many writes were sent. The i-th one fails if `fails(i)`. */
    var calls: nat
    const fails: nat -> bool

    constructor (store: Store, clock: nat, fails: nat -> bool)
      ensures this.store == store && this.clock == clock && calls == 0 && this.fails == fails
    {
      this.store, this.clock, this.fails := store, clock, fails;
      calls := 0;
    }

    method Create(a: Assignment, owners: seq<OwnerRef>) returns (ok: bool)
      modifies this
      ensures calls == old(calls) + 1 && clock == old(clock) + 1
      ensures ok ==> a.name !in old(store) && store == old(store)[a.name := Stored(a, owners, clock, [], false)]
      ensures !ok ==> store == old(store) && (fails(old(calls)) || a.name in old(store))
    {
      calls, clock := calls + 1, clock + 1;
      if fails(calls - 1) || a.name in store {
        return false;
      }
      store := store[a.name := Stored(a, owners, clock, [], false)];
      return true;
    }

    method Update(a: Assignment, owners: seq<OwnerRef>, version: nat) returns (ok: bool)
      modifies this
      ensures calls == old(calls) + 1 && clock == old(clock) + 1
      ensures ok ==>
        && a.name in old(store) && old(store)[a.name].version == version
        && store == if old(store)[a.name].deleting then old(store) - {a.name}
                    else old(store)[a.name :=
                        old(store)[a.name].(content := a, owners := owners, finalizers := [], version := clock)]
      ensures !ok ==>
        store == old(store) && (fails(old(calls)) || a.name !in old(store) || old(store)[a.name].version != version)
    {
      calls, clock := calls + 1, clock + 1;
      if fails(calls - 1) || a.name !in store || store[a.name].version != version {
        return false;
      }
      if store[a.name].deleting {
        store := store - {a.name};
      } else {
        store := store[a.name := store[a.name].(content := a, owners := owners, finalizers := [], version := clock)];
      }
      return true;
    }

    method Delete(name: string) returns (ok: bool)
      modifies this
      ensures calls == old(calls) + 1 && clock == old(clock) + 1
      ensures ok ==>
        && name in old(store)
        && store == if old(store)[name].finalizers == [] then old(store) - {name}
                    else if old(store)[name].deleting then old(store)
                    else old(store)[name := old(store)[name].(deleting := true, version := clock)]
      ensures !ok ==> store == old(store) && (fails(old(calls)) || name !in old(store))
    {
      calls, clock := calls + 1, clock + 1;
      if fails(calls - 1) || name !in store {
        return false;
      }
      if store[name].finalizers == [] {
        store := store - {name};
      } else if !store[name].deleting {
        store := store[name := store[name].(deleting := true, version := clock)];
      }
      return true;
    }

    /** One wanted assignment, against what the listing shows under its name. */
    method Want(a: Assignment, ref: OwnerRef, prev: Option<Stored>) returns (ok: bool)
      modifies this
      ensures forall n :: n != a.name ==> Lookup(store, n) == Lookup(old(store), n)
      ensures ok ==> Did(prev, Some(a), Lookup(old(store), a.name), Lookup(store, a.name), ref)
      ensures !ok ==> store == old(store)
      ensures calls >= old(calls) && (ok ==> (calls == old(calls) <==> prev.Some? && !Changed(prev.value.content, a)))
    {
      var owners := SetOwnerReference([], ref);
      if prev.None? {
        ok := Create(a, owners);
      } else if !Changed(prev.value.content, a) {
        ok := true;
      } else {
        ok := Update(a, owners, prev.value.version);
      }
    }

    /** Each obsolete assignment is deleted, in whatever order the map is ranged over. */
    method Drop(obsolete: Store, ref: OwnerRef) returns (ok: bool)
      modifies this
      ensures forall n ::
        if n in obsolete then
          || Did(Some(obsolete[n]), None, Lookup(old(store), n), Lookup(store, n), ref)
          || (!ok && Lookup(store, n) == Lookup(old(store), n))
        else Lookup(store, n) == Lookup(old(store), n)
      ensures calls >= old(calls) && (ok ==> (calls == old(calls) <==> obsolete == map[]))
    {
      var todo := obsolete.Keys;
      while todo != {}
        invariant todo <= obsolete.Keys
        invariant forall n ::
          if n in obsolete && n !in todo then Did(Some(obsolete[n]), None, Lookup(old(store), n), Lookup(store, n), ref)
          else Lookup(store, n) == Lookup(old(store), n)
        invariant calls >= old(calls) && (calls == old(calls) <==> todo == obsolete.Keys)
        decreases todo
      {
        var n :| n in todo;
        ghost var before := store;
        todo := todo - {n};
        var deleted := Delete(n);
        assert forall m :: m != n ==> Lookup(store, m) == Lookup(before, m);
        if !deleted {
          return false;
        }
      }
      return true;
    }

    /** The wanted assignments one after the other. What is listed and not wanted is left in `drop`. */
    method WantAll(wanted: seq<Assignment>, ref: OwnerRef, listing: Store) returns (ok: bool, drop: Store)
      requires Increasing(wanted, NameOf)
      modifies this
      ensures forall n ::
        if n in NamesUpTo(wanted, |wanted|) then
          || Did(Lookup(listing, n), WantedOf(wanted, n), Lookup(old(store), n), Lookup(store, n), ref)
          || (!ok && Lookup(store, n) == Lookup(old(store), n))
        else Lookup(store, n) == Lookup(old(store), n)
      ensures ok ==> drop == listing - NamesUpTo(wanted, |wanted|)
      ensures calls >= old(calls)
      ensures ok ==> (calls == old(calls) <==>
        forall j :: 0 <= j < |wanted| ==>
          wanted[j].name in listing && !Changed(listing[wanted[j].name].content, wanted[j]))
    {
      hide Did, Changed, Increasing;
      drop := listing;
      var i := 0;
      while i < |wanted|
        invariant i <= |wanted| && drop == listing - NamesUpTo(wanted, i)
        invariant forall n ::
          if n in NamesUpTo(wanted, i)
          then Did(Lookup(listing, n), WantedOf(wanted, n), Lookup(old(store), n), Lookup(store, n), ref)
          else Lookup(store, n) == Lookup(old(store), n)
        invariant calls >= old(calls)
        invariant calls == old(calls) <==>
          forall j :: 0 <= j < i ==> wanted[j].name in listing && !Changed(listing[wanted[j].name].content, wanted[j])
      {
        var a := wanted[i];
        NameAt(wanted, i);
        LookupKept(listing, NamesUpTo(wanted, i), a.name);
        var done := Want(a, ref, Lookup(drop, a.name));
        if !done {
          return false, drop;
        }
        drop := drop - {a.name};
        i := i + 1;
      }
      ok := true;
    }

    /** The part of reconcile that writes assignments, for any listing, current or not, and any failing calls. Each
        name is dealt with once or not at all, and all of them are if there is no error. */
    method Reconcile(uid: nat, rollout: string, wanted: seq<Assignment>, listing: Store) returns (ok: bool)
      requires Increasing(wanted, NameOf)
      modifies this
      ensures Reconciled(listing, wanted, old(store), store, OwnerRef(uid, rollout), ok)
      ensures calls >= old(calls) && (ok ==> (calls == old(calls) <==> InSync(listing, wanted)))
    {
      hide Did, Changed, Increasing;
      var ref := OwnerRef(uid, rollout);
      var drop;
      ok, drop := WantAll(wanted, ref, listing);
      if !ok {
        return;
      }
      AllNames(wanted);
      ghost var middle := store;
      ok := Drop(drop, ref);
      forall n | n !in listing && n !in NamesUpTo(wanted, |wanted|)
        ensures Did(Lookup(listing, n), WantedOf(wanted, n), Lookup(middle, n), Lookup(middle, n), ref)
      {
        NothingDone(Lookup(middle, n), ref);
      }
      assert drop == map[] <==> forall n :: n in listing ==> n in NamesUpTo(wanted, |wanted|);
    }
  }

  lemma LookupKept(listing: Store, names: set<string>, n: string)
    requires n !in names
    ensures Lookup(listing - names, n) == Lookup(listing, n)
  {
  }

  ghost function NamesUpTo(wanted: seq<Assignment>, i: nat): set<string>
    requires i <= |wanted|
  {
    set j | 0 <= j < i :: wanted[j].name
  }

  lemma NameAt(wanted: seq<Assignment>, i: nat)
    requires Increasing(wanted, NameOf) && i < |wanted|
    ensures WantedOf(wanted, wanted[i].name) == Some(wanted[i])
    ensures wanted[i].name !in NamesUpTo(wanted, i)
    ensures NamesUpTo(wanted, i + 1) == NamesUpTo(wanted, i) + {wanted[i].name}
  {
    forall j | 0 <= j < |wanted| && j != i ensures wanted[j].name != wanted[i].name {
      LessIsTotal(wanted[i].name, wanted[i].name);
      if j < i {
        assert Less(NameOf(wanted[j]), NameOf(wanted[i]));
      } else {
        assert Less(NameOf(wanted[i]), NameOf(wanted[j]));
      }
    }
  }

  lemma AllNames(wanted: seq<Assignment>)
    ensures forall n :: n in NamesUpTo(wanted, |wanted|) <==> WantedOf(wanted, n).Some?
  {
  }

  lemma NothingDone(x: Option<Stored>, ref: OwnerRef)
    ensures Did(None, None, x, x, ref)
  {
  }

  /** The listed assignments are exactly the wanted ones, with the wanted content. */
  ghost predicate InSync(listing: Store, wanted: seq<Assignment>) {
    && (forall n :: n in listing ==> WantedOf(wanted, n).Some?)
    && (forall j :: 0 <= j < |wanted| ==>
          wanted[j].name in listing && !Changed(listing[wanted[j].name].content, wanted[j]))
  }

  // ----- What a reconcile promises -----

  /** With a current listing, no object that is not owned is ever updated or deleted, whichever calls fail; one with a
      wanted name makes the reconcile fail. */
  lemma UnownedIsUntouched(wanted: seq<Assignment>, before: Store, after: Store, ref: OwnerRef, ok: bool, n: string)
    requires Reconciled(OwnedPart(before, ref.uid), wanted, before, after, ref, ok)
    requires n in before && !Owned(before[n], ref.uid)
    ensures n in after && after[n] == before[n]
    ensures WantedOf(wanted, n).Some? ==> !ok
  {
    assert Did(None, WantedOf(wanted, n), Some(before[n]), Lookup(after, n), ref)
           || Lookup(after, n) == Some(before[n]);
  }

  /** A deletion touches an object, unless that is under deletion already and held by a finalizer. */
  predicate GoesOrIsMarked(s: Stored) { s.finalizers == [] || !s.deleting }

  /** With a stale listing, a reconcile touches an object that is not owned only if the listing shows its name, it is
      not wanted, and a deletion touches it; without an error, exactly then. Updates carry the version that was listed,
      but deletions go by name. */
  lemma UnownedIsDeletedIffListed(listing: Store, wanted: seq<Assignment>, before: Store, after: Store, ref: OwnerRef,
                                  ok: bool, n: string)
    requires Reconciled(listing, wanted, before, after, ref, ok)
    requires forall m :: m in listing ==> Owned(listing[m], ref.uid)
    requires forall m :: m in listing && m in before && listing[m].version == before[m].version ==>
      listing[m] == before[m]
    requires n in before && !Owned(before[n], ref.uid)
    ensures
      var touched := !(n in after && after[n] == before[n]);
      var goes := n in listing && WantedOf(wanted, n).None? && GoesOrIsMarked(before[n]);
      (touched ==> goes) && (ok ==> (touched <==> goes))
  {
    assert
      || Did(Lookup(listing, n), WantedOf(wanted, n), Lookup(before, n), Lookup(after, n), ref)
      || (!ok && Lookup(after, n) == Lookup(before, n));
  }

  /** The assignments that are in the way: an obsolete one that a finalizer keeps, and one that is under deletion but
      has to change, which the update removes. */
  ghost predicate Lingers(s: Stored, want: Option<Assignment>) {
    match want
    case None => s.finalizers != []
    case Some(a) => s.deleting && Changed(s.content, a)
  }

  /** An error-free reconcile leaves exactly the wanted assignments, with the wanted content, if and only if none of
      those it found lingers. */
  lemma ConvergesIff(wanted: seq<Assignment>, before: Store, after: Store, ref: OwnerRef)
    requires Increasing(wanted, NameOf)
    requires Reconciled(OwnedPart(before, ref.uid), wanted, before, after, ref, true)
    ensures InSync(OwnedPart(after, ref.uid), wanted) <==>
      forall n :: n in before && Owned(before[n], ref.uid) ==> !Lingers(before[n], WantedOf(wanted, n))
  {
    hide Did, Lingers, Changed, Owned, Increasing;
    var uid := ref.uid;
    forall n
      ensures Converged(OwnedPart(after, uid), wanted, n) <==>
        !(n in before && Owned(before[n], uid) && Lingers(before[n], WantedOf(wanted, n)))
    {
      assert Did(Lookup(OwnedPart(before, uid), n), WantedOf(wanted, n), Lookup(before, n), Lookup(after, n), ref);
      NameConverges(wanted, before, after, ref, n);
    }
    InSyncByName(OwnedPart(after, uid), wanted);
  }

  /** Sync for one name. */
  ghost predicate Converged(listing: Store, wanted: seq<Assignment>, n: string) {
    match WantedOf(wanted, n)
    case None => n !in listing
    case Some(a) => n in listing && !Changed(listing[n].content, a)
  }

  lemma InSyncByName(listing: Store, wanted: seq<Assignment>)
    requires Increasing(wanted, NameOf)
    ensures InSync(listing, wanted) <==> forall n :: Converged(listing, wanted, n)
  {
    hide Changed, Increasing;
    forall j | 0 <= j < |wanted| ensures WantedOf(wanted, wanted[j].name) == Some(wanted[j]) {
      NameAt(wanted, j);
    }
    if forall n :: Converged(listing, wanted, n) {
      forall j | 0 <= j < |wanted|
        ensures wanted[j].name in listing && !Changed(listing[wanted[j].name].content, wanted[j])
      {
        assert Converged(listing, wanted, wanted[j].name);
      }
      forall n | n in listing ensures WantedOf(wanted, n).Some? {
        assert Converged(listing, wanted, n);
      }
    }
  }

  lemma NameConverges(wanted: seq<Assignment>, before: Store, after: Store, ref: OwnerRef, n: string)
    requires Did(Lookup(OwnedPart(before, ref.uid), n), WantedOf(wanted, n), Lookup(before, n), Lookup(after, n), ref)
    ensures Converged(OwnedPart(after, ref.uid), wanted, n) <==>
      !(n in before && Owned(before[n], ref.uid) && Lingers(before[n], WantedOf(wanted, n)))
  {
    assert ref in [ref];
  }

  /** The second of two reconciles of the same inputs writes nothing if and only if the first one found nothing that
      lingers. */
  method ReconcileTwice(server: Server, uid: nat, rollout: string, wanted: seq<Assignment>)
    returns (ok: bool, writes: nat)
    requires Increasing(wanted, NameOf)
    modifies server
    ensures ok ==> (writes == 0 <==>
      forall n :: n in old(server.store) && Owned(old(server.store)[n], uid) ==>
        !Lingers(old(server.store)[n], WantedOf(wanted, n)))
  {
    ghost var before := server.store;
    ok := server.Reconcile(uid, rollout, wanted, OwnedPart(server.store, uid));
    if !ok {
      return ok, 0;
    }
    ConvergesIff(wanted, before, server.store, OwnerRef(uid, rollout));
    var calls := server.calls;
    ok := server.Reconcile(uid, rollout, wanted, OwnedPart(server.store, uid));
    writes := server.calls - calls;
  }

  /** An update takes away every finalizer and every other owner, because its object is built from nothing. */
  lemma UpdateDropsFinalizers(listing: Store, wanted: seq<Assignment>, before: Store, after: Store, ref: OwnerRef,
                              n: string, a: Assignment)
    requires Reconciled(listing, wanted, before, after, ref, true)
    requires WantedOf(wanted, n) == Some(a) && n in listing && Changed(listing[n].content, a)
    ensures n in before && (n in after <==> !before[n].deleting)
    ensures n in after ==> after[n].content == a && after[n].finalizers == [] && after[n].owners == [ref]
  {
    assert Did(Lookup(listing, n), WantedOf(wanted, n), Lookup(before, n), Lookup(after, n), ref);
  }
}
