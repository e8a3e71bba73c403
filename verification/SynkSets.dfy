/** What an Apply means for the objects that a name owns, and how ownership moves over many Applies. */
module SynkSets {
  import opened Wrappers
  import opened SetNames
  import opened Synk
  import opened SynkRetry

  // ----- What applyAll changes -----

  ghost predicate HasKey(resources: seq<Resource>, k: Key) {
    exists r :: r in resources && r.key == k
  }

  lemma {:induction false} CrdPhaseFrame(p: Progress, crds: seq<Resource>, set_: SetRef, replies: nat -> Reply, k: Key)
    ensures
      var q := CrdPhase(p, crds, set_, replies);
      && q.cluster.sets == p.cluster.sets && q.cluster.nextUid == p.cluster.nextUid
      && (!HasKey(crds, k) ==> SameAt(p, q, k))
  {
    if crds != [] {
      var n := |crds| - 1;
      CrdPhaseFrame(p, crds[..n], set_, replies, k);
      assert crds[n] in crds;
      assert HasKey(crds[..n], k) ==> HasKey(crds, k);
      AppliedIsLocal(CrdPhase(p, crds[..n], set_, replies), crds[n].key, Object(crds[n].owners, crds[n].body), set_,
                     replies(n), k);
      hide Applied;
    }
  }

  lemma {:induction false} LoopFrame(p: Progress, regulars: seq<Resource>, set_: SetRef, replies: (nat, nat) -> Reply,
                                     pass: nat, prev: nat, k: Key)
    requires pass <= MAX_PASSES
    ensures
      var q := RetryLoop(p, regulars, set_, replies, pass, prev).progress;
      && q.cluster.sets == p.cluster.sets && q.cluster.nextUid == p.cluster.nextUid
      && (!HasKey(regulars, k) ==> SameAt(p, q, k))
    decreases MAX_PASSES - pass
  {
    if pass < MAX_PASSES {
      var q := RunPass(p, regulars, set_, pass, replies, |regulars|);
      PassKeepsSets(p, regulars, set_, pass, replies, |regulars|);
      if !HasKey(regulars, k) {
        PassFrame(p, regulars, set_, pass, replies, |regulars|, k);
      }
      hide RunPass;
      LoopFrame(q, regulars, set_, replies, pass + 1, q.failures, k);
    }
  }

  lemma {:induction false} PassKeepsSets(p: Progress, regulars: seq<Resource>, set_: SetRef, pass: nat,
                                         replies: (nat, nat) -> Reply, n: nat)
    requires n <= |regulars|
    ensures
      var q := RunPass(p, regulars, set_, pass, replies, n);
      q.cluster.sets == p.cluster.sets && q.cluster.nextUid == p.cluster.nextUid
  {
    hide ValidOwners, Wanted;
    if n > 0 {
      PassKeepsSets(p, regulars, set_, pass, replies, n - 1);
    }
  }

  lemma ApplyAllFrame(c: Cluster, crds: seq<Resource>, regulars: seq<Resource>, set_: SetRef, calls: Calls, k: Key)
    ensures
      var q := ApplyAll(c, crds, regulars, set_, calls);
      && q.cluster.sets == c.sets && q.cluster.nextUid == c.nextUid
      && (!HasKey(crds, k) && !HasKey(regulars, k) ==>
            (k in q.cluster.objects <==> k in c.objects) && (k in c.objects ==> q.cluster.objects[k] == c.objects[k]))
  {
    var p := CrdPhase(Progress(c, map[], 0), crds, set_, calls.crds);
    CrdPhaseFrame(Progress(c, map[], 0), crds, set_, calls.crds, k);
    LoopFrame(p, regulars, set_, calls.regulars, 0, 0, k);
    hide CrdPhase, RetryLoop;
  }

  /** When everything was applied, every regular resource is as the manifest wants it, owned by the new set. */
  lemma ApplyAllSuccess(c: Cluster, crds: seq<Resource>, regulars: seq<Resource>, set_: SetRef, calls: Calls,
                        r: Resource)
    requires NamedOnce(regulars) && calls.wait.None? && r in regulars
    requires AllApplied(ApplyAll(c, crds, regulars, set_, calls).results)
    ensures
      var d := ApplyAll(c, crds, regulars, set_, calls).cluster;
      r.key in d.objects && d.objects[r.key] == Wanted(r, set_)
  {
    var p := CrdPhase(Progress(c, map[], 0), crds, set_, calls.crds);
    LoopFacts(p, regulars, set_, calls.regulars, 0, 0);
    var end := RetryLoop(p, regulars, set_, calls.regulars, 0, 0);
    var i :| 0 <= i < |regulars| && regulars[i] == r;
    assert HasResult(end.progress, regulars[i], set_);
  }

  // ----- How one object's owners change -----

  ghost predicate OwnedBySet(o: Object, set_: SetRef) {
    exists owners :: o.owners == WithSetOwner(owners, set_)
  }

  /** A regular object is left alone, or it was validated against the set and is then gone or owned by the set. */
  ghost predicate Evolves(c: Cluster, d: Cluster, k: Key, set_: SetRef) {
    || (k in c.objects && k in d.objects && d.objects[k] == c.objects[k])
    || ((k in c.objects ==> ValidOwners(c.objects[k].owners, set_))
        && (k in d.objects ==> OwnedBySet(d.objects[k], set_)))
  }

  lemma EvolvesTransitive(c: Cluster, d: Cluster, e: Cluster, k: Key, set_: SetRef)
    requires Evolves(c, d, k, set_) && Evolves(d, e, k, set_)
    ensures Evolves(c, e, k, set_)
  {
  }

  lemma AppliedEvolves(p: Progress, r: Resource, set_: SetRef, reply: Reply, k: Key)
    ensures Evolves(p.cluster, Applied(p, r.key, Wanted(r, set_), set_, reply).cluster, k, set_)
  {
    assert OwnedBySet(Wanted(r, set_), set_);
    AppliedIsLocal(p, r.key, Wanted(r, set_), set_, reply, k);
  }

  lemma {:induction false} PassEvolves(p: Progress, regulars: seq<Resource>, set_: SetRef, pass: nat,
                                       replies: (nat, nat) -> Reply, n: nat, k: Key)
    requires n <= |regulars|
    ensures Evolves(p.cluster, RunPass(p, regulars, set_, pass, replies, n).cluster, k, set_)
  {
    if n > 0 {
      PassEvolves(p, regulars, set_, pass, replies, n - 1, k);
      var q := RunPass(p, regulars, set_, pass, replies, n - 1);
      AppliedEvolves(q, regulars[n - 1], set_, replies(pass, n - 1), k);
      var r := Applied(q, regulars[n - 1].key, Wanted(regulars[n - 1], set_), set_, replies(pass, n - 1));
      EvolvesTransitive(p.cluster, q.cluster, r.cluster, k, set_);
      hide Applied, Wanted, Evolves;
    }
  }

  lemma {:induction false} LoopEvolves(p: Progress, regulars: seq<Resource>, set_: SetRef, replies: (nat, nat) -> Reply,
                                       pass: nat, prev: nat, k: Key)
    requires pass <= MAX_PASSES
    ensures Evolves(p.cluster, RetryLoop(p, regulars, set_, replies, pass, prev).progress.cluster, k, set_)
    decreases MAX_PASSES - pass
  {
    if pass < MAX_PASSES {
      var q := RunPass(p, regulars, set_, pass, replies, |regulars|);
      PassEvolves(p, regulars, set_, pass, replies, |regulars|, k);
      LoopEvolves(q, regulars, set_, replies, pass + 1, q.failures, k);
      EvolvesTransitive(p.cluster, q.cluster,
                        RetryLoop(q, regulars, set_, replies, pass + 1, q.failures).progress.cluster, k, set_);
      hide RunPass, Evolves;
    }
  }

  lemma ApplyAllEvolves(c: Cluster, crds: seq<Resource>, regulars: seq<Resource>, set_: SetRef, calls: Calls, k: Key)
    requires !HasKey(crds, k)
    ensures Evolves(c, ApplyAll(c, crds, regulars, set_, calls).cluster, k, set_)
  {
    var p := CrdPhase(Progress(c, map[], 0), crds, set_, calls.crds);
    CrdPhaseFrame(Progress(c, map[], 0), crds, set_, calls.crds, k);
    assert SameAt(Progress(c, map[], 0), p, k);
    LoopEvolves(p, regulars, set_, calls.regulars, 0, 0, k);
    hide CrdPhase, RetryLoop, OwnedBySet, ValidOwners;
  }

  // ----- Owner monotonicity -----

  /** At most one ResourceSet owner. */
  ghost predicate SingleSetOwner(o: Object) {
    forall i, j :: 0 <= i < j < |o.owners| ==> !(o.owners[i].ofSet && o.owners[j].ofSet)
  }

  ghost predicate HasSetOwner(o: Object, name: string, version: int32) {
    exists ref :: ref in o.owners && ref.ofSet && DecodeResourceSetName(ref.name) == Set(name, version)
  }

  ghost predicate ValidName(name: string, version: int32) {
    name != "" && '\n' !in name && version >= 0
  }

  /** After an apply the set is the one ResourceSet owner, behind the manifest's other owners in their order. */
  lemma SetOwnerIsTheOnlyOne(owners: seq<OwnerRef>, name: string, version: int32, uid: nat, body: string)
    requires ValidName(name, version)
    ensures
      var o := Object(WithSetOwner(owners, SetRef(ResourceSetName(name, version), uid)), body);
      && SingleSetOwner(o) && HasSetOwner(o, name, version)
      && o.owners[..|o.owners| - 1] == NotOfSets(owners)
      && (forall n, v :: HasSetOwner(o, n, v) ==> n == name && v == version)
  {
    DecodeUndoesEncode(name, version);
    var set_ := SetRef(ResourceSetName(name, version), uid);
    var o := Object(WithSetOwner(owners, set_), body);
    var last := OwnerRef(true, set_.name, set_.uid);
    assert o.owners == NotOfSets(owners) + [last];
    assert o.owners[|o.owners| - 1] == last;
    forall i | 0 <= i < |o.owners| - 1 ensures !o.owners[i].ofSet {
      assert o.owners[i] == NotOfSets(owners)[i] && NotOfSets(owners)[i] in NotOfSets(owners);
    }
  }

  /** Keeping the other owners in order: any two of them that stand in some order before still do. */
  lemma {:induction false} OtherOwnersInOrder(owners: seq<OwnerRef>, i: nat, j: nat) returns (i': nat, j': nat)
    requires i < j < |owners| && !owners[i].ofSet && !owners[j].ofSet
    ensures i' < j' < |NotOfSets(owners)|
    ensures NotOfSets(owners)[i'] == owners[i] && NotOfSets(owners)[j'] == owners[j]
  {
    hide NotOfSets;
    var n := |owners| - 1;
    NotOfSetsSnoc(owners);
    if j < n {
      i', j' := OtherOwnersInOrder(owners[..n], i, j);
    } else {
      i' := OtherOwnerStays(owners[..n], i);
      j' := |NotOfSets(owners[..n])|;
    }
  }

  lemma {:induction false} OtherOwnerStays(owners: seq<OwnerRef>, i: nat) returns (i': nat)
    requires i < |owners| && !owners[i].ofSet
    ensures i' < |NotOfSets(owners)| && NotOfSets(owners)[i'] == owners[i]
  {
    hide NotOfSets;
    var n := |owners| - 1;
    NotOfSetsSnoc(owners);
    if i < n {
      i' := OtherOwnerStays(owners[..n], i);
    } else {
      i' := |NotOfSets(owners[..n])|;
    }
  }

  lemma NotOfSetsSnoc(owners: seq<OwnerRef>)
    requires owners != []
    ensures
      var n := |owners| - 1;
      NotOfSets(owners) == NotOfSets(owners[..n]) + (if owners[n].ofSet then [] else [owners[n]])
  {
  }

  /** One Apply, of any name and manifest, with any API errors; any change of the ResourceSets alone; or a run of the
      garbage collector, with the other owners that still exist. */
  datatype Change =
    | Apply(name: string, version: int32, resources: seq<Resource>, listing: seq<string>, calls: Calls)
    | SetsChange(sets: map<string, nat>, nextUid: nat)
    | Collected(others: set<nat>)

  ghost predicate Follows(c: Cluster, change: Change, d: Cluster) {
    match change
    case Apply(name, version, resources, listing, calls) =>
      ValidName(name, version) && d == ApplyVersion(c, name, version, resources, listing, calls).cluster
    case SetsChange(sets, nextUid) => d == c.(sets := sets, nextUid := nextUid)
    case Collected(others) => d == Collect(c, others)
  }

  /** A collection that finds no set of the object any more. Other owners can still keep the object. */
  ghost predicate Disowns(c: Cluster, change: Change, k: Key) {
    && change.Collected? && k in c.objects
    && forall ref :: ref in c.objects[k].owners && ref.ofSet ==> !Live(c, change.others, ref)
  }

  lemma ApplyEvolves(c: Cluster, name: string, version: int32, resources: seq<Resource>, listing: seq<string>,
                     calls: Calls, k: Key)
    requires !IsCrd(k)
    ensures
      var set_ := SetRef(ResourceSetName(name, version), c.nextUid);
      Evolves(c, ApplyVersion(c, name, version, resources, listing, calls).cluster, k, set_)
  {
    var set_ := SetRef(ResourceSetName(name, version), c.nextUid);
    ApplyAllEvolves(Installed(c, set_), Crds(resources), Regulars(resources), set_, calls, k);
    hide ApplyAll, OwnedBySet, ValidOwners, Prune;
  }

  lemma ApplyKeepsOwner(c: Cluster, change: Change, d: Cluster, k: Key, name: string, version: int32) returns (v: int32)
    requires change.Apply? && Follows(c, change, d) && !IsCrd(k) && k in c.objects && k in d.objects
    requires SingleSetOwner(c.objects[k]) && HasSetOwner(c.objects[k], name, version)
    ensures SingleSetOwner(d.objects[k]) && v >= version && HasSetOwner(d.objects[k], name, v)
  {
    v := version;
    var set_ := SetRef(ResourceSetName(change.name, change.version), c.nextUid);
    ApplyEvolves(c, change.name, change.version, change.resources, change.listing, change.calls, k);
    if d.objects[k] != c.objects[k] {
      assert ValidOwners(c.objects[k].owners, set_) && OwnedBySet(d.objects[k], set_);
      DecodeUndoesEncode(change.name, change.version);
      var ref :| ref in c.objects[k].owners && ref.ofSet && DecodeResourceSetName(ref.name) == Set(name, version);
      assert IsPredecessor(ref, change.name, change.version);
      var owners :| d.objects[k].owners == WithSetOwner(owners, set_);
      SetOwnerIsTheOnlyOne(owners, change.name, change.version, c.nextUid, d.objects[k].body);
      v := change.version;
    }
  }

  lemma {:induction false} LiveOwnersStaySingle(c: Cluster, others: set<nat>, owners: seq<OwnerRef>, body: string)
    requires SingleSetOwner(Object(owners, body))
    ensures SingleSetOwner(Object(LiveOwners(c, others, owners), body))
  {
    if owners != [] {
      var front, last := owners[..|owners| - 1], owners[|owners| - 1];
      LiveOwnersStaySingle(c, others, front, body);
      if last.ofSet {
        forall o | o in LiveOwners(c, others, front) ensures !o.ofSet {
          assert o in front;
          var i :| 0 <= i < |front| && front[i] == o;
          assert owners[i] == o;
        }
      }
    }
  }

  /** The collector keeps the set owner of an object exactly if it is alive. */
  lemma CollectKeepsOwner(c: Cluster, others: set<nat>, k: Key, name: string, version: int32)
    requires k in c.objects && k in Collect(c, others).objects
    requires SingleSetOwner(c.objects[k]) && HasSetOwner(c.objects[k], name, version)
    ensures
      var o := Collect(c, others).objects[k];
      && SingleSetOwner(o)
      && (if Disowns(c, Collected(others), k) then forall n, v :: !HasSetOwner(o, n, v)
          else HasSetOwner(o, name, version))
  {
    hide DecodeResourceSetName, SingleSetOwner;
    LiveOwnersStaySingle(c, others, c.objects[k].owners, c.objects[k].body);
    if !Disowns(c, Collected(others), k) {
      var live :| live in c.objects[k].owners && live.ofSet && Live(c, others, live);
      var ref :| ref in c.objects[k].owners && ref.ofSet && DecodeResourceSetName(ref.name) == Set(name, version);
      SameSetOwner(c.objects[k], live, ref);
    }
  }

  lemma SameSetOwner(o: Object, r1: OwnerRef, r2: OwnerRef)
    requires SingleSetOwner(o) && r1 in o.owners && r2 in o.owners && r1.ofSet && r2.ofSet
    ensures r1 == r2
  {
    var i :| 0 <= i < |o.owners| && o.owners[i] == r1;
    var j :| 0 <= j < |o.owners| && o.owners[j] == r2;
    assert !(i < j) && !(j < i);
  }

  /** The object has one ResourceSet owner, a set of the name with a version not below this one. */
  ghost predicate OwnedFrom(o: Object, name: string, version: int32) {
    SingleSetOwner(o) && exists v :: v >= version && HasSetOwner(o, name, v)
  }

  lemma ChangeKeepsOwner(c: Cluster, change: Change, d: Cluster, k: Key, name: string, version: int32)
    requires Follows(c, change, d) && !IsCrd(k) && k in c.objects && k in d.objects
    requires OwnedFrom(c.objects[k], name, version)
    ensures OwnedFrom(d.objects[k], name, version) <==> !Disowns(c, change, k)
  {
    hide HasSetOwner, SingleSetOwner, Disowns;
    var v :| v >= version && HasSetOwner(c.objects[k], name, v);
    match change
    case Apply(_, _, _, _, _) =>
      var v' := ApplyKeepsOwner(c, change, d, k, name, v);
      NoCollection(c, change, k);
    case SetsChange(_, _) => NoCollection(c, change, k);
    case Collected(others) => CollectKeepsOwner(c, others, k, name, v);
  }

  lemma NoCollection(c: Cluster, change: Change, k: Key)
    requires !change.Collected?
    ensures !Disowns(c, change, k)
  {
  }

  lemma SingleOwnerIsUnique(o: Object, n1: string, v1: int32, n2: string, v2: int32)
    requires SingleSetOwner(o) && HasSetOwner(o, n1, v1) && HasSetOwner(o, n2, v2)
    ensures n1 == n2 && v1 == v2
  {
    hide DecodeResourceSetName;
    var r1 :| r1 in o.owners && r1.ofSet && DecodeResourceSetName(r1.name) == Set(n1, v1);
    var r2 :| r2 in o.owners && r2.ofSet && DecodeResourceSetName(r2.name) == Set(n2, v2);
    var i :| 0 <= i < |o.owners| && o.owners[i] == r1;
    var j :| 0 <= j < |o.owners| && o.owners[j] == r2;
    assert !(i < j) && !(j < i);
  }

  ghost predicate IsHistory(clusters: seq<Cluster>, changes: seq<Change>, k: Key) {
    && |clusters| == |changes| + 1
    && (forall i :: 0 <= i < |changes| ==> Follows(clusters[i], changes[i], clusters[i + 1]))
    && (forall i :: 0 <= i < |clusters| ==> k in clusters[i].objects)
  }

  /** Over any sequence of Applies, changes of the sets and garbage collections, while a regular object exists its
      ResourceSet owner keeps the set name and its version never drops, if and only if no collection finds all its sets
      gone. */
  lemma {:induction false} OwnerIsMonotone(clusters: seq<Cluster>, changes: seq<Change>, k: Key, name: string,
                                           version: int32, n: nat)
    requires IsHistory(clusters, changes, k) && n < |clusters| && !IsCrd(k)
    requires SingleSetOwner(clusters[0].objects[k]) && HasSetOwner(clusters[0].objects[k], name, version)
    ensures (forall m :: 0 <= m <= n ==> OwnedFrom(clusters[m].objects[k], name, version))
       <==> (forall i :: 0 <= i < n ==> !Disowns(clusters[i], changes[i], k))
    ensures OwnedFrom(clusters[n].objects[k], name, version) ==>
      forall n', v' :: HasSetOwner(clusters[n].objects[k], n', v') ==> n' == name && v' >= version
  {
    hide Follows, SingleSetOwner, HasSetOwner, Disowns;
    if n > 0 {
      OwnerIsMonotone(clusters, changes, k, name, version, n - 1);
      if OwnedFrom(clusters[n - 1].objects[k], name, version) {
        ChangeKeepsOwner(clusters[n - 1], changes[n - 1], clusters[n], k, name, version);
      }
      assert (forall m :: 0 <= m <= n ==> OwnedFrom(clusters[m].objects[k], name, version)) <==>
        (forall m :: 0 <= m <= n - 1 ==> OwnedFrom(clusters[m].objects[k], name, version))
        && OwnedFrom(clusters[n].objects[k], name, version);
    }
    if OwnedFrom(clusters[n].objects[k], name, version) {
      var v :| v >= version && HasSetOwner(clusters[n].objects[k], name, v);
      forall n', v' | HasSetOwner(clusters[n].objects[k], n', v') ensures n' == name && v' >= version {
        SingleOwnerIsUnique(clusters[n].objects[k], n', v', name, v);
      }
    }
  }

  lemma OtherIsKept(c: Cluster, other: OwnerRef, ref: OwnerRef, k: Key, next: nat)
    requires c == Cluster(map[], map[k := Object([other, ref], "")], next) && !other.ofSet && ref.ofSet
    ensures Collect(c, {other.uid}) == Cluster(map[], map[k := Object([other], "")], next)
  {
    assert [other, ref][..1] == [other] && [other][..0] == [];
    assert LiveOwners(c, {other.uid}, [other]) == [other];
    assert LiveOwners(c, {other.uid}, [other, ref]) == [other];
  }

  lemma AppliedIsOwned(c: Cluster, r: Resource, name: string, calls: Calls)
    requires !IsCrd(r.key) && r.key.name != "" && ValidName(name, 1) && ResourceSetName(name, 1) !in c.sets
    requires r.key in c.objects && NotOfSets(c.objects[r.key].owners) == c.objects[r.key].owners
    requires calls.creates && calls.wait.None? && calls.regulars(0, 0) == Written
    ensures
      var d := ApplyVersion(c, name, 1, [r], [], calls).cluster;
      r.key in d.objects && HasSetOwner(d.objects[r.key], name, 1)
  {
    hide ResourceSetName, DecodeResourceSetName, ApplyVersion, ApplyAll, NotOfSets, SingleSetOwner;
    var set_ := SetRef(ResourceSetName(name, 1), c.nextUid);
    DecodeUndoesEncode(name, 1);
    TakeOver(c, r, set_, calls);
    OneResource(c, name, r, calls);
    SetOwnerIsTheOnlyOne(r.owners, name, 1, c.nextUid, r.body);
  }

  lemma ThreeChanges(c0: Cluster, c1: Cluster, c2: Cluster, c3: Cluster, x: Change, y: Change, z: Change, k: Key)
    requires Follows(c0, x, c1) && Follows(c1, y, c2) && Follows(c2, z, c3)
    requires k in c0.objects && k in c1.objects && k in c2.objects && k in c3.objects
    ensures IsHistory([c0, c1, c2, c3], [x, y, z], k)
  {
    hide Follows;
  }

  /** The exception is real: once its set is gone and the collector has run, an object that another owner keeps can be
      taken over by a set of any other name. */
  lemma DisownedIsTakenOver(k: Key, a: string, b: string)
    requires !IsCrd(k) && k.name != "" && ValidName(a, 1) && ValidName(b, 1)
    ensures exists clusters: seq<Cluster>, changes: seq<Change> ::
      && IsHistory(clusters, changes, k)
      && SingleSetOwner(clusters[0].objects[k]) && HasSetOwner(clusters[0].objects[k], a, 1)
      && HasSetOwner(clusters[|changes|].objects[k], b, 1)
  {
    hide ResourceSetName, DecodeResourceSetName, ApplyVersion, Collect, IsHistory, HasSetOwner;
    var refA, other := OwnerRef(true, ResourceSetName(a, 1), 1), OwnerRef(false, "x", 7);
    var c0 := Cluster(map[refA.name := 1], map[k := Object([other, refA], "")], 2);
    var c1, c2 := Cluster(map[], c0.objects, 2), Cluster(map[], map[k := Object([other], "")], 2);
    var r := Resource(k, false, false, [], "");
    var calls := Calls(true, true, true, true, (i: nat) => Written, None, (p: nat, i: nat) => Written,
                       true, None, Error(false));
    OtherIsKept(c1, other, refA, k, 2);
    OneOther(other);
    AppliedIsOwned(c2, r, b, calls);
    var c3 := ApplyVersion(c2, b, 1, [r], [], calls).cluster;
    ThreeChanges(c0, c1, c2, c3, SetsChange(map[], 2), Collected({7}), Apply(b, 1, [r], [], calls), k);
    FirstOwner(a, other, refA);
    assert c0.objects[k] == Object([other, refA], "") && [c0, c1, c2, c3][3] == c3;
  }

  lemma OneOther(other: OwnerRef)
    requires !other.ofSet
    ensures NotOfSets([other]) == [other]
  {
    assert [other][..0] == [];
  }

  lemma FirstOwner(name: string, other: OwnerRef, ref: OwnerRef)
    requires ValidName(name, 1) && !other.ofSet && ref == OwnerRef(true, ResourceSetName(name, 1), 1)
    ensures SingleSetOwner(Object([other, ref], "")) && HasSetOwner(Object([other, ref], ""), name, 1)
  {
    hide ResourceSetName, DecodeResourceSetName;
    DecodeUndoesEncode(name, 1);
    assert ref in [other, ref];
  }

  lemma OneRegular(r: Resource)
    requires !IsCrd(r.key)
    ensures Regulars([r]) == [r] && Crds([r]) == []
  {
    assert [r][..0] == [];
    assert Regulars([]) == [] && Crds([]) == [];
  }

  lemma OneResource(c: Cluster, name: string, r: Resource, calls: Calls)
    requires !IsCrd(r.key) && ResourceSetName(name, 1) !in c.sets && calls.creates
    ensures
      var set_ := SetRef(ResourceSetName(name, 1), c.nextUid);
      ApplyVersion(c, name, 1, [r], [], calls).cluster.objects
      == ApplyAll(Installed(c, set_), [], [r], set_, calls).cluster.objects
  {
    hide ApplyAll, Prune, ResourceSetName, Regulars, Crds;
    OneRegular(r);
  }

  lemma TakeOver(c: Cluster, r: Resource, set_: SetRef, calls: Calls)
    requires r.key in c.objects && r.key.name != "" && NotOfSets(c.objects[r.key].owners) == c.objects[r.key].owners
    requires DecodeResourceSetName(set_.name).Set? && calls.wait.None? && calls.regulars(0, 0) == Written
    ensures
      var d := ApplyAll(Installed(c, set_), [], [r], set_, calls).cluster;
      r.key in d.objects && d.objects[r.key] == Wanted(r, set_)
  {
    hide DecodeResourceSetName, WithSetOwner;
    var p := Progress(Installed(c, set_), map[], 0);
    forall o | o in c.objects[r.key].owners ensures !o.ofSet { assert o in NotOfSets(c.objects[r.key].owners); }
    assert ValidOwners(c.objects[r.key].owners, set_);
    var q := RunPass(p, [r], set_, 0, calls.regulars, 0);
    assert q == p;
    assert RunPass(p, [r], set_, 0, calls.regulars, 1) == Applied(p, r.key, Wanted(r, set_), set_, Written);
  }

  // ----- Pruning -----

  lemma {:induction false} PruneFacts(sets: map<string, nat>, listing: seq<string>, name: string, version: int32,
                                      failsAt: Option<nat>, from: nat)
    requires from <= |listing|
    ensures
      var (left, ok) := Prune(sets, listing, name, version, failsAt, from);
      && left.Keys <= sets.Keys && (forall s :: s in left ==> left[s] == sets[s])
      && (forall s :: s in sets && !IsOlder(s, name, version) ==> s in left)
      && (ok ==> forall s :: s in left && IsOlder(s, name, version) ==> s !in listing[from..])
      && (ok <==> || failsAt.None? || failsAt.value < from || failsAt.value >= |listing|
                  || !IsOlder(listing[failsAt.value], name, version))
    decreases |listing| - from
  {
    hide IsOlder;
    if from < |listing| {
      assert listing[from..] == [listing[from]] + listing[from + 1..];
      if !IsOlder(listing[from], name, version) {
        PruneFacts(sets, listing, name, version, failsAt, from + 1);
      } else if failsAt != Some(from) {
        PruneFacts(sets - {listing[from]}, listing, name, version, failsAt, from + 1);
      }
    }
  }

  // ----- The meaning of an error-free Apply -----

  /** UIDs are never used twice: every set and every reference has one that was issued before. */
  ghost predicate UidsIssued(c: Cluster) {
    && (forall s :: s in c.sets ==> c.sets[s] < c.nextUid)
    && (forall k, ref :: k in c.objects && ref in c.objects[k].owners && ref.ofSet ==> ref.uid < c.nextUid)
  }

  /** What the API server and the manifests see to: a UID is not issued again, and none is named that was not issued. */
  ghost predicate NamesIssued(c: Cluster, change: Change) {
    match change
    case Apply(_, _, resources, _, _) =>
      forall r, ref :: r in Crds(resources) && ref in r.owners && ref.ofSet ==> ref.uid <= c.nextUid
    case SetsChange(sets, nextUid) => c.nextUid <= nextUid && forall s :: s in sets ==> sets[s] < nextUid
    case Collected(_) => true
  }

  /** All references to sets have a UID below this one. */
  ghost predicate RefsBelow(c: Cluster, n: nat) {
    forall k, ref :: k in c.objects && ref in c.objects[k].owners && ref.ofSet ==> ref.uid < n
  }

  lemma AppliedKeepsRefs(p: Progress, key: Key, o: Object, set_: SetRef, reply: Reply, n: nat)
    requires RefsBelow(p.cluster, n) && forall ref :: ref in o.owners && ref.ofSet ==> ref.uid < n
    ensures RefsBelow(Applied(p, key, o, set_, reply).cluster, n)
  {
    hide ValidOwners;
  }

  lemma {:induction false} CrdPhaseKeepsRefs(p: Progress, crds: seq<Resource>, set_: SetRef, replies: nat -> Reply,
                                             n: nat)
    requires RefsBelow(p.cluster, n) && forall r, ref :: r in crds && ref in r.owners && ref.ofSet ==> ref.uid < n
    ensures RefsBelow(CrdPhase(p, crds, set_, replies).cluster, n)
  {
    hide RefsBelow, Applied;
    if crds != [] {
      var m := |crds| - 1;
      CrdPhaseKeepsRefs(p, crds[..m], set_, replies, n);
      assert crds[m] in crds;
      AppliedKeepsRefs(CrdPhase(p, crds[..m], set_, replies), crds[m].key, Object(crds[m].owners, crds[m].body), set_,
                       replies(m), n);
    }
  }

  lemma {:induction false} PassKeepsRefs(p: Progress, regulars: seq<Resource>, set_: SetRef, pass: nat,
                                         replies: (nat, nat) -> Reply, m: nat, n: nat)
    requires RefsBelow(p.cluster, n) && set_.uid < n && m <= |regulars|
    ensures RefsBelow(RunPass(p, regulars, set_, pass, replies, m).cluster, n)
  {
    hide RefsBelow, Applied;
    if m > 0 {
      PassKeepsRefs(p, regulars, set_, pass, replies, m - 1, n);
      var r := regulars[m - 1];
      AppliedKeepsRefs(RunPass(p, regulars, set_, pass, replies, m - 1), r.key, Wanted(r, set_), set_,
                       replies(pass, m - 1), n);
    }
  }

  lemma {:induction false} LoopKeepsRefs(p: Progress, regulars: seq<Resource>, set_: SetRef,
                                         replies: (nat, nat) -> Reply, pass: nat, prev: nat, n: nat)
    requires RefsBelow(p.cluster, n) && set_.uid < n && pass <= MAX_PASSES
    ensures RefsBelow(RetryLoop(p, regulars, set_, replies, pass, prev).progress.cluster, n)
    decreases MAX_PASSES - pass
  {
    hide RefsBelow, RunPass;
    if pass < MAX_PASSES {
      PassKeepsRefs(p, regulars, set_, pass, replies, |regulars|, n);
      var q := RunPass(p, regulars, set_, pass, replies, |regulars|);
      if q.failures != 0 && q.failures != prev {
        LoopKeepsRefs(q, regulars, set_, replies, pass + 1, q.failures, n);
      }
    }
  }

  lemma ApplyIssues(c: Cluster, name: string, version: int32, resources: seq<Resource>, listing: seq<string>,
                    calls: Calls)
    requires UidsIssued(c)
    requires forall r, ref :: r in Crds(resources) && ref in r.owners && ref.ofSet ==> ref.uid <= c.nextUid
    ensures UidsIssued(ApplyVersion(c, name, version, resources, listing, calls).cluster)
  {
    var set_ := SetRef(ResourceSetName(name, version), c.nextUid);
    var c1, crds, regulars := Installed(c, set_), Crds(resources), Regulars(resources);
    var p := Progress(c1, map[], 0);
    CrdPhaseKeepsRefs(p, crds, set_, calls.crds, c1.nextUid);
    LoopKeepsRefs(CrdPhase(p, crds, set_, calls.crds), regulars, set_, calls.regulars, 0, 0, c1.nextUid);
    ApplyAllFrame(c1, crds, regulars, set_, calls, Key("", "", "", ""));
    var q := ApplyAll(c1, crds, regulars, set_, calls);
    assert RefsBelow(q.cluster, c1.nextUid) && q.cluster.sets == c1.sets && q.cluster.nextUid == c1.nextUid;
    PruneFacts(q.cluster.sets, listing + [set_.name], name, version, calls.pruneFailsAt, 0);
    hide ApplyAll, Prune, Crds, Regulars, ResourceSetName, AllApplied;
  }

  lemma CollectIssues(c: Cluster, others: set<nat>)
    requires UidsIssued(c)
    ensures UidsIssued(Collect(c, others))
  {
    forall k, ref | k in Collect(c, others).objects && ref in Collect(c, others).objects[k].owners && ref.ofSet
      ensures ref.uid < c.nextUid
    {
      assert ref in c.objects[k].owners;
    }
  }

  /** Over any history no UID is in use that was not issued, so that what is said about a whole set holds of every Apply
      in it. */
  lemma {:induction false} UidsStayIssued(clusters: seq<Cluster>, changes: seq<Change>, n: nat)
    requires |clusters| == |changes| + 1 && n < |clusters| && UidsIssued(clusters[0])
    requires forall i :: 0 <= i < n ==>
      Follows(clusters[i], changes[i], clusters[i + 1]) && NamesIssued(clusters[i], changes[i])
    ensures UidsIssued(clusters[n])
  {
    hide UidsIssued, ApplyVersion, Collect, Crds;
    if n > 0 {
      UidsStayIssued(clusters, changes, n - 1);
      var c := clusters[n - 1];
      assert Follows(c, changes[n - 1], clusters[n]) && NamesIssued(c, changes[n - 1]);
      match changes[n - 1]
      case Apply(name, version, resources, listing, calls) => ApplyIssues(c, name, version, resources, listing, calls);
      case SetsChange(sets, nextUid) => LaterSetsIssue(c, sets, nextUid);
      case Collected(others) => CollectIssues(c, others);
    }
  }

  lemma LaterSetsIssue(c: Cluster, sets: map<string, nat>, nextUid: nat)
    requires UidsIssued(c) && c.nextUid <= nextUid && forall s :: s in sets ==> sets[s] < nextUid
    ensures UidsIssued(c.(sets := sets, nextUid := nextUid))
  {
  }

  /** The version is above those of all sets of the name, and the listing shows every set. */
  ghost predicate IsNextVersion(c: Cluster, name: string, version: int32, listing: seq<string>) {
    && (forall s :: s in c.sets ==> s in listing)
    && (forall s, v :: s in c.sets && DecodeResourceSetName(s) == Set(name, v) ==> v < version)
  }

  // What an Apply without error did, in one place.
  lemma OkApply(c: Cluster, name: string, version: int32, resources: seq<Resource>, listing: seq<string>, calls: Calls)
    requires ApplyVersion(c, name, version, resources, listing, calls).ok
    ensures
      var d := ApplyVersion(c, name, version, resources, listing, calls).cluster;
      var set_ := SetRef(ResourceSetName(name, version), c.nextUid);
      var p := ApplyAll(Installed(c, set_), Crds(resources), Regulars(resources), set_, calls);
      && set_.name !in c.sets && calls.wait.None? && AllApplied(p.results)
      && d.objects == p.cluster.objects && d.nextUid == c.nextUid + 1
      && Prune(c.sets[set_.name := set_.uid], listing + [set_.name], name, version, calls.pruneFailsAt, 0)
          == (d.sets, true)
  {
    var set_ := SetRef(ResourceSetName(name, version), c.nextUid);
    ApplyAllFrame(Installed(c, set_), Crds(resources), Regulars(resources), set_, calls, Key("", "", "", ""));
    hide ApplyAll, Prune, Crds, Regulars, ResourceSetName, AllApplied;
  }

  ghost predicate PrunedTo(before: map<string, nat>, after: map<string, nat>, set_: SetRef, name: string,
                           version: int32) {
    && set_.name in after && after[set_.name] == set_.uid
    && (forall s, v :: s in after && DecodeResourceSetName(s) == Set(name, v) ==> s == set_.name)
    && (forall s :: s in after && s != set_.name ==> s in before && after[s] == before[s])
    && (forall s :: s in before && !IsOlder(s, name, version) ==> s in after)
  }

  lemma PruneLeavesOne(before: map<string, nat>, after: map<string, nat>, set_: SetRef, listing: seq<string>,
                       name: string, version: int32, failsAt: Option<nat>)
    requires DecodeResourceSetName(set_.name) == Set(name, version)
    requires forall s :: s in before ==> s in listing
    requires forall s, v :: s in before && DecodeResourceSetName(s) == Set(name, v) ==> v < version
    requires Prune(before[set_.name := set_.uid], listing + [set_.name], name, version, failsAt, 0) == (after, true)
    ensures PrunedTo(before, after, set_, name, version)
  {
    var sets, all := before[set_.name := set_.uid], listing + [set_.name];
    PruneFacts(sets, all, name, version, failsAt, 0);
    hide Prune, DecodeResourceSetName;
    assert all[0..] == all;
    forall s, v | s in after && DecodeResourceSetName(s) == Set(name, v) ensures s == set_.name {
      assert s in sets && (s in before ==> IsOlder(s, name, version) && s in all);
    }
  }

  /** After the sets are pruned, the new set is the only one of the name, and the sets of other names are as before. */
  lemma SetsAfterApply(c: Cluster, name: string, version: int32, resources: seq<Resource>, listing: seq<string>,
                       calls: Calls)
    requires ValidName(name, version) && IsNextVersion(c, name, version, listing)
    requires ApplyVersion(c, name, version, resources, listing, calls).ok
    ensures PrunedTo(c.sets, ApplyVersion(c, name, version, resources, listing, calls).cluster.sets,
                     SetRef(ResourceSetName(name, version), c.nextUid), name, version)
  {
    OkApply(c, name, version, resources, listing, calls);
    DecodeUndoesEncode(name, version);
    var after := ApplyVersion(c, name, version, resources, listing, calls).cluster.sets;
    hide ApplyVersion, ApplyAll, Prune, ResourceSetName, DecodeResourceSetName, PrunedTo;
    PruneLeavesOne(c.sets, after, SetRef(ResourceSetName(name, version), c.nextUid), listing, name, version,
                   calls.pruneFailsAt);
  }

  lemma OwnersKeptAlive(c: Cluster, d: Cluster, others: set<nat>, owners: seq<OwnerRef>)
    requires forall o :: o in owners && Live(c, others, o) ==> Live(d, others, o)
    ensures LiveOwners(c, others, owners) != [] ==> LiveOwners(d, others, owners) != []
  {
    if LiveOwners(c, others, owners) != [] {
      var o := LiveOwners(c, others, owners)[0];
      assert o in LiveOwners(c, others, owners);
      assert o in LiveOwners(d, others, owners);
    }
  }

  lemma {:induction false} SameOwnersLive(c: Cluster, d: Cluster, others: set<nat>, owners: seq<OwnerRef>)
    requires forall o :: o in owners ==> Live(c, others, o) == Live(d, others, o)
    ensures LiveOwners(c, others, owners) == LiveOwners(d, others, owners)
  {
    if owners != [] {
      SameOwnersLive(c, d, others, owners[..|owners| - 1]);
    }
  }

  /** What the garbage collector makes of an object that was just applied: it keeps it, with the set as owner. */
  lemma AppliedSurvives(d: Cluster, others: set<nat>, k: Key, r: Resource, name: string, version: int32, uid: nat)
    requires ValidName(name, version)
    requires var set_ := SetRef(ResourceSetName(name, version), uid);
      && set_.name in d.sets && d.sets[set_.name] == uid
      && k in d.objects && d.objects[k] == Wanted(r, set_)
    ensures
      var g := Collect(d, others);
      k in g.objects && g.objects[k].body == r.body && OwnedThrough(g.objects[k], name)
  {
    var set_ := SetRef(ResourceSetName(name, version), uid);
    var ref := OwnerRef(true, set_.name, set_.uid);
    var owners := d.objects[k].owners;
    DecodeUndoesEncode(name, version);
    assert owners[|owners| - 1] == ref;
    assert ref in owners && Live(d, others, ref);
    assert ref in LiveOwners(d, others, owners);
  }

  /** An object the Apply left alone is not owned through the name any more: the sets it may have been owned by
      are gone, and it cannot refer to the new one. */
  lemma UntouchedIsDisowned(c: Cluster, d: Cluster, others: set<nat>, k: Key, name: string, version: int32)
    requires UidsIssued(c) && k in c.objects && k in d.objects && d.objects[k] == c.objects[k]
    requires PrunedTo(c.sets, d.sets, SetRef(ResourceSetName(name, version), c.nextUid), name, version)
    ensures k in Collect(d, others).objects ==> !OwnedThrough(Collect(d, others).objects[k], name)
  {
    forall ref | ref in d.objects[k].owners && ref.ofSet && Live(d, others, ref)
      ensures forall v :: DecodeResourceSetName(ref.name) != Set(name, v)
    {
      assert ref.uid < c.nextUid;
    }
  }

  /** Replacing the set: after an error-free Apply and garbage collection, the regular objects owned through the
      name are exactly those of the manifest, with the manifest's content. */
  lemma ApplyReplacesTheSet(c: Cluster, name: string, version: int32, resources: seq<Resource>, listing: seq<string>,
                            calls: Calls, others: set<nat>)
    requires ValidName(name, version) && IsNextVersion(c, name, version, listing) && UidsIssued(c)
    requires NamedOnce(Regulars(resources))
    requires ApplyVersion(c, name, version, resources, listing, calls).ok
    ensures
      var g := Collect(ApplyVersion(c, name, version, resources, listing, calls).cluster, others);
      && (forall k :: !IsCrd(k) ==>
            (k in g.objects && OwnedThrough(g.objects[k], name) <==> HasKey(Regulars(resources), k)))
      && (forall r :: r in Regulars(resources) ==> r.key in g.objects && g.objects[r.key].body == r.body)
  {
    var d := ApplyVersion(c, name, version, resources, listing, calls).cluster;
    var set_ := SetRef(ResourceSetName(name, version), c.nextUid);
    var c1, crds, regulars := Installed(c, set_), Crds(resources), Regulars(resources);
    SetsAfterApply(c, name, version, resources, listing, calls);
    OkApply(c, name, version, resources, listing, calls);
    hide ApplyVersion, Prune, Collect, OwnedThrough, UidsIssued, IsNextVersion, ValidName;
    var g := Collect(d, others);
    forall r | r in regulars
      ensures r.key in g.objects && g.objects[r.key].body == r.body && OwnedThrough(g.objects[r.key], name)
    {
      ApplyAllSuccess(c1, crds, regulars, set_, calls, r);
      AppliedSurvives(d, others, r.key, r, name, version, c.nextUid);
    }
    forall k | !IsCrd(k) && !HasKey(regulars, k) ensures !(k in g.objects && OwnedThrough(g.objects[k], name)) {
      ApplyAllFrame(c1, crds, regulars, set_, calls, k);
      CollectedWasThere(d, others, k);
      if k in g.objects {
        UntouchedIsDisowned(c, d, others, k, name, version);
      }
    }
  }

  /** So every Apply of a history that ends without an error replaces the set of its name, whatever came before. */
  lemma EveryApplyReplacesTheSet(clusters: seq<Cluster>, changes: seq<Change>, n: nat, others: set<nat>)
    requires |clusters| == |changes| + 1 && n < |changes| && UidsIssued(clusters[0])
    requires forall i :: 0 <= i <= n ==>
      Follows(clusters[i], changes[i], clusters[i + 1]) && NamesIssued(clusters[i], changes[i])
    requires changes[n].Apply?
    requires
      var (c, a) := (clusters[n], changes[n]);
      && IsNextVersion(c, a.name, a.version, a.listing) && NamedOnce(Regulars(a.resources))
      && ApplyVersion(c, a.name, a.version, a.resources, a.listing, a.calls).ok
    ensures
      var g, a := Collect(clusters[n + 1], others), changes[n];
      && (forall k :: !IsCrd(k) ==>
            (k in g.objects && OwnedThrough(g.objects[k], a.name) <==> HasKey(Regulars(a.resources), k)))
      && (forall r :: r in Regulars(a.resources) ==> r.key in g.objects && g.objects[r.key].body == r.body)
  {
    hide UidsIssued, IsNextVersion, ApplyVersion, Collect, OwnedThrough, NamesIssued, NamedOnce;
    UidsStayIssued(clusters, changes, n);
    var c, a := clusters[n], changes[n];
    assert Follows(c, a, clusters[n + 1]);
    ApplyReplacesTheSet(c, a.name, a.version, a.resources, a.listing, a.calls, others);
  }

  lemma CollectedWasThere(d: Cluster, others: set<nat>, k: Key)
    ensures k in Collect(d, others).objects ==> k in d.objects
  {
  }

  /** Other names are untouched: their sets are as before, and an object that is neither in the manifest nor owned
      through the name fares as it would have without the Apply. */
  lemma ApplySparesOthers(c: Cluster, name: string, version: int32, resources: seq<Resource>, listing: seq<string>,
                          calls: Calls, others: set<nat>, k: Key)
    requires ValidName(name, version) && IsNextVersion(c, name, version, listing) && UidsIssued(c)
    requires ApplyVersion(c, name, version, resources, listing, calls).ok
    requires !HasKey(Crds(resources), k) && !HasKey(Regulars(resources), k)
    requires k in c.objects ==> !OwnedThrough(c.objects[k], name)
    ensures
      var d := ApplyVersion(c, name, version, resources, listing, calls).cluster;
      && (forall s :: s in c.sets && !IsOlder(s, name, version) ==> s in d.sets && d.sets[s] == c.sets[s])
      && (k in Collect(d, others).objects <==> k in Collect(c, others).objects)
      && (k in Collect(c, others).objects ==> Collect(d, others).objects[k] == Collect(c, others).objects[k])
  {
    var d := ApplyVersion(c, name, version, resources, listing, calls).cluster;
    var set_ := SetRef(ResourceSetName(name, version), c.nextUid);
    SetsAfterApply(c, name, version, resources, listing, calls);
    OkApply(c, name, version, resources, listing, calls);
    ApplyAllFrame(Installed(c, set_), Crds(resources), Regulars(resources), set_, calls, k);
    hide ApplyVersion, ApplyAll, Prune, Crds, Regulars;
    if k in c.objects {
      forall o | o in c.objects[k].owners ensures Live(c, others, o) == Live(d, others, o) {
        assert o.ofSet ==> o.uid < c.nextUid;
        assert o.ofSet ==> !IsOlder(o.name, name, version);
      }
      SameOwnersLive(c, d, others, c.objects[k].owners);
    }
  }

  /** When anything failed before the first deletion (a resource, the wait, or a call), no earlier set is deleted; so
      the garbage collector takes no regular object that it would not have taken before. */
  lemma FailedApplyKeepsOldSets(c: Cluster, name: string, version: int32, resources: seq<Resource>,
                                listing: seq<string>, calls: Calls, others: set<nat>)
    requires
      var set_ := SetRef(ResourceSetName(name, version), c.nextUid);
      || !calls.creates || !calls.updatesStatus || calls.wait.Some? || !calls.listsAgain
      || !AllApplied(ApplyAll(Installed(c, set_), Crds(resources), Regulars(resources), set_, calls).results)
    ensures
      var d := ApplyVersion(c, name, version, resources, listing, calls).cluster;
      && !ApplyVersion(c, name, version, resources, listing, calls).ok
      && (forall s :: s in c.sets ==> s in d.sets && d.sets[s] == c.sets[s])
      && (forall k :: !IsCrd(k) && k in Collect(c, others).objects && k in d.objects ==>
            k in Collect(d, others).objects)
  {
    var set_ := SetRef(ResourceSetName(name, version), c.nextUid);
    var d := ApplyVersion(c, name, version, resources, listing, calls).cluster;
    var crds, regulars := Crds(resources), Regulars(resources);
    ApplyAllFrame(Installed(c, set_), crds, regulars, set_, calls, Key("", "", "", ""));
    hide ApplyAll, Prune, AllApplied;
    if calls.creates && set_.name !in c.sets {
      forall k | !IsCrd(k) && k in Collect(c, others).objects && k in d.objects
        ensures k in Collect(d, others).objects
      {
        ApplyEvolves(c, name, version, resources, listing, calls, k);
        assert d.sets == c.sets[set_.name := set_.uid];
        hide ApplyVersion;
        EvolvedSurvives(c, d, others, k, set_);
      }
    }
  }

  lemma EvolvedSurvives(c: Cluster, d: Cluster, others: set<nat>, k: Key, set_: SetRef)
    requires set_.name !in c.sets && d.sets == c.sets[set_.name := set_.uid]
    requires Evolves(c, d, k, set_) && k in Collect(c, others).objects && k in d.objects
    ensures k in Collect(d, others).objects
  {
    hide NotOfSets, LiveOwners;
    if d.objects[k] == c.objects[k] {
      OwnersKeptAlive(c, d, others, c.objects[k].owners);
    } else {
      var owners :| d.objects[k].owners == WithSetOwner(owners, set_);
      var ref := OwnerRef(true, set_.name, set_.uid);
      assert d.objects[k].owners[|d.objects[k].owners| - 1] == ref;
      assert Live(d, others, ref) && ref in LiveOwners(d, others, d.objects[k].owners);
    }
  }
}
