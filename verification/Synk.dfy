/** Synk: applying a manifest as one versioned ResourceSet. Data, the rules of the API server, and what each
    function of the package does, as functions of the cluster and of the replies to its calls. */
module Synk {
  import opened Wrappers
  import opened SetNames

  datatype Key = Key(apiVersion: string, kind: string, namespace: string, name: string)

  predicate HasPrefix(s: string, prefix: string) { prefix <= s }

  /** isCustomResourceDefinition */
  predicate IsCrd(key: Key) {
    HasPrefix(key.apiVersion, "apiextensions.k8s.io/") && key.kind == "CustomResourceDefinition"
  }

  /** `ofSet` marks the references whose API version and kind are those of a ResourceSet. */
  datatype OwnerRef = OwnerRef(ofSet: bool, name: string, uid: nat)

  /** One entry of a manifest. */
  datatype Resource = Resource(key: Key, namespaced: bool, test: bool, owners: seq<OwnerRef>, body: string)

  /** A live object, as far as ownership goes. */
  datatype Object = Object(owners: seq<OwnerRef>, body: string)

  /** The ResourceSets by name, with their UIDs, and everything else. */
  datatype Cluster = Cluster(sets: map<string, nat>, objects: map<Key, Object>, nextUid: nat)

  datatype Error = Error(transient: bool)

  /** A failed patch or update may be followed by deleting and creating the object again. */
  datatype Replacement = NotReplaceable | DeleteFails(error: Error) | CreateFails(error: Error, gone: bool) | Replaced

  /** How the API server answers the calls of one applyOne. */
  datatype Reply = GetFails(error: Error) | Written | WriteFails(error: Error, next: Replacement)

  datatype SetRef = SetRef(name: string, uid: nat)

  // ----- Owner references -----

  function NotOfSets(owners: seq<OwnerRef>): (r: seq<OwnerRef>)
    ensures forall o :: o in r <==> o in owners && !o.ofSet
  {
    if owners == [] then []
    else NotOfSets(owners[..|owners| - 1]) + (if owners[|owners| - 1].ofSet then [] else [owners[|owners| - 1]])
  }

  /** setOwnerRef: the set is the one ResourceSet owner, behind the other owners in their order. */
  function WithSetOwner(owners: seq<OwnerRef>, set_: SetRef): seq<OwnerRef> {
    NotOfSets(owners) + [OwnerRef(true, set_.name, set_.uid)]
  }

  /** A reference that an apply for version `version` of `name` may replace. */
  predicate IsPredecessor(o: OwnerRef, name: string, version: int32) {
    o.ofSet ==>
      match DecodeResourceSetName(o.name)
      case Set(n, v) => n == name && v <= version
      case _ => false
  }

  /** validateOwnerRefs, for a set whose own name decodes. */
  predicate ValidOwners(owners: seq<OwnerRef>, set_: SetRef) {
    match DecodeResourceSetName(set_.name)
    case Set(name, version) => forall i :: 0 <= i < |owners| ==> IsPredecessor(owners[i], name, version)
    case _ => false
  }

  // ----- applyOne -----

  function Write(c: Cluster, key: Key, o: Object): Cluster {
    c.(objects := c.objects[key := o])
  }

  /** applyOne. A patch is taken to give the live object the owners and body of the manifest. */
  function ApplyOne(c: Cluster, key: Key, o: Object, set_: SetRef, reply: Reply): (Cluster, Option<Error>) {
    if key.name == "" then (c, Some(Error(false)))
    else if reply.GetFails? then (c, Some(reply.error))
    else if key !in c.objects then
      if reply.WriteFails? then (c, Some(reply.error)) else (Write(c, key, o), None)
    else if !ValidOwners(c.objects[key].owners, set_) then (c, Some(Error(false)))
    else if reply.Written? then (Write(c, key, o), None)
    else
      match reply.next
      case NotReplaceable => (c, Some(reply.error))
      case DeleteFails(e) => (c, Some(e))
      case CreateFails(e, gone) => (if gone then c.(objects := c.objects - {key}) else c, Some(e))
      case Replaced => (Write(c, key, o), None)
  }

  // ----- applyAll -----

  type Results = map<Key, Option<Error>>

  predicate Failed(results: Results, key: Key) { key in results && results[key].Some? }

  predicate AllApplied(results: Results) { forall k :: k in results ==> results[k].None? }

  datatype Progress = Progress(cluster: Cluster, results: Results, failures: nat)

  function Applied(p: Progress, key: Key, o: Object, set_: SetRef, reply: Reply): Progress {
    var (c, e) := ApplyOne(p.cluster, key, o, set_, reply);
    Progress(c, p.results[key := e], p.failures + (if e.Some? then 1 else 0))
  }

  function Wanted(r: Resource, set_: SetRef): Object {
    Object(WithSetOwner(r.owners, set_), r.body)
  }

  /** CRDs are applied once each, and without the set as an owner. */
  function CrdPhase(p: Progress, crds: seq<Resource>, set_: SetRef, replies: nat -> Reply): Progress {
    if crds == [] then p
    else
      var n := |crds| - 1;
      var q := CrdPhase(p, crds[..n], set_, replies);
      Applied(q, crds[n].key, Object(crds[n].owners, crds[n].body), set_, replies(n))
  }

  /** One pass over the first n regular resources: after the first pass, only over those that failed. */
  function RunPass(p: Progress, regulars: seq<Resource>, set_: SetRef, pass: nat, replies: (nat, nat) -> Reply,
                   n: nat): Progress
    requires n <= |regulars|
  {
    if n == 0 then p.(failures := 0)
    else
      var q := RunPass(p, regulars, set_, pass, replies, n - 1);
      var r := regulars[n - 1];
      if pass > 0 && !Failed(q.results, r.key) then q
      else Applied(q, r.key, Wanted(r, set_), set_, replies(pass, n - 1))
  }

  const MAX_PASSES := 10

  /** The end of the retry loop, and the number of failures of every pass. */
  datatype LoopEnd = LoopEnd(progress: Progress, history: seq<nat>)

  function RetryLoop(p: Progress, regulars: seq<Resource>, set_: SetRef, replies: (nat, nat) -> Reply, pass: nat,
                     prev: nat): LoopEnd
    requires pass <= MAX_PASSES
    decreases MAX_PASSES - pass
  {
    if pass == MAX_PASSES then LoopEnd(p, [])
    else
      var q := RunPass(p, regulars, set_, pass, replies, |regulars|);
      if q.failures == 0 || q.failures == prev then LoopEnd(q, [q.failures])
      else
        var end := RetryLoop(q, regulars, set_, replies, pass + 1, q.failures);
        LoopEnd(end.progress, [q.failures] + end.history)
  }

  /** The answers to all calls of one Apply: whether the discovery of namespaced kinds and the list, create and status
      calls succeed, the replies to the applies, the error of waiting for the CRDs, whether listing the sets once more
      before pruning succeeds, and the position at which a delete of an old set fails. `failure` is the error of the
      first of these calls that fails, which ends the Apply. */
  datatype Calls = Calls(
    discovers: bool, lists: bool, creates: bool, updatesStatus: bool,
    crds: nat -> Reply, wait: Option<Error>, regulars: (nat, nat) -> Reply,
    listsAgain: bool, pruneFailsAt: Option<nat>, failure: Error)

  function ApplyAll(c: Cluster, crds: seq<Resource>, regulars: seq<Resource>, set_: SetRef, calls: Calls): Progress {
    var p := CrdPhase(Progress(c, map[], 0), crds, set_, calls.crds);
    if calls.wait.Some? then p else RetryLoop(p, regulars, set_, calls.regulars, 0, 0).progress
  }

  // ----- Apply -----

  datatype Options = Options(namespace: string, enforceNamespace: bool)

  function Regulars(resources: seq<Resource>): (r: seq<Resource>)
    ensures forall x :: x in r <==> x in resources && !IsCrd(x.key)
  {
    if resources == [] then []
    else
      var last := resources[|resources| - 1];
      Regulars(resources[..|resources| - 1]) + (if IsCrd(last.key) then [] else [last])
  }

  function Crds(resources: seq<Resource>): (r: seq<Resource>)
    ensures forall x :: x in r <==> x in resources && IsCrd(x.key)
  {
    if resources == [] then []
    else
      var last := resources[|resources| - 1];
      Crds(resources[..|resources| - 1]) + (if IsCrd(last.key) then [last] else [])
  }

  /** Test resources are dropped, and a namespaced regular resource without a namespace gets the default one. */
  function Prepared(manifest: seq<Resource>, namespace: string): seq<Resource> {
    if manifest == [] then []
    else
      var last := manifest[|manifest| - 1];
      Prepared(manifest[..|manifest| - 1], namespace)
      + (if last.test then []
         else if !IsCrd(last.key) && last.namespaced && last.key.namespace == ""
         then [last.(key := last.key.(namespace := namespace))] else [last])
  }

  predicate NamespaceAllowed(r: Resource, options: Options) {
    options.enforceNamespace && !IsCrd(r.key) ==>
      r.key.namespace == "" || r.key.namespace == options.namespace || r.key.namespace == "kube-system"
  }

  /** The sets that deleteResourceSets removes: those of the name with a lower version. */
  predicate IsOlder(set_: string, name: string, version: int32) {
    match DecodeResourceSetName(set_)
    case Set(n, v) => n == name && v < version
    case _ => false
  }

  /** deleteResourceSets, over the sets in the order in which they are listed; a failing delete ends it. */
  function Prune(sets: map<string, nat>, listing: seq<string>, name: string, version: int32, failsAt: Option<nat>,
                 from: nat)
    : (map<string, nat>, bool)
    requires from <= |listing|
    decreases |listing| - from
  {
    if from == |listing| then (sets, true)
    else if !IsOlder(listing[from], name, version) then Prune(sets, listing, name, version, failsAt, from + 1)
    else if failsAt == Some(from) then (sets, false)
    else Prune(sets - {listing[from]}, listing, name, version, failsAt, from + 1)
  }

  datatype Outcome = Outcome(cluster: Cluster, ok: bool)

  /** createResourceSet */
  function Installed(c: Cluster, set_: SetRef): Cluster {
    c.(sets := c.sets[set_.name := set_.uid], nextUid := c.nextUid + 1)
  }

  /** The end of Apply: the status of the set is updated, and if everything was applied the older sets go. */
  function Finished(p: Progress, set_: SetRef, name: string, version: int32, listing: seq<string>,
                    calls: Calls): Outcome {
    if !calls.updatesStatus || calls.wait.Some? || !AllApplied(p.results) || !calls.listsAgain
    then Outcome(p.cluster, false)
    else
      var (sets, ok) := Prune(p.cluster.sets, listing + [set_.name], name, version, calls.pruneFailsAt, 0);
      Outcome(p.cluster.(sets := sets), ok)
  }

  /** Apply of prepared resources, once the version of the new set is known. */
  function ApplyVersion(c: Cluster, name: string, version: int32, resources: seq<Resource>, listing: seq<string>,
                        calls: Calls): Outcome
  {
    var set_ := SetRef(ResourceSetName(name, version), c.nextUid);
    if !calls.creates || set_.name in c.sets then Outcome(c, false)
    else Finished(ApplyAll(Installed(c, set_), Crds(resources), Regulars(resources), set_, calls), set_, name,
                  version, listing, calls)
  }

  // ----- Garbage collection -----

  predicate Live(c: Cluster, others: set<nat>, o: OwnerRef) {
    if o.ofSet then o.name in c.sets && c.sets[o.name] == o.uid else o.uid in others
  }

  function LiveOwners(c: Cluster, others: set<nat>, owners: seq<OwnerRef>): (r: seq<OwnerRef>)
    ensures forall o :: o in r <==> o in owners && Live(c, others, o)
  {
    if owners == [] then []
    else
      var last := owners[|owners| - 1];
      LiveOwners(c, others, owners[..|owners| - 1]) + (if Live(c, others, last) then [last] else [])
  }

  /** An object that has owners goes when all of them are gone, and loses its references to those that are. */
  function Collect(c: Cluster, others: set<nat>): Cluster {
    c.(objects := map k | k in c.objects
                          && (c.objects[k].owners == [] || LiveOwners(c, others, c.objects[k].owners) != [])
                  :: c.objects[k].(owners := LiveOwners(c, others, c.objects[k].owners)))
  }

  /** The object has an owner that is a ResourceSet of this name. */
  ghost predicate OwnedThrough(o: Object, name: string) {
    exists ref, v :: ref in o.owners && ref.ofSet && DecodeResourceSetName(ref.name) == Set(name, v)
  }
}
